/**
 * The configuration of the Cacophony API client library (go-api
 * config.go): the device configuration and its validation, and the
 * private configuration (password and device id) guarded by a file lock.
 *
 * YAML decoding is an input: the decoded value, or the decoder's error.
 * Acquiring a lock is an input too: whether it was obtained within the
 * library's timeout, or the error. The lock's other holders, and
 * concurrency, are not modelled.
 */
module GoApiConfig {
  import opened Wrappers
  import opened GoApiError

  /** `Config`: the server, the group and the device name. */
  datatype Config = Config(serverURL: string, group: string, deviceName: string)

  /** `PrivateConfig`: the device's password and id. */
  datatype PrivateConfig = PrivateConfig(password: string, deviceID: int)

  /** `PrivateConfig.IsValid`: a password and a non-zero device id. Go's
      zero value, what a missing file decodes to, is never valid. */
  function IsValid(conf: PrivateConfig): (r: bool)
    ensures r <==> conf.password != "" && conf.deviceID != 0
    ensures conf == PrivateConfig("", 0) ==> !r
  {
    conf.password != "" && conf.deviceID != 0
  }

  const ServerUrlMissing := "server-url missing"
  const DeviceNameMissing := "device-name missing"

  /** `Config.Validate`: the server URL is checked first, then the device
      name; the group may be empty. */
  function Validate(conf: Config): (r: Option<GoError>)
    ensures r.None? <==> conf.serverURL != "" && conf.deviceName != ""
    ensures conf.serverURL == "" ==> r == Some(OtherError(ServerUrlMissing))
    ensures conf.serverURL != "" && conf.deviceName == "" ==> r == Some(OtherError(DeviceNameMissing))
  {
    if conf.serverURL == "" then Some(OtherError(ServerUrlMissing))
    else if conf.deviceName == "" then Some(OtherError(DeviceNameMissing))
    else None
  }

  /** `ParseConfig`, given what the YAML decoder made of the bytes. */
  function ParseConfig(decoded: Result<Config>): (r: Result<Config>)
    ensures decoded.Failure? ==> r == decoded
    ensures decoded.Ok? ==> (r.Ok? <==> Validate(decoded.value).None?)
    ensures r.Ok? ==> r == decoded
    ensures decoded.Ok? && Validate(decoded.value).Some? ==> r == Failure(Validate(decoded.value).value.Text())
  {
    match decoded
    case Failure(e) => Failure(e)
    case Ok(conf) => if Validate(conf).Some? then Failure(Validate(conf).value.Text()) else Ok(conf)
  }

  /** A parsed configuration is the decoded one and always names a server
      and a device; a decoding error is passed on unchanged. */
  lemma ParsedIsValid(decoded: Result<Config>)
    ensures ParseConfig(decoded).Ok? ==>
      decoded.Ok? && ParseConfig(decoded).value == decoded.value
      && ParseConfig(decoded).value.serverURL != "" && ParseConfig(decoded).value.deviceName != ""
    ensures decoded.Failure? ==> ParseConfig(decoded) == decoded
    ensures decoded.Ok? && decoded.value.serverURL == "" ==> ParseConfig(decoded) == Failure(ServerUrlMissing)
  {
  }

  const WriteLockError := "WritePassword could not get file lock "

  /** `LockSafeConfig`: the private configuration file, the lock file and
      the configuration last read. */
  class LockSafeConfig {
    const filename: string
    /** Whether this process holds the exclusive lock. */
    var locked: bool
    /** The file's content, `None` when it does not exist. */
    var file: Option<PrivateConfig>
    /** `config`: what the last successful read decoded, `None` for nil. */
    var config: Option<PrivateConfig>

    /** `NewLockSafeConfig`: unlocked, nothing read yet. */
    constructor (filename: string, file: Option<PrivateConfig>)
      ensures this.filename == filename && this.file == file
      ensures !locked && config.None?
    {
      this.filename := filename;
      this.file := file;
      locked := false;
      config := None;
    }

    /** `GetExLock`, given whether the lock was obtained in time. */
    method GetExLock(attempt: Result<bool>) returns (gotLock: bool, err: Option<GoError>)
      modifies this
      ensures locked == (old(locked) || attempt == Ok(true))
      ensures gotLock == (attempt == Ok(true))
      ensures err == (if attempt.Failure? then Some(OtherError(attempt.error)) else None)
      ensures file == old(file) && config == old(config)
    {
      gotLock := attempt == Ok(true);
      err := if attempt.Failure? then Some(OtherError(attempt.error)) else None;
      locked := locked || gotLock;
    }

    /** `Unlock`. */
    method Unlock()
      modifies this
      ensures !locked && file == old(file) && config == old(config)
    {
      locked := false;
    }

    /** `Read`: without the exclusive lock it first takes a read lock (and
        returns nil, with the error if any, when that fails), released
        again at the end. A missing file is nil with no error, and leaves
        `config` as it was. */
    method Read(readLock: Result<bool>) returns (conf: Option<PrivateConfig>, err: Option<GoError>)
      modifies this
      ensures locked == old(locked) && file == old(file)
      ensures !old(locked) && readLock != Ok(true) ==>
        conf.None? && config == old(config)
        && err == (if readLock.Failure? then Some(OtherError(readLock.error)) else None)
      ensures old(locked) || readLock == Ok(true) ==>
        err.None? && conf == file && config == (if file.Some? then file else old(config))
    {
      if !locked {
        if readLock != Ok(true) {
          return None, if readLock.Failure? then Some(OtherError(readLock.error)) else None;
        }
      }
      if file.None? {
        return None, None;
      }
      config := file;
      return config, None;
    }

    /** `Write`: stores the device id and password, but only while holding
        the exclusive lock. */
    method Write(deviceID: int, password: string) returns (err: Option<GoError>)
      modifies this
      ensures locked ==> err.None? && file == Some(PrivateConfig(password, deviceID))
      ensures !locked ==> err == Some(OtherError(WriteLockError + filename)) && file == old(file)
      ensures locked == old(locked) && config == old(config)
    {
      if locked {
        file := Some(PrivateConfig(password, deviceID));
        return None;
      }
      return Some(OtherError(WriteLockError + filename));
    }
  }

  /** The lock rule: a write without the exclusive lock fails and leaves
      the file alone, while a write under the lock is what the next read
      returns. */
  method WriteThenRead(filename: string, initial: Option<PrivateConfig>, lockAttempt: Result<bool>,
                       deviceID: int, password: string)
    returns (writeErr: Option<GoError>, read: Option<PrivateConfig>)
    ensures lockAttempt == Ok(true) ==> writeErr.None? && read == Some(PrivateConfig(password, deviceID))
    ensures lockAttempt != Ok(true) ==>
      writeErr == Some(OtherError(WriteLockError + filename)) && read == initial
  {
    var lsc := new LockSafeConfig(filename, initial);
    var _, _ := lsc.GetExLock(lockAttempt);
    writeErr := lsc.Write(deviceID, password);
    var conf, _ := lsc.Read(Ok(true));
    read := conf;
    lsc.Unlock();
  }
}
