/**
 * The device side of the Cacophony API client library (go-api api.go):
 * classifying HTTP status codes, turning a failed response into an
 * error, and registering or authenticating the device, saving its
 * password and id under the configuration lock.
 *
 * Each HTTP exchange is an input: either the transport error, or the
 * status code, the body as read (or the read error) and the decoded token
 * response (or the decoder's error). The generated password
 * (`randString(20)`) is an input as well.
 */
module GoApiClient {
  import opened Wrappers
  import opened Text
  import opened GoApiError
  import opened GoApiConfig

  /** `isHTTPSuccess`: a 2xx status, the codes whose class digit is 2. */
  function IsHTTPSuccess(code: int): (r: bool)
    ensures r <==> code >= 0 && code / 100 == 2
  {
    200 <= code < 300
  }

  /** `isHTTPClientError`: a 4xx status, the codes whose class digit is 4;
      never a success. */
  function IsHTTPClientError(code: int): (r: bool)
    ensures r <==> code >= 0 && code / 100 == 4
    ensures r ==> !IsHTTPSuccess(code)
  {
    400 <= code < 500
  }

  /** A response as the client sees it. */
  datatype HttpResponse = HttpResponse(statusCode: int, body: Result<string>, decoded: Result<TokenResponse>)

  /** `tokenResponse`. */
  datatype TokenResponse = TokenResponse(messages: seq<string>, token: string, id: int)
  {
    /** `message`: the first message, or "unknown" when there is none. */
    function Message(): (r: string)
      ensures |messages| > 0 ==> r == messages[0]
      ensures |messages| == 0 ==> r == "unknown"
    {
      if |messages| > 0 then messages[0] else "unknown"
    }
  }

  /** `handleHTTPResponse`: no error for a 2xx status; otherwise an API
      error with the status and the body, permanent iff the status is a
      4xx, or a temporary error when the body cannot be read. */
  function HandleHTTPResponse(resp: HttpResponse): (r: Option<GoError>)
    ensures r.None? <==> IsHTTPSuccess(resp.statusCode)
    ensures r.Some? ==> r.value.ApiError?
  {
    if IsHTTPSuccess(resp.statusCode) then None
    else if resp.body.Failure? then
      Some(TemporaryError(OtherError("request failed (" + IntToString(resp.statusCode)
                                     + ") and body read failed: " + resp.body.error)))
    else
      Some(ApiError("HTTP request failed (" + IntToString(resp.statusCode) + "): " + resp.body.value,
                    IsHTTPClientError(resp.statusCode)))
  }

  /** A failed response is worth retrying unless it is a client error
      whose body could be read: 5xx and other statuses are temporary, and
      success is no error at all. */
  lemma ResponsePermanence(resp: HttpResponse)
    ensures IsPermanentError(HandleHTTPResponse(resp)) <==>
      IsHTTPClientError(resp.statusCode) && resp.body.Ok?
    ensures !(IsHTTPSuccess(resp.statusCode) && IsHTTPClientError(resp.statusCode))
  {
  }

  const NoPassword := "no password set"
  const AlreadyRegistered := "already registered"
  const DecodeError := "decode: "

  /** What `authenticate` posts: the device id when it has one, otherwise
      its name and group; what `register` posts: group, name and the new
      password. */
  datatype Request =
    | AuthById(password: string, deviceID: int)
    | AuthByName(password: string, deviceName: string, groupName: string)
    | RegisterDevice(group: string, deviceName: string, password: string)

  /** The outcome of one exchange: the error, or the decoded token
      response. */
  function Exchange(post: Result<HttpResponse>): Result<TokenResponse>
  {
    match post
    case Failure(e) => Failure(e)
    case Ok(resp) =>
      if HandleHTTPResponse(resp).Some? then Failure(HandleHTTPResponse(resp).value.Text())
      else if resp.decoded.Failure? then Failure(DecodeError + resp.decoded.error)
      else Ok(resp.decoded.value)
  }

  /** The error value an exchange returns, with its permanence. */
  function ExchangeError(post: Result<HttpResponse>): GoError
    requires Exchange(post).Failure?
  {
    match post
    case Failure(e) => OtherError(e)
    case Ok(resp) =>
      if HandleHTTPResponse(resp).Some? then HandleHTTPResponse(resp).value
      else OtherError(DecodeError + resp.decoded.error)
  }

  /** `CacophonyAPI` with its `CacophonyDevice`. */
  class CacophonyAPI {
    var group: string
    var name: string
    var password: string
    var id: int
    var token: string
    var justRegistered: bool
    /** The requests posted so far, in order. */
    var sent: seq<Request>

    /** The device as `apiFromConfig` sets it up, before registering or
        authenticating. */
    constructor (group: string, name: string, password: string, id: int)
      ensures this.group == group && this.name == name && this.password == password && this.id == id
      ensures token == "" && !justRegistered && sent == []
    {
      this.group := group;
      this.name := name;
      this.password := password;
      this.id := id;
      token := "";
      justRegistered := false;
      sent := [];
    }

    /** `authenticate`: refuses without a password; otherwise posts the
        credentials and, on success, takes the device id and token from the
        response. */
    method Authenticate(post: Result<HttpResponse>) returns (err: Option<GoError>)
      modifies this
      ensures group == old(group) && name == old(name) && password == old(password)
      ensures justRegistered == old(justRegistered)
      ensures old(password) == "" ==>
        err == Some(OtherError(NoPassword)) && id == old(id) && token == old(token) && sent == old(sent)
      ensures old(password) != "" ==>
        sent == old(sent) + [if old(id) > 0 then AuthById(old(password), old(id))
                             else AuthByName(old(password), old(name), old(group))]
      ensures old(password) != "" && Exchange(post).Ok? ==>
        err.None? && id == Exchange(post).value.id && token == Exchange(post).value.token
      ensures old(password) != "" && Exchange(post).Failure? ==>
        err == Some(ExchangeError(post)) && id == old(id) && token == old(token)
    {
      if password == "" {
        return Some(OtherError(NoPassword));
      }
      var request := if id > 0 then AuthById(password, id) else AuthByName(password, name, group);
      sent := sent + [request];
      if post.Failure? {
        return Some(OtherError(post.error));
      }
      var failed := HandleHTTPResponse(post.value);
      if failed.Some? {
        return failed;
      }
      if post.value.decoded.Failure? {
        return Some(OtherError(DecodeError + post.value.decoded.error));
      }
      id := post.value.decoded.value.id;
      token := post.value.decoded.value.token;
      return None;
    }

    /** `register`: refuses when a password is already set; otherwise posts
        the group, name and a new password and, on success, takes the
        device id, the password and the token, and marks the device as just
        registered. */
    method Register(generated: string, post: Result<HttpResponse>) returns (err: Option<GoError>)
      modifies this
      ensures group == old(group) && name == old(name)
      ensures old(password) != "" ==>
        err == Some(OtherError(AlreadyRegistered)) && password == old(password) && id == old(id)
        && token == old(token) && justRegistered == old(justRegistered) && sent == old(sent)
      ensures old(password) == "" ==> sent == old(sent) + [RegisterDevice(old(group), old(name), generated)]
      ensures old(password) == "" && Exchange(post).Ok? ==>
        err.None? && id == Exchange(post).value.id && password == generated
        && token == Exchange(post).value.token && justRegistered
      ensures old(password) == "" && Exchange(post).Failure? ==>
        err == Some(ExchangeError(post)) && password == old(password) && id == old(id)
        && token == old(token) && justRegistered == old(justRegistered)
    {
      if password != "" {
        return Some(OtherError(AlreadyRegistered));
      }
      sent := sent + [RegisterDevice(group, name, generated)];
      if post.Failure? {
        return Some(OtherError(post.error));
      }
      var failed := HandleHTTPResponse(post.value);
      if failed.Some? {
        return failed;
      }
      if post.value.decoded.Failure? {
        return Some(OtherError(DecodeError + post.value.decoded.error));
      }
      id := post.value.decoded.value.id;
      password := generated;
      token := post.value.decoded.value.token;
      justRegistered := true;
      return None;
    }

    /** `registerOrAuthenticate`: a device without a password registers and
        saves its new id and password; one with a password authenticates,
        and saves the id the server gave when the stored id was 0. Reading
        the stored id when nothing was read panics. */
    method RegisterOrAuthenticate(lsc: LockSafeConfig, generated: string, post: Result<HttpResponse>)
      returns (r: Panicking<Option<GoError>>)
      modifies this, lsc
      ensures lsc.locked == old(lsc.locked) && lsc.config == old(lsc.config)
      ensures group == old(group) && name == old(name)
      // no password: register, then save the id and the new password
      ensures old(password) == "" ==> sent == old(sent) + [RegisterDevice(old(group), old(name), generated)]
      ensures old(password) == "" && Exchange(post).Ok? ==>
        && r.Returns? && password == generated && id == Exchange(post).value.id
        && token == Exchange(post).value.token && justRegistered
        && (lsc.locked ==> r.value.None? && lsc.file == Some(PrivateConfig(generated, id)))
        && (!lsc.locked ==>
              r.value == Some(OtherError(WriteLockError + lsc.filename)) && lsc.file == old(lsc.file))
      ensures old(password) == "" && Exchange(post).Failure? ==>
        && r == Returns(Some(ExchangeError(post))) && lsc.file == old(lsc.file)
        && password == old(password) && id == old(id) && token == old(token)
        && justRegistered == old(justRegistered)
      // a password: authenticate, then save the id if the stored one is 0
      ensures old(password) != "" ==>
        && password == old(password) && justRegistered == old(justRegistered)
        && sent == old(sent) + [if old(id) > 0 then AuthById(old(password), old(id))
                                else AuthByName(old(password), old(name), old(group))]
      ensures old(password) != "" && Exchange(post).Failure? ==>
        r == Returns(Some(ExchangeError(post))) && lsc.file == old(lsc.file)
        && id == old(id) && token == old(token)
      ensures old(password) != "" && Exchange(post).Ok? ==>
        && id == Exchange(post).value.id && token == Exchange(post).value.token
        && (lsc.config.None? ==> r.Panics? && lsc.file == old(lsc.file))
        && (lsc.config.Some? && lsc.config.value.deviceID == 0 && id > 0 && lsc.locked ==>
              r == Returns(None) && lsc.file == Some(PrivateConfig(password, id)))
        && (lsc.config.Some? && lsc.config.value.deviceID == 0 && id > 0 && !lsc.locked ==>
              r == Returns(Some(OtherError(WriteLockError + lsc.filename))) && lsc.file == old(lsc.file))
        && (lsc.config.Some? && !(lsc.config.value.deviceID == 0 && id > 0) ==>
              r == Returns(None) && lsc.file == old(lsc.file))
    {
      if password == "" {
        var err := Register(generated, post);
        if err.Some? {
          return Returns(err);
        }
        err := lsc.Write(id, password);
        return Returns(err);
      }
      var err := Authenticate(post);
      if err.Some? {
        return Returns(err);
      }
      if lsc.config.None? {
        return Panics;
      }
      if lsc.config.value.deviceID == 0 && id > 0 {
        err := lsc.Write(id, password);
        return Returns(err);
      }
      return Returns(None);
    }
  }

  /** A new device registers, saves its credentials under the lock, and
      then holds a valid private configuration whenever the server gave it
      a non-zero id and the generated password is not empty. */
  method RegisterNewDevice(group: string, name: string, generated: string, post: Result<HttpResponse>)
    returns (r: Panicking<Option<GoError>>, saved: Option<PrivateConfig>)
    requires Exchange(post).Ok?
    ensures r == Returns(None)
    ensures saved == Some(PrivateConfig(generated, Exchange(post).value.id))
    ensures IsValid(saved.value) <==> generated != "" && Exchange(post).value.id != 0
  {
    var api := new CacophonyAPI(group, name, "", 0);
    var lsc := new LockSafeConfig("/etc/cacophony/device-priv.yaml", None);
    var _, _ := lsc.GetExLock(Ok(true));
    r := api.RegisterOrAuthenticate(lsc, generated, post);
    saved := lsc.file;
  }

  /** A device with a password always authenticates, never registers: the
      request it posts carries its id when it has one, else its name and
      group. */
  method AuthenticateKnownDevice(group: string, name: string, password: string, id: int,
                                 post: Result<HttpResponse>)
    returns (request: Request)
    requires password != ""
    ensures id > 0 ==> request == AuthById(password, id)
    ensures id <= 0 ==> request == AuthByName(password, name, group)
  {
    var api := new CacophonyAPI(group, name, password, id);
    var _ := api.Authenticate(post);
    request := api.sent[0];
  }
}
