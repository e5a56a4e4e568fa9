/**
 * The hotspot set-up of the management daemon (cmd/managementd/hotspot.go):
 * reading `wpa_cli -i wlan0 status` to tell whether the device is on a
 * network, polling that for up to ten seconds, switching the DHCP client
 * configuration between the Wi-Fi and hotspot modes, and refusing to start
 * the hotspot while a network is up.
 *
 * The host's files and service commands are a `HostSystem.Host`; the
 * output of each `wpa_cli` call is an input, with `Failure` for a call
 * that fails. The one-second pauses and the log lines are not modelled.
 */
module HotspotDaemon {
  import opened Wrappers
  import opened Text
  import opened HostSystem

  // ---------------------------------------------------------------------
  // checkIsConnectedToNetwork

  /** What the status loop has seen: the last SSID, the last IP address
      and whether the connection was reported complete. */
  datatype WpaStatus = WpaStatus(ssid: string, ipAddress: string, stateCompleted: bool)

  /** One line of the status loop; the three tests are independent. */
  function StatusStep(st: WpaStatus, line: string): WpaStatus
  {
    var ssid := if HasPrefix(line, "ssid=") then TrimPrefix(line, "ssid=") else st.ssid;
    var ipAddress := if HasPrefix(line, "ip_address=") then TrimPrefix(line, "ip_address=") else st.ipAddress;
    WpaStatus(ssid, ipAddress, st.stateCompleted || Contains(line, "wpa_state=COMPLETED"))
  }

  function StatusOf(lines: seq<string>): WpaStatus
  {
    if lines == [] then WpaStatus("", "", false)
    else StatusStep(StatusOf(lines[..|lines| - 1]), lines[|lines| - 1])
  }

  /** Connected: complete, with an SSID and an IP address. */
  predicate Connected(st: WpaStatus)
  {
    st.stateCompleted && st.ssid != "" && st.ipAddress != ""
  }

  /** The value after `prefix` on the last line that starts with it, or ""
      when no line does. */
  function LastValue(lines: seq<string>, prefix: string): string
  {
    if lines == [] then ""
    else if HasPrefix(lines[|lines| - 1], prefix) then lines[|lines| - 1][|prefix|..]
    else LastValue(lines[..|lines| - 1], prefix)
  }

  /** The loop's state is the last "ssid=" value, the last "ip_address="
      value and whether any line reports "wpa_state=COMPLETED". */
  lemma {:induction false} StatusCharacterised(lines: seq<string>)
    ensures StatusOf(lines).ssid == LastValue(lines, "ssid=")
    ensures StatusOf(lines).ipAddress == LastValue(lines, "ip_address=")
    ensures StatusOf(lines).stateCompleted <==>
      exists i :: 0 <= i < |lines| && Contains(lines[i], "wpa_state=COMPLETED")
  {
    if lines != [] {
      var init := lines[..|lines| - 1];
      StatusCharacterised(init);
      if StatusOf(lines).stateCompleted && !Contains(lines[|lines| - 1], "wpa_state=COMPLETED") {
        var i :| 0 <= i < |init| && Contains(init[i], "wpa_state=COMPLETED");
        assert lines[i] == init[i];
      }
      if exists i :: 0 <= i < |lines| && Contains(lines[i], "wpa_state=COMPLETED") {
        var i :| 0 <= i < |lines| && Contains(lines[i], "wpa_state=COMPLETED");
        if i < |init| {
          assert init[i] == lines[i];
        }
      }
    }
  }

  const WpaCliError := "error executing wpa_cli: "

  /** `checkIsConnectedToNetwork` on the outcome of `wpa_cli -i wlan0
      status`. */
  method CheckIsConnectedToNetwork(output: Result<string>) returns (r: Result<bool>)
    ensures output.Failure? ==> r == Failure(WpaCliError + output.error)
    ensures output.Ok? ==> r == Ok(Connected(StatusOf(ScanLines(output.value))))
  {
    if output.Failure? {
      return Failure(WpaCliError + output.error);
    }
    var lines := ScanLines(output.value);
    var ssid := "";
    var ipAddress := "";
    var stateCompleted := false;
    var i := 0;
    while i < |lines|
      invariant 0 <= i <= |lines|
      invariant StatusOf(lines[..i]) == WpaStatus(ssid, ipAddress, stateCompleted)
    {
      var line := lines[i];
      assert lines[..i + 1][..i] == lines[..i];
      assert lines[..i + 1][i] == line;
      if HasPrefix(line, "ssid=") {
        ssid := TrimPrefix(line, "ssid=");
      }
      if HasPrefix(line, "ip_address=") {
        ipAddress := TrimPrefix(line, "ip_address=");
      }
      if Contains(line, "wpa_state=COMPLETED") {
        stateCompleted := true;
      }
      i := i + 1;
    }
    assert lines[..i] == lines;
    return Ok(stateCompleted && ssid != "" && ipAddress != "");
  }

  /** A line starting with neither prefix leaves both values alone; a
      "bssid=" line in particular is not an SSID. */
  lemma OtherLineKeepsValues(lines: seq<string>, line: string)
    requires !HasPrefix(line, "ssid=") && !HasPrefix(line, "ip_address=")
    ensures StatusOf(lines + [line]).ssid == StatusOf(lines).ssid
    ensures StatusOf(lines + [line]).ipAddress == StatusOf(lines).ipAddress
  {
    assert (lines + [line])[..|lines|] == lines;
  }

  /** The status loop after one more line. */
  lemma StatusSnoc(lines: seq<string>, line: string)
    ensures StatusOf(lines + [line]) == StatusStep(StatusOf(lines), line)
  {
    assert (lines + [line])[..|lines|] == lines;
  }

  lemma StatusSnocAt(lines: seq<string>, k: nat)
    requires k < |lines|
    ensures StatusOf(lines[..k + 1]) == StatusStep(StatusOf(lines[..k]), lines[k])
  {
    assert lines[..k + 1] == lines[..k] + [lines[k]];
    StatusSnoc(lines[..k], lines[k]);
  }

  /** A line that differs from `prefix` at position `j` leaves the value
      for `prefix` as it was. */
  lemma KeepsValue(lines: seq<string>, line: string, prefix: string, j: nat)
    requires prefix == "ssid=" || prefix == "ip_address="
    requires j < |prefix| && (|line| <= j || line[j] != prefix[j])
    ensures prefix == "ssid=" ==> StatusOf(lines + [line]).ssid == StatusOf(lines).ssid
    ensures prefix == "ip_address=" ==> StatusOf(lines + [line]).ipAddress == StatusOf(lines).ipAddress
  {
    assert (lines + [line])[..|lines|] == lines;
    if |line| >= |prefix| {
      assert line[..|prefix|][j] == line[j];
    }
  }

  /** A line `prefix + v` sets the value for `prefix` to `v`. */
  lemma SetsValue(lines: seq<string>, prefix: string, v: string)
    requires prefix == "ssid=" || prefix == "ip_address="
    ensures prefix == "ssid=" ==> StatusOf(lines + [prefix + v]).ssid == v
    ensures prefix == "ip_address=" ==> StatusOf(lines + [prefix + v]).ipAddress == v
  {
    assert (lines + [prefix + v])[..|lines|] == lines;
    assert (prefix + v)[..|prefix|] == prefix;
    assert (prefix + v)[|prefix|..] == v;
  }

  /** Once a line reports "wpa_state=COMPLETED", every longer prefix of the
      output is complete. */
  lemma CompletedStays(lines: seq<string>, line: string)
    requires StatusOf(lines).stateCompleted || OccursAt(line, "wpa_state=COMPLETED", 0)
    ensures StatusOf(lines + [line]).stateCompleted
  {
    assert (lines + [line])[..|lines|] == lines;
  }

  /** A line shorter than a prefix, or differing from it in its first
      character, does not start with it. */
  lemma NotPrefix(s: string, p: string)
    requires |p| > 0 && (|s| < |p| || s[0] != p[0])
    ensures !HasPrefix(s, p)
  {
    if |s| >= |p| {
      assert s[..|p|][0] == s[0];
    }
  }

  /** The first seven lines of the connected sample set the SSID and no
      IP address. */
  lemma ConnectedSampleHead(bssid: string, freq: string, ssid: string, id: string, mode: string, pairwise: string)
    ensures StatusOf([
        "$ wpa_cli -i wlan0 status", "bssid=" + bssid, "freq=" + freq, "ssid=" + ssid,
        "id=" + id, "mode=" + mode, "pairwise_cipher=" + pairwise]).ssid == ssid
    ensures StatusOf([
        "$ wpa_cli -i wlan0 status", "bssid=" + bssid, "freq=" + freq, "ssid=" + ssid,
        "id=" + id, "mode=" + mode, "pairwise_cipher=" + pairwise]).ipAddress == ""
  {
    var l0, l1, l2, l3, l4, l5, l6 :=
      "$ wpa_cli -i wlan0 status", "bssid=" + bssid, "freq=" + freq, "ssid=" + ssid,
      "id=" + id, "mode=" + mode, "pairwise_cipher=" + pairwise;
    var A: seq<string> := [];
    KeepsValue(A, l0, "ssid=", 0);
    KeepsValue(A, l0, "ip_address=", 0);
    A := A + [l0];
    assert A == [l0];
    KeepsValue(A, l1, "ssid=", 0);
    KeepsValue(A, l1, "ip_address=", 0);
    A := A + [l1];
    assert A == [l0, l1];
    KeepsValue(A, l2, "ssid=", 0);
    KeepsValue(A, l2, "ip_address=", 0);
    A := A + [l2];
    assert A == [l0, l1, l2];
    SetsValue(A, "ssid=", ssid);
    KeepsValue(A, l3, "ip_address=", 0);
    A := A + [l3];
    assert A == [l0, l1, l2, l3];
    KeepsValue(A, l4, "ssid=", 0);
    KeepsValue(A, l4, "ip_address=", 1);
    A := A + [l4];
    assert A == [l0, l1, l2, l3, l4];
    KeepsValue(A, l5, "ssid=", 0);
    KeepsValue(A, l5, "ip_address=", 0);
    A := A + [l5];
    assert A == [l0, l1, l2, l3, l4, l5];
    KeepsValue(A, l6, "ssid=", 0);
    KeepsValue(A, l6, "ip_address=", 0);
    A := A + [l6];
    assert A == [l0, l1, l2, l3, l4, l5, l6];
  }

  /** The first sample status, of a connected device: it is connected iff
      its SSID and IP address are not empty. */
  lemma ConnectedSample(bssid: string, freq: string, ssid: string, id: string, mode: string, pairwise: string, group: string, keyMgmt: string, ip: string, p2p: string, address: string)
    ensures Connected(StatusOf([
      "$ wpa_cli -i wlan0 status", "bssid=" + bssid, "freq=" + freq, "ssid=" + ssid,
      "id=" + id, "mode=" + mode, "pairwise_cipher=" + pairwise, "group_cipher=" + group,
      "key_mgmt=" + keyMgmt, "wpa_state=COMPLETED", "ip_address=" + ip,
      "p2p_device_address=" + p2p, "address=" + address]))
      <==> (ssid != "" && ip != "")
  {
    ConnectedSampleHead(bssid, freq, ssid, id, mode, pairwise);
    var l0, l1, l2, l3, l4, l5, l6, l7, l8, l9, l10, l11, l12 :=
      "$ wpa_cli -i wlan0 status", "bssid=" + bssid, "freq=" + freq, "ssid=" + ssid,
      "id=" + id, "mode=" + mode, "pairwise_cipher=" + pairwise, "group_cipher=" + group,
      "key_mgmt=" + keyMgmt, "wpa_state=COMPLETED", "ip_address=" + ip,
      "p2p_device_address=" + p2p, "address=" + address;
    var A: seq<string> := [l0, l1, l2, l3, l4, l5, l6];
    KeepsValue(A, l7, "ssid=", 0);
    KeepsValue(A, l7, "ip_address=", 0);
    A := A + [l7];
    assert A == [l0, l1, l2, l3, l4, l5, l6, l7];
    KeepsValue(A, l8, "ssid=", 0);
    KeepsValue(A, l8, "ip_address=", 0);
    A := A + [l8];
    assert A == [l0, l1, l2, l3, l4, l5, l6, l7, l8];
    KeepsValue(A, l9, "ssid=", 0);
    KeepsValue(A, l9, "ip_address=", 0);
    assert OccursAt(l9, "wpa_state=COMPLETED", 0);
    CompletedStays(A, l9);
    A := A + [l9];
    assert A == [l0, l1, l2, l3, l4, l5, l6, l7, l8, l9];
    KeepsValue(A, l10, "ssid=", 0);
    SetsValue(A, "ip_address=", ip);
    CompletedStays(A, l10);
    A := A + [l10];
    assert A == [l0, l1, l2, l3, l4, l5, l6, l7, l8, l9, l10];
    KeepsValue(A, l11, "ssid=", 0);
    KeepsValue(A, l11, "ip_address=", 0);
    CompletedStays(A, l11);
    A := A + [l11];
    assert A == [l0, l1, l2, l3, l4, l5, l6, l7, l8, l9, l10, l11];
    KeepsValue(A, l12, "ssid=", 0);
    KeepsValue(A, l12, "ip_address=", 0);
    CompletedStays(A, l12);
    A := A + [l12];
    assert A == [l0, l1, l2, l3, l4, l5, l6, l7, l8, l9, l10, l11, l12];
  }

  /** The second sample status, of a device still scanning: without an
      "ssid=" line it is not connected. */
  lemma ScanningSample(state: string, p2p: string, address: string, uuid: string)
    ensures !Connected(StatusOf([
      "$ wpa_cli -i wlan0 status", "wpa_state=" + state, "p2p_device_address=" + p2p,
      "address=" + address, "uuid=" + uuid]))
  {
    var l0, l1, l2, l3, l4 :=
      "$ wpa_cli -i wlan0 status", "wpa_state=" + state, "p2p_device_address=" + p2p,
      "address=" + address, "uuid=" + uuid;
    var A: seq<string> := [];
    KeepsValue(A, l0, "ssid=", 0);
    A := A + [l0];
    assert A == [l0];
    KeepsValue(A, l1, "ssid=", 0);
    A := A + [l1];
    assert A == [l0, l1];
    KeepsValue(A, l2, "ssid=", 0);
    A := A + [l2];
    assert A == [l0, l1, l2];
    KeepsValue(A, l3, "ssid=", 0);
    A := A + [l3];
    assert A == [l0, l1, l2, l3];
    KeepsValue(A, l4, "ssid=", 0);
    A := A + [l4];
    assert A == [l0, l1, l2, l3, l4];
  }

  /** The first seven lines of the wrong-password sample set no IP
      address. */
  lemma WrongPasswordSampleHead(bssid: string, freq: string, ssid: string, id: string, mode: string, pairwise: string)
    ensures StatusOf([
      "$ wpa_cli -i wlan0 status", "bssid=" + bssid, "freq=" + freq, "ssid=" + ssid,
      "id=" + id, "mode=" + mode, "pairwise_cipher=" + pairwise]).ipAddress == ""
  {
    var l0, l1, l2, l3, l4, l5, l6 :=
      "$ wpa_cli -i wlan0 status", "bssid=" + bssid, "freq=" + freq, "ssid=" + ssid,
      "id=" + id, "mode=" + mode, "pairwise_cipher=" + pairwise;
    var A: seq<string> := [];
    KeepsValue(A, l0, "ip_address=", 0);
    A := A + [l0];
    assert A == [l0];
    KeepsValue(A, l1, "ip_address=", 0);
    A := A + [l1];
    assert A == [l0, l1];
    KeepsValue(A, l2, "ip_address=", 0);
    A := A + [l2];
    assert A == [l0, l1, l2];
    KeepsValue(A, l3, "ip_address=", 0);
    A := A + [l3];
    assert A == [l0, l1, l2, l3];
    KeepsValue(A, l4, "ip_address=", 1);
    A := A + [l4];
    assert A == [l0, l1, l2, l3, l4];
    KeepsValue(A, l5, "ip_address=", 0);
    A := A + [l5];
    assert A == [l0, l1, l2, l3, l4, l5];
    KeepsValue(A, l6, "ip_address=", 0);
    A := A + [l6];
    assert A == [l0, l1, l2, l3, l4, l5, l6];
  }

  /** The third sample status, after a wrong password: complete and with
      an SSID, but without an "ip_address=" line it is not connected. */
  lemma WrongPasswordSample(bssid: string, freq: string, ssid: string, id: string, mode: string, pairwise: string, group: string, keyMgmt: string, p2p: string, address: string, uuid: string)
    ensures !Connected(StatusOf([
      "$ wpa_cli -i wlan0 status", "bssid=" + bssid, "freq=" + freq, "ssid=" + ssid,
      "id=" + id, "mode=" + mode, "pairwise_cipher=" + pairwise, "group_cipher=" + group,
      "key_mgmt=" + keyMgmt, "wpa_state=COMPLETED", "p2p_device_address=" + p2p,
      "address=" + address, "uuid=" + uuid]))
  {
    WrongPasswordSampleHead(bssid, freq, ssid, id, mode, pairwise);
    var l0, l1, l2, l3, l4, l5, l6, l7, l8, l9, l10, l11, l12 :=
      "$ wpa_cli -i wlan0 status", "bssid=" + bssid, "freq=" + freq, "ssid=" + ssid,
      "id=" + id, "mode=" + mode, "pairwise_cipher=" + pairwise, "group_cipher=" + group,
      "key_mgmt=" + keyMgmt, "wpa_state=COMPLETED", "p2p_device_address=" + p2p,
      "address=" + address, "uuid=" + uuid;
    var A: seq<string> := [l0, l1, l2, l3, l4, l5, l6];
    KeepsValue(A, l7, "ip_address=", 0);
    A := A + [l7];
    assert A == [l0, l1, l2, l3, l4, l5, l6, l7];
    KeepsValue(A, l8, "ip_address=", 0);
    A := A + [l8];
    assert A == [l0, l1, l2, l3, l4, l5, l6, l7, l8];
    KeepsValue(A, l9, "ip_address=", 0);
    A := A + [l9];
    assert A == [l0, l1, l2, l3, l4, l5, l6, l7, l8, l9];
    KeepsValue(A, l10, "ip_address=", 0);
    A := A + [l10];
    assert A == [l0, l1, l2, l3, l4, l5, l6, l7, l8, l9, l10];
    KeepsValue(A, l11, "ip_address=", 0);
    A := A + [l11];
    assert A == [l0, l1, l2, l3, l4, l5, l6, l7, l8, l9, l10, l11];
    KeepsValue(A, l12, "ip_address=", 0);
    A := A + [l12];
    assert A == [l0, l1, l2, l3, l4, l5, l6, l7, l8, l9, l10, l11, l12];
  }

  // ---------------------------------------------------------------------
  // waitAndCheckIfConnectedToNetwork

  const Polls := 10

  /** What `checkIsConnectedToNetwork` reports for one `wpa_cli` outcome. */
  function StatusResult(output: Result<string>): Result<bool>
  {
    if output.Failure? then Failure(WpaCliError + output.error)
    else Ok(Connected(StatusOf(ScanLines(output.value))))
  }

  function StatusResults(outputs: seq<Result<string>>): (r: seq<Result<bool>>)
    ensures |r| == |outputs|
    ensures forall i :: 0 <= i < |outputs| ==> r[i] == StatusResult(outputs[i])
  {
    seq(|outputs|, i requires 0 <= i < |outputs| => StatusResult(outputs[i]))
  }

  /** The polls in order: the first error or the first connected poll
      ends them; if every poll misses, the answer is "not connected". */
  function WaitOutcome(results: seq<Result<bool>>): Result<bool>
  {
    if results == [] then Ok(false)
    else if results[0] != Ok(false) then results[0]
    else WaitOutcome(results[1..])
  }

  /** The first poll that does not report "not connected" decides the
      outcome: its error, or "connected". */
  lemma {:induction false} WaitDecidedBy(results: seq<Result<bool>>, i: nat)
    requires i < |results| && results[i] != Ok(false)
    requires forall j :: 0 <= j < i ==> results[j] == Ok(false)
    ensures WaitOutcome(results) == results[i]
    ensures WaitOutcome(results) == Ok(true) || WaitOutcome(results).Failure?
  {
    if i > 0 {
      var tail := results[1..];
      forall j | 0 <= j < i - 1
        ensures tail[j] == Ok(false)
      {
        assert tail[j] == results[j + 1];
      }
      assert results[0] == Ok(false);
      WaitDecidedBy(tail, i - 1);
    } else if results[0].Ok? {
      assert results[0].value;
    }
  }

  /** When every poll reports "not connected", so does the wait. */
  lemma {:induction false} WaitAllMissed(results: seq<Result<bool>>)
    requires forall j :: 0 <= j < |results| ==> results[j] == Ok(false)
    ensures WaitOutcome(results) == Ok(false)
  {
    if results != [] {
      var tail := results[1..];
      forall j | 0 <= j < |tail|
        ensures tail[j] == Ok(false)
      {
        assert tail[j] == results[j + 1];
      }
      WaitAllMissed(tail);
    }
  }

  /** `waitAndCheckIfConnectedToNetwork`, given the `wpa_cli` outcome of
      each of the ten polls it may make. */
  method WaitAndCheckIfConnectedToNetwork(outputs: seq<Result<string>>) returns (r: Result<bool>, polls: nat)
    requires |outputs| == Polls
    ensures r == WaitOutcome(StatusResults(outputs))
    ensures 1 <= polls <= Polls
    ensures forall j :: 0 <= j < polls - 1 ==> StatusResult(outputs[j]) == Ok(false)
    ensures r == StatusResult(outputs[polls - 1]) || (r == Ok(false) && polls == Polls)
    ensures polls < Polls ==> r != Ok(false)
  {
    var i := 0;
    while i < Polls
      invariant 0 <= i <= Polls
      invariant forall j :: 0 <= j < i ==> StatusResult(outputs[j]) == Ok(false)
    {
      var connected := CheckIsConnectedToNetwork(outputs[i]);
      if connected.Failure? || connected.value {
        WaitDecidedBy(StatusResults(outputs), i);
        return connected, i + 1;
      }
      i := i + 1;
    }
    WaitAllMissed(StatusResults(outputs));
    return Ok(false), Polls;
  }

  // ---------------------------------------------------------------------
  // setDHCPMode

  const Wifi := "WIFI"
  const Hotspot := "HOTSPOT"
  const RouterIp := "192.168.4.1"

  const DhcpConfigDefault := [
    "hostname", "clientid", "persistent", "option rapid_commit",
    "option domain_name_servers, domain_name, domain_search, host_name",
    "option classless_static_routes", "option interface_mtu",
    "require dhcp_server_identifier", "slaac private", "interface usb0", "metric 300",
    "interface wlan0", "metric 200"]

  const DhcpConfigHotspotExtraLines := [
    "interface wlan0", "static ip_address=" + RouterIp + "/24", "nohook wpa_supplicant"]

  /** The DHCP client configuration for a mode. */
  function Config(mode: string): (r: seq<string>)
    ensures mode == Wifi ==> |r| == 13 && r[12] == "metric 200"
    ensures mode == Hotspot ==>
      |r| == 16 && r[..13] == DhcpConfigDefault && r[13..] == DhcpConfigHotspotExtraLines
    ensures mode != Wifi && mode != Hotspot ==> r == []
  {
    if mode == Wifi then DhcpConfigDefault
    else if mode == Hotspot then DhcpConfigDefault + DhcpConfigHotspotExtraLines
    else []
  }

  /** The files after `setDHCPMode`: unchanged when the configuration is
      up to date, otherwise with it rewritten. */
  function DhcpFiles(files: map<string, string>, mode: string): map<string, string>
  {
    if UpToDate(files, DhcpConfPath, Config(mode)) then files
    else files[DhcpConfPath := Rendered(Config(mode))]
  }

  /** The service command `setDHCPMode` runs. */
  function DhcpCommand(files: map<string, string>, mode: string): string
  {
    if UpToDate(files, DhcpConfPath, Config(mode)) then StartDhcpcd else RestartDhcpcd
  }

  /** `setDHCPMode`. */
  method SetDHCPMode(host: Host, mode: string)
    modifies host
    ensures host.files == DhcpFiles(old(host.files), mode)
    ensures host.commands == old(host.commands) + [DhcpCommand(old(host.files), mode)]
  {
    var config := Config(mode);
    if UpToDate(host.files, DhcpConfPath, config) {
      host.Run(StartDhcpcd);
      return;
    }
    host.WriteFile(DhcpConfPath, config);
    host.Run(RestartDhcpcd);
  }

  /** `setDHCPMode` touches no file but the DHCP client configuration. */
  lemma DhcpFilesOnlyConf(files: map<string, string>, mode: string, path: string)
    requires path != DhcpConfPath
    ensures path in DhcpFiles(files, mode) <==> path in files
    ensures path in files ==> DhcpFiles(files, mode)[path] == files[path]
  {
  }

  /** For the two modes the daemon uses, a second `setDHCPMode` finds the
      configuration up to date and only starts dhcpcd; for any other mode
      the empty configuration is written as an empty file, which never
      equals the lone newline the change test expects, so once it has been
      written every call rewrites it and restarts dhcpcd. */
  method SetDHCPModeTwice(files: map<string, string>, mode: string) returns (first: string, second: string)
    ensures first == (if UpToDate(files, DhcpConfPath, Config(mode)) then StartDhcpcd else RestartDhcpcd)
    ensures mode == Wifi || mode == Hotspot ==> second == StartDhcpcd
    ensures mode != Wifi && mode != Hotspot && first == RestartDhcpcd ==> second == RestartDhcpcd
  {
    var host := new Host(files);
    SetDHCPMode(host, mode);
    SetDHCPMode(host, mode);
    first, second := host.commands[0], host.commands[1];
    if mode == Wifi || mode == Hotspot {
      WrittenIsUpToDate(files, DhcpConfPath, Config(mode));
    } else {
      EmptyRenderedDiffers();
    }
  }

  // ---------------------------------------------------------------------
  // initialiseHotspot

  const HostapdConfPath := "/etc/hostapd/hostapd.conf"
  const DnsmasqConfPath := "/etc/dnsmasq.conf"
  const RestartDnsmasq := "systemctl restart dnsmasq"
  const RestartHostapd := "systemctl restart hostapd"
  const HotspotSsid := "bushnet"
  const AlreadyConnected := "already connected to a network"

  /** `createAPConfig`'s lines for an access point named `name`. */
  function ApConfig(name: string): seq<string>
  {
    ["country_code=NZ", "interface=wlan0", "ssid=" + name, "hw_mode=g", "channel=7",
     "macaddr_acl=0", "ignore_broadcast_ssid=0", "wpa=2", "wpa_passphrase=feathers",
     "wpa_key_mgmt=WPA-PSK", "wpa_pairwise=TKIP", "rsn_pairwise=CCMP"]
  }

  /** `createDNSConfig`'s lines for the address range `ipRange`. */
  function DnsConfig(ipRange: string): seq<string>
  {
    ["interface=wlan0", "dhcp-range=" + ipRange + ",12h", "domain=wlan"]
  }

  const HotspotRange := "192.168.4.2,192.168.4.20"

  /** The access point and DNS configurations written. */
  function ApDnsFiles(files: map<string, string>): map<string, string>
  {
    files[HostapdConfPath := Rendered(ApConfig(HotspotSsid))]
         [DnsmasqConfPath := Rendered(DnsConfig(HotspotRange))]
  }

  /** The second half of `initialiseHotspot`, once no network was found:
      the access point and DNS configurations, the hotspot DHCP mode, then
      the DNS server and the access point. */
  method StartHotspot(host: Host)
    modifies host
    ensures host.files == DhcpFiles(ApDnsFiles(old(host.files)), Hotspot)
    ensures host.commands == old(host.commands)
      + [DhcpCommand(ApDnsFiles(old(host.files)), Hotspot), RestartDnsmasq, RestartHostapd]
  {
    host.WriteFile(HostapdConfPath, ApConfig(HotspotSsid));
    host.WriteFile(DnsmasqConfPath, DnsConfig(HotspotRange));
    SetDHCPMode(host, Hotspot);
    host.Run(RestartDnsmasq);
    host.Run(RestartHostapd);
  }

  /** `initialiseHotspot`, given the `wpa_cli` outcome of each poll; the
      result is the error returned, if any. The access point and DNS
      configurations are written only when no network was found. */
  method InitialiseHotspot(host: Host, outputs: seq<Result<string>>) returns (err: Option<string>)
    requires |outputs| == Polls
    modifies host
    ensures var wifi := DhcpFiles(old(host.files), Wifi);
      var start := old(host.commands) + [DhcpCommand(old(host.files), Wifi)];
      match WaitOutcome(StatusResults(outputs))
      case Failure(e) => err == Some(e) && host.files == wifi && host.commands == start
      case Ok(true) => err == Some(AlreadyConnected) && host.files == wifi && host.commands == start
      case Ok(false) =>
        err == None && host.files == DhcpFiles(ApDnsFiles(wifi), Hotspot)
        && host.commands == start + [DhcpCommand(ApDnsFiles(wifi), Hotspot), RestartDnsmasq, RestartHostapd]
  {
    SetDHCPMode(host, Wifi);
    var connected, _ := WaitAndCheckIfConnectedToNetwork(outputs);
    if connected.Failure? {
      return Some(connected.error);
    }
    if connected.value {
      return Some(AlreadyConnected);
    }
    StartHotspot(host);
    return None;
  }

  /** When the first poll already finds a network, `initialiseHotspot`
      fails with "already connected to a network" and leaves the access
      point and DNS configurations as they were. */
  method HotspotRefusedWhenConnected(files: map<string, string>, outputs: seq<Result<string>>)
    returns (err: Option<string>, after: map<string, string>)
    requires |outputs| == Polls && StatusResult(outputs[0]) == Ok(true)
    ensures err == Some(AlreadyConnected)
    ensures forall p :: p == HostapdConfPath || p == DnsmasqConfPath ==>
      (p in after <==> p in files) && (p in files ==> after[p] == files[p])
  {
    var host := new Host(files);
    WaitDecidedBy(StatusResults(outputs), 0);
    err := InitialiseHotspot(host, outputs);
    after := host.files;
    DhcpFilesOnlyConf(files, Wifi, HostapdConfPath);
    DhcpFilesOnlyConf(files, Wifi, DnsmasqConfPath);
  }
}
