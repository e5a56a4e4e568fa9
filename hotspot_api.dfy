/**
 * The hotspot helpers of the management API (api/hotspot.go): rewriting
 * the DHCP client configuration only when it changed, starting or
 * restarting dhcpcd accordingly, asking `iwgetid` for the current network
 * (with retries) and reading MAC addresses from `iw ... station dump`.
 *
 * The host's files and service commands are a `HostSystem.Host`; the
 * outputs of `iwgetid` and `iw` are inputs, with `Failure` for a command
 * that fails. The five-second pauses between retries are not modelled.
 */
module HotspotApi {
  import opened Wrappers
  import opened Text
  import opened HostSystem

  const RouterIp := "192.168.4.1"

  /** The DHCP client configuration for joining networks. */
  const DhcpConfigDefault: seq<string> := [
    "hostname",
    "clientid",
    "persistent",
    "option rapid_commit",
    "option domain_name_servers, domain_name, domain_search, host_name",
    "option classless_static_routes",
    "option interface_mtu",
    "require dhcp_server_identifier",
    "slaac private",
    "interface wlan0",
    "metric 200"
  ]

  /** The line added for hosting the hotspot. */
  const DhcpConfigLines: seq<string> := ["static ip_address=" + RouterIp + "/24"]

  const DaemonReload := "systemctl daemon-reload"

  // ---------------------------------------------------------------------
  // writeLines, createDHCPConfig, startDHCP, RestartDHCP

  /** `writeLines`: reports a change and rewrites the file unless it is up
      to date, in which case nothing is written. */
  method WriteLines(host: Host, path: string, lines: seq<string>) returns (changed: bool)
    modifies host
    ensures changed <==> !UpToDate(old(host.files), path, lines)
    ensures changed ==> host.files == old(host.files)[path := Rendered(lines)]
    ensures !changed ==> host.files == old(host.files)
    ensures host.commands == old(host.commands)
  {
    if path in host.files {
      var currentContent := host.files[path];
      var newContent := Join(lines, "\n") + "\n";
      if currentContent == newContent {
        return false;
      }
    }
    host.WriteFile(path, lines);
    return true;
  }

  /** The hotspot's DHCP configuration: the default lines, then the static
      address line. */
  function DhcpConfig(): seq<string>
  {
    DhcpConfigDefault + DhcpConfigLines
  }

  /** `createDHCPConfig`. */
  method CreateDHCPConfig(host: Host) returns (changed: bool)
    modifies host
    ensures changed <==> !UpToDate(old(host.files), DhcpConfPath, DhcpConfig())
    ensures changed ==> host.files == old(host.files)[DhcpConfPath := Rendered(DhcpConfig())]
    ensures !changed ==> host.files == old(host.files)
    ensures host.commands == old(host.commands)
  {
    changed := WriteLines(host, DhcpConfPath, DhcpConfigDefault + DhcpConfigLines);
  }

  /** `startDHCP`: dhcpcd is restarted when its configuration changed and
      merely started otherwise. */
  method StartDHCP(host: Host)
    modifies host
    ensures UpToDate(old(host.files), DhcpConfPath, DhcpConfig()) ==>
      host.files == old(host.files) && host.commands == old(host.commands) + [StartDhcpcd]
    ensures !UpToDate(old(host.files), DhcpConfPath, DhcpConfig()) ==>
      && host.files == old(host.files)[DhcpConfPath := Rendered(DhcpConfig())]
      && host.commands == old(host.commands) + [RestartDhcpcd]
  {
    var configModified := CreateDHCPConfig(host);
    if configModified {
      host.Run(RestartDhcpcd);
    } else {
      host.Run(StartDhcpcd);
    }
  }

  /** `RestartDHCP`: writes the default configuration, reloads the unit
      files, then restarts dhcpcd when the configuration changed and starts
      it otherwise. */
  method RestartDHCP(host: Host)
    modifies host
    ensures UpToDate(old(host.files), DhcpConfPath, DhcpConfigDefault) ==>
      && host.files == old(host.files)
      && host.commands == old(host.commands) + [DaemonReload, StartDhcpcd]
    ensures !UpToDate(old(host.files), DhcpConfPath, DhcpConfigDefault) ==>
      && host.files == old(host.files)[DhcpConfPath := Rendered(DhcpConfigDefault)]
      && host.commands == old(host.commands) + [DaemonReload, RestartDhcpcd]
  {
    var configModified := WriteLines(host, DhcpConfPath, DhcpConfigDefault);
    host.Run(DaemonReload);
    if configModified {
      host.Run(RestartDhcpcd);
    } else {
      host.Run(StartDhcpcd);
    }
  }

  /** Starting DHCP twice: the first start restarts dhcpcd exactly when the
      file was not up to date, and the second only starts it. */
  method StartDHCPTwice(files: map<string, string>) returns (first: string, second: string)
    ensures first == RestartDhcpcd <==> !UpToDate(files, DhcpConfPath, DhcpConfig())
    ensures first == RestartDhcpcd || first == StartDhcpcd
    ensures second == StartDhcpcd
  {
    var host := new Host(files);
    StartDHCP(host);
    first := host.commands[0];
    WrittenIsUpToDate(files, DhcpConfPath, DhcpConfig());
    StartDHCP(host);
    second := host.commands[1];
  }

  /** Switching to the default configuration and then to the hotspot one
      rewrites the file each time, since the two differ. */
  lemma DefaultAndHotspotDiffer()
    ensures DhcpConfig() != DhcpConfigDefault
  {
    assert |DhcpConfig()| != |DhcpConfigDefault|;
  }

  // ---------------------------------------------------------------------
  // checkIsConnectedToNetwork(WithRetries)

  const NotConnected := "not connected to a network"
  const MaxAttempts := 5

  /** `checkIsConnectedToNetwork` on the outcome of `iwgetid wlan0 -r`:
      the trimmed output is the network's name, and an empty name is an
      error. */
  function CheckIsConnected(output: Result<string>): (r: Result<string>)
    ensures output.Failure? ==> r == output
    ensures output.Ok? ==> (r.Ok? <==> TrimSpace(output.value) != "")
    ensures output.Ok? && r.Failure? ==> r.error == NotConnected
  {
    if output.Failure? then Failure(output.error)
    else
      var network := TrimSpace(output.value);
      if network == "" then Failure(NotConnected) else Ok(network)
  }

  /** The network's name has no white space at either end. */
  lemma NetworkNameTrimmed(output: Result<string>)
    requires CheckIsConnected(output).Ok?
    ensures var name := CheckIsConnected(output).value;
      name != "" && !IsSpace(name[0]) && !IsSpace(name[|name| - 1])
  {
  }

  /** The check applied to each command outcome. */
  function Checks(attempts: seq<Result<string>>): (rs: seq<Result<string>>)
    ensures |rs| == |attempts|
    ensures forall j :: 0 <= j < |attempts| ==> rs[j] == CheckIsConnected(attempts[j])
  {
    seq(|attempts|, j requires 0 <= j < |attempts| => CheckIsConnected(attempts[j]))
  }

  /** The outcome of retrying over the checks' results: the first network
      found, or the last attempt's error. */
  function RetryOutcome(results: seq<Result<string>>): Result<string>
    requires |results| >= 1
  {
    if results[0].Ok? || |results| == 1 then results[0] else RetryOutcome(results[1..])
  }

  /** When an attempt finds a network and none before it does, the
      outcome is that network. */
  lemma {:induction false} RetryFindsFirst(results: seq<Result<string>>, i: nat)
    requires i < |results| && results[i].Ok?
    requires forall j :: 0 <= j < i ==> results[j].Failure?
    ensures RetryOutcome(results) == results[i]
  {
    if i > 0 {
      var tail := results[1..];
      assert forall j :: 0 <= j < i - 1 ==> tail[j] == results[j + 1];
      RetryFindsFirst(tail, i - 1);
    }
  }

  /** When no attempt finds a network, the error is the last attempt's. */
  lemma {:induction false} RetryExhausted(results: seq<Result<string>>)
    requires |results| >= 1
    requires forall j :: 0 <= j < |results| ==> results[j].Failure?
    ensures RetryOutcome(results) == results[|results| - 1]
    ensures RetryOutcome(results).Failure?
  {
    if |results| > 1 {
      var tail := results[1..];
      assert forall j :: 0 <= j < |tail| ==> tail[j] == results[j + 1];
      RetryExhausted(tail);
    }
  }

  /** The outcome is the result of the call that stops the retries: the
      first that finds a network, or the last. */
  lemma RetryDecided(results: seq<Result<string>>, calls: nat)
    requires 1 <= calls <= |results|
    requires forall j :: 0 <= j < calls - 1 ==> results[j].Failure?
    requires results[calls - 1].Ok? || calls == |results|
    ensures RetryOutcome(results) == results[calls - 1]
  {
    if results[calls - 1].Ok? {
      RetryFindsFirst(results, calls - 1);
    } else {
      RetryExhausted(results);
    }
  }

  /** `checkIsConnectedToNetworkWithRetries`, given the outcome of each of
      the five `iwgetid` calls it may make: the calls stop at the first
      that finds a network, and the result is that call's. */
  method CheckIsConnectedWithRetries(attempts: seq<Result<string>>) returns (r: Result<string>, calls: nat)
    requires |attempts| == MaxAttempts
    ensures r == RetryOutcome(Checks(attempts))
    ensures 1 <= calls <= MaxAttempts && r == CheckIsConnected(attempts[calls - 1])
    ensures calls < MaxAttempts ==> r.Ok?
    ensures forall j :: 0 <= j < calls - 1 ==> Checks(attempts)[j].Failure?
  {
    ghost var results := Checks(attempts);
    r := Ok("");
    var i := 0;
    var found := false;
    while i < MaxAttempts && !found
      invariant 0 <= i <= MaxAttempts
      invariant found ==> i >= 1 && results[i - 1].Ok?
      invariant forall j :: 0 <= j < (if found then i - 1 else i) ==> results[j].Failure?
      invariant i > 0 ==> r == results[i - 1]
    {
      r := CheckIsConnected(attempts[i]);
      assert r == results[i];
      found := r.Ok?;
      i := i + 1;
    }
    calls := i;
    RetryDecided(results, calls);
  }

  // ---------------------------------------------------------------------
  // parseMACAddresses

  /** The MAC address a line of `iw dev wlan0 station dump` names: the
      second field of a line starting with "Station". */
  function MacOf(line: string): Option<string>
  {
    if HasPrefix(line, "Station") && |Fields(line)| > 1 then Some(Fields(line)[1]) else None
  }

  /** The MAC addresses of the lines, in order. */
  function MacsOf(lines: seq<string>): seq<string>
  {
    if lines == [] then []
    else
      var m := MacOf(lines[|lines| - 1]);
      MacsOf(lines[..|lines| - 1]) + (if m.Some? then [m.value] else [])
  }

  /** `parseMACAddresses`. */
  method ParseMACAddresses(output: string) returns (macAddresses: seq<string>)
    ensures macAddresses == MacsOf(ScanLines(output))
  {
    var lines := ScanLines(output);
    macAddresses := [];
    var i := 0;
    while i < |lines|
      invariant 0 <= i <= |lines|
      invariant macAddresses == MacsOf(lines[..i])
    {
      var line := lines[i];
      assert lines[..i + 1][..i] == lines[..i];
      assert lines[..i + 1][i] == line;
      if HasPrefix(line, "Station") {
        var fields := Fields(line);
        if |fields| > 1 {
          macAddresses := macAddresses + [fields[1]];
        }
      }
      i := i + 1;
    }
    assert lines[..i] == lines;
  }

  /** The addresses of two runs of lines are those of each, in order. */
  lemma {:induction false} MacsAppend(a: seq<string>, b: seq<string>)
    ensures MacsOf(a + b) == MacsOf(a) + MacsOf(b)
  {
    if b == [] {
      assert a + b == a;
    } else {
      MacsAppend(a, b[..|b| - 1]);
      assert (a + b)[..|a + b| - 1] == a + b[..|b| - 1];
      assert (a + b)[|a + b| - 1] == b[|b| - 1];
    }
  }

  /** Every address is the one some line names (a "Station" line with at
      least two fields, by `MacOf`) and holds no white space; there is at
      most one per line. */
  lemma {:induction false} MacsFromStations(lines: seq<string>)
    ensures |MacsOf(lines)| <= |lines|
    ensures forall k :: 0 <= k < |MacsOf(lines)| ==>
      exists i :: 0 <= i < |lines| && MacOf(lines[i]) == Some(MacsOf(lines)[k])
    ensures forall k :: 0 <= k < |MacsOf(lines)| ==>
      MacsOf(lines)[k] != "" && forall c :: c in MacsOf(lines)[k] ==> !IsSpace(c)
  {
    if lines != [] {
      var init := lines[..|lines| - 1];
      MacsFromStations(init);
      var r := MacsOf(lines);
      forall k | 0 <= k < |r|
        ensures exists i :: 0 <= i < |lines| && MacOf(lines[i]) == Some(r[k])
      {
        if k < |MacsOf(init)| {
          assert r[k] == MacsOf(init)[k];
          var i :| 0 <= i < |init| && MacOf(init[i]) == Some(MacsOf(init)[k]);
          assert lines[i] == init[i];
        } else {
          assert MacOf(lines[|lines| - 1]) == Some(r[k]);
        }
      }
    }
  }

  /** Conversely, every line that names an address contributes it. */
  lemma {:induction false} StationsGiveMacs(lines: seq<string>, i: nat)
    requires i < |lines| && MacOf(lines[i]).Some?
    ensures MacOf(lines[i]).value in MacsOf(lines)
  {
    if i < |lines| - 1 {
      StationsGiveMacs(lines[..|lines| - 1], i);
    }
  }

  /** Lines that do not start with "Station" add no address. */
  lemma OtherLinesIgnored(lines: seq<string>, line: string)
    requires !HasPrefix(line, "Station")
    ensures MacsOf(lines + [line]) == MacsOf(lines)
  {
    assert (lines + [line])[..|lines|] == lines;
  }
}
