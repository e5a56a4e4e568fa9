/**
 * The `iwlist wlan0 scan` reader of the management API (api/api.go,
 * `parseWiFiScanOutput`): every "Cell" line opens a new network, and the
 * lines after it fill in its SSID, quality, signal level and security.
 *
 * The two regular expressions for quality and signal level are inputs
 * (`None` when they do not match). Go panics when a submatch or a quote is
 * missing and when a line fills in a network before the first "Cell"
 * line, which writes to a nil map; those outcomes are `Panics`.
 */
module WifiScan {
  import opened Wrappers
  import opened Text

  type Network = map<string, string>

  /** The networks finished so far and the one being filled in. */
  datatype ScanState = ScanState(networks: seq<Network>, current: Option<Network>)

  /** Reading a Go map: a missing key reads as "". */
  function Get(m: Network, k: string): string
  {
    if k in m then m[k] else ""
  }

  /** Sets a key of the current network; a nil map panics. */
  function SetCurrent(st: ScanState, k: string, v: string): Panicking<ScanState>
  {
    if st.current.None? then Panics
    else Returns(ScanState(st.networks, Some(st.current.value[k := v])))
  }

  /** The security value a line sets, if it is one of the security lines.
      "IE: Unknown" counts only while no security value is set. */
  function SecurityOf(st: ScanState, line: string): Option<string>
  {
    if Contains(line, "Encryption key:on") then Some("On")
    else if Contains(line, "IE: IEEE 802.11i/WPA2") then Some("WPA2")
    else if Contains(line, "IE: WPA Version 1") then Some("WPA")
    else if Contains(line, "IE: Unknown")
      && Get(if st.current.Some? then st.current.value else map[], "Security") == "" then Some("Unknown")
    else None
  }

  /** One line of the loop. */
  function ScanStep(st: ScanState, line: string, qualityOf: string -> Option<string>,
                    signalOf: string -> Option<string>): Panicking<ScanState>
  {
    if Contains(line, "Cell") then
      Returns(ScanState(st.networks + (if st.current.Some? then [st.current.value] else []), Some(map[])))
    else if Contains(line, "ESSID:") then
      var parts := Split(line, '"');
      if |parts| < 2 then Panics else SetCurrent(st, "SSID", parts[1])
    else if Contains(line, "Quality=") then
      var quality := qualityOf(line);
      var level := signalOf(line);
      if quality.None? || level.None? || st.current.None? then Panics
      else Returns(ScanState(st.networks,
        Some(st.current.value["Quality" := quality.value]["Signal Level" := level.value])))
    else
      var security := SecurityOf(st, line);
      if security.Some? then SetCurrent(st, "Security", security.value) else Returns(st)
  }

  /** The state after the given lines, or a panic. */
  function ScanFold(lines: seq<string>, qualityOf: string -> Option<string>,
                    signalOf: string -> Option<string>): Panicking<ScanState>
  {
    if lines == [] then Returns(ScanState([], None))
    else
      var prev := ScanFold(lines[..|lines| - 1], qualityOf, signalOf);
      if prev.Panics? then Panics
      else ScanStep(prev.value, lines[|lines| - 1], qualityOf, signalOf)
  }

  /** The networks of the whole output: the pending one is appended. */
  function Finish(st: ScanState): seq<Network>
  {
    st.networks + (if st.current.Some? then [st.current.value] else [])
  }

  /** `parseWiFiScanOutput`. */
  method ParseWiFiScanOutput(output: string, qualityOf: string -> Option<string>,
                             signalOf: string -> Option<string>) returns (r: Panicking<seq<Network>>)
    ensures ScanFold(Split(output, '\n'), qualityOf, signalOf).Panics? ==> r.Panics?
    ensures ScanFold(Split(output, '\n'), qualityOf, signalOf).Returns? ==>
      r == Returns(Finish(ScanFold(Split(output, '\n'), qualityOf, signalOf).value))
  {
    var lines := Split(output, '\n');
    var networks: seq<Network> := [];
    var currentNetwork: Option<Network> := None;
    var i := 0;
    while i < |lines|
      invariant 0 <= i <= |lines|
      invariant ScanFold(lines[..i], qualityOf, signalOf) == Returns(ScanState(networks, currentNetwork))
    {
      var line := lines[i];
      assert lines[..i + 1][..i] == lines[..i];
      var st := ScanState(networks, currentNetwork);
      assert lines[..i + 1][i] == line;
      assert ScanFold(lines[..i + 1], qualityOf, signalOf) == ScanStep(st, line, qualityOf, signalOf);
      if Contains(line, "Cell") {
        assert networks + [] == networks;
        if currentNetwork.Some? {
          networks := networks + [currentNetwork.value];
        }
        currentNetwork := Some(map[]);
      } else if Contains(line, "ESSID:") {
        var parts := Split(line, '"');
        if |parts| < 2 || currentNetwork.None? {
          ScanPanicStays(lines, i + 1, qualityOf, signalOf);
          return Panics;
        }
        currentNetwork := Some(currentNetwork.value["SSID" := parts[1]]);
      } else if Contains(line, "Quality=") {
        var quality := qualityOf(line);
        var level := signalOf(line);
        if quality.None? || level.None? || currentNetwork.None? {
          ScanPanicStays(lines, i + 1, qualityOf, signalOf);
          return Panics;
        }
        currentNetwork := Some(currentNetwork.value["Quality" := quality.value]["Signal Level" := level.value]);
      } else {
        var security := SecurityOf(st, line);
        if security.Some? {
          if currentNetwork.None? {
            ScanPanicStays(lines, i + 1, qualityOf, signalOf);
            return Panics;
          }
          currentNetwork := Some(currentNetwork.value["Security" := security.value]);
        }
      }
      i := i + 1;
    }
    assert lines[..i] == lines;
    r := Returns(networks + (if currentNetwork.Some? then [currentNetwork.value] else []));
  }

  /** Once a prefix panics, the whole output does. */
  lemma {:induction false} ScanPanicStays(lines: seq<string>, n: nat, qualityOf: string -> Option<string>,
                                          signalOf: string -> Option<string>)
    requires n <= |lines| && ScanFold(lines[..n], qualityOf, signalOf).Panics?
    ensures ScanFold(lines, qualityOf, signalOf).Panics?
    decreases |lines| - n
  {
    if n < |lines| {
      assert lines[..n + 1][..n] == lines[..n];
      ScanPanicStays(lines, n + 1, qualityOf, signalOf);
    } else {
      assert lines[..n] == lines;
    }
  }

  /** The number of lines that open a network. */
  function CellCount(lines: seq<string>): nat
  {
    if lines == [] then 0
    else CellCount(lines[..|lines| - 1]) + (if Contains(lines[|lines| - 1], "Cell") then 1 else 0)
  }

  /** There is one network per "Cell" line: the finished ones plus the
      pending one, which exists from the first "Cell" line on. */
  lemma {:induction false} ScanCount(lines: seq<string>, qualityOf: string -> Option<string>,
                                     signalOf: string -> Option<string>)
    requires ScanFold(lines, qualityOf, signalOf).Returns?
    ensures var st := ScanFold(lines, qualityOf, signalOf).value;
      && |Finish(st)| == CellCount(lines)
      && (st.current.None? <==> CellCount(lines) == 0)
  {
    if lines != [] {
      ScanCount(lines[..|lines| - 1], qualityOf, signalOf);
    }
  }

  /** The keys a network can have. */
  predicate KnownKeys(m: Network)
  {
    forall k :: k in m ==> k == "SSID" || k == "Quality" || k == "Signal Level" || k == "Security"
  }

  predicate AllKnown(st: ScanState)
  {
    && (forall j :: 0 <= j < |st.networks| ==> KnownKeys(st.networks[j]))
    && (st.current.Some? ==> KnownKeys(st.current.value))
  }

  /** Every network reported has only the four known keys. */
  lemma {:induction false} ScanKeys(lines: seq<string>, qualityOf: string -> Option<string>,
                                    signalOf: string -> Option<string>)
    requires ScanFold(lines, qualityOf, signalOf).Returns?
    ensures AllKnown(ScanFold(lines, qualityOf, signalOf).value)
    ensures var nets := Finish(ScanFold(lines, qualityOf, signalOf).value);
      forall j :: 0 <= j < |nets| ==> KnownKeys(nets[j])
  {
    if lines != [] {
      ScanKeys(lines[..|lines| - 1], qualityOf, signalOf);
    }
  }

  /** A security value already set is never replaced by "Unknown". */
  lemma UnknownKeepsSecurity(st: ScanState, line: string, qualityOf: string -> Option<string>,
                             signalOf: string -> Option<string>)
    requires st.current.Some? && Get(st.current.value, "Security") != ""
    requires ScanStep(st, line, qualityOf, signalOf).Returns?
    ensures var next := ScanStep(st, line, qualityOf, signalOf).value;
      next.current.Some? && Get(next.current.value, "Security") == "Unknown" ==>
        Contains(line, "Cell") || Get(st.current.value, "Security") == "Unknown"
  {
  }

  /** A line that fills in a network before any "Cell" line panics. */
  lemma AttributeBeforeCell(line: string, qualityOf: string -> Option<string>,
                            signalOf: string -> Option<string>)
    requires !Contains(line, "Cell")
    requires Contains(line, "ESSID:") || Contains(line, "Quality=") || Contains(line, "Encryption key:on")
    ensures ScanFold([line], qualityOf, signalOf).Panics?
  {
    assert [line][..0] == [];
  }
}
