/**
 * Text handling of the management API (api/api.go): config section names
 * in camel case, the last battery reading, the `wpa_cli list_networks`
 * table and the device type taken from the salt minion id.
 *
 * Command output and file contents are inputs; a failure to run the
 * command or read the file is not part of this model.
 */
module ManagementApi {
  import opened Wrappers
  import opened Text

  // ---------------------------------------------------------------------
  // toCamelCase

  predicate IsWordBreak(c: char)
  {
    c == '-' || c == '_'
  }

  /** `cases.Title` on one word, for ASCII text: the same letters, the
      first in upper case and the others in lower case. */
  function Title(w: string): (r: string)
    ensures |r| == |w|
    ensures forall i :: 0 <= i < |w| ==> LowerChar(r[i]) == LowerChar(w[i])
    ensures w != [] ==> !('a' <= r[0] <= 'z')
    ensures forall i :: 1 <= i < |r| ==> !('A' <= r[i] <= 'Z')
  {
    if w == "" then "" else [UpperChar(w[0])] + ToLower(w[1..])
  }

  /** Title-casing a title-cased word changes nothing. */
  lemma TitleIdempotent(w: string)
    ensures Title(Title(w)) == Title(w)
  {
  }

  /** The words of a name with every word but the first title-cased. */
  function CamelWords(words: seq<string>): (r: seq<string>)
    ensures |r| == |words|
  {
    seq(|words|, j requires 0 <= j < |words| => if j == 0 then words[0] else Title(words[j]))
  }

  /** The camel-case name: the words between dashes and underscores, the
      first kept as it is, the rest title-cased, joined without separator. */
  function CamelCase(s: string): string
  {
    Join(CamelWords(FieldsFunc(s, IsWordBreak)), "")
  }

  /** `toCamelCase`: title-cases `words[1:]` in place and joins them. */
  method ToCamelCase(s: string) returns (r: string)
    ensures r == CamelCase(s)
  {
    var words := FieldsFunc(s, IsWordBreak);
    ghost var original := words;
    var i := 1;
    while i < |words|
      invariant 1 <= i && |words| == |original|
      invariant forall j :: 0 <= j < |words| ==>
        words[j] == if 1 <= j < i then Title(original[j]) else original[j]
    {
      words := words[i := Title(words[i])];
      i := i + 1;
    }
    assert words == CamelWords(original);
    r := Join(words, "");
  }

  lemma TitleKeepsBreaks(w: string, x: char)
    requires IsWordBreak(x) && x !in w
    ensures x !in Title(w)
  {
    if w != "" {
      assert UpperChar(w[0]) != x;
      forall i | 0 <= i < |w| - 1
        ensures ToLower(w[1..])[i] != x
      {
        assert w[1..][i] in w;
      }
    }
  }

  /** A camel-case name holds no dash and no underscore. */
  lemma CamelCaseUnbroken(s: string)
    ensures '-' !in CamelCase(s) && '_' !in CamelCase(s)
  {
    var words := FieldsFunc(s, IsWordBreak);
    var camel := CamelWords(words);
    forall k | 0 <= k < |camel|
      ensures '-' !in camel[k] && '_' !in camel[k]
    {
      if k > 0 {
        TitleKeepsBreaks(words[k], '-');
        TitleKeepsBreaks(words[k], '_');
      }
    }
    JoinWithout(camel, "", '-');
    JoinWithout(camel, "", '_');
  }

  /** Converting a camel-case name again changes nothing. */
  lemma CamelCaseIdempotent(s: string)
    ensures CamelCase(CamelCase(s)) == CamelCase(s)
  {
    var c := CamelCase(s);
    CamelCaseUnbroken(s);
    FieldsFuncPlain(c, IsWordBreak);
    if c != "" {
      assert CamelWords([c]) == [c];
    }
  }

  // ---------------------------------------------------------------------
  // getLastBatteryReading

  datatype BatteryReading = BatteryReading(time: string, mainBattery: string, rtcBattery: string)

  const BatteryFormatError := "unexpected format in battery-readings.csv"

  /** The scanner loop: the last line of the file, or "" when it has none. */
  method LastLine(content: string) returns (lastLine: string)
    ensures ScanLines(content) == [] ==> lastLine == ""
    ensures ScanLines(content) != [] ==> lastLine == ScanLines(content)[|ScanLines(content)| - 1]
  {
    var lines := ScanLines(content);
    lastLine := "";
    var i := 0;
    while i < |lines|
      invariant 0 <= i <= |lines|
      invariant i > 0 ==> lastLine == lines[i - 1]
      invariant i == 0 ==> lastLine == ""
    {
      lastLine := lines[i];
      i := i + 1;
    }
  }

  /** The split of the last line: exactly three comma fields, in the order
      time, main battery, RTC battery. */
  function ParseBatteryLine(line: string): (r: Result<BatteryReading>)
    ensures r.Ok? <==> |Split(line, ',')| == 3
    ensures r.Failure? ==> r.error == BatteryFormatError
  {
    var parts := Split(line, ',');
    if |parts| != 3 then Failure(BatteryFormatError)
    else Ok(BatteryReading(parts[0], parts[1], parts[2]))
  }

  /** An accepted line is its three fields joined by commas, and none of
      them holds a comma: the reading gives the line back. */
  lemma BatteryLineRoundTrip(line: string)
    requires ParseBatteryLine(line).Ok?
    ensures var b := ParseBatteryLine(line).value;
      && b.time + "," + b.mainBattery + "," + b.rtcBattery == line
      && ',' !in b.time && ',' !in b.mainBattery && ',' !in b.rtcBattery
  {
    var parts := Split(line, ',');
    JoinSplit(line, ',');
    assert parts == [parts[0]] + [parts[1], parts[2]];
    JoinCons(parts[0], [parts[1], parts[2]], [',']);
    assert [parts[1], parts[2]] == [parts[1]] + [parts[2]];
    JoinCons(parts[1], [parts[2]], [',']);
    SplitPiecesFree(line, ',', 0);
    SplitPiecesFree(line, ',', 1);
    SplitPiecesFree(line, ',', 2);
  }

  /** Three comma-free fields joined by commas are read back as they were. */
  lemma BatteryLineFromFields(b: BatteryReading)
    requires ',' !in b.time && ',' !in b.mainBattery && ',' !in b.rtcBattery
    ensures ParseBatteryLine(b.time + "," + b.mainBattery + "," + b.rtcBattery) == Ok(b)
  {
    var line := b.time + "," + b.mainBattery + "," + b.rtcBattery;
    SplitAppend(b.time, b.mainBattery + "," + b.rtcBattery, ',');
    SplitAppend(b.mainBattery, b.rtcBattery, ',');
    assert line == b.time + [','] + (b.mainBattery + [','] + b.rtcBattery);
    SplitCount(b.rtcBattery, c => c == ',');
  }

  /** `getLastBatteryReading` on the file's contents. */
  method GetLastBatteryReading(content: string) returns (r: Result<BatteryReading>)
    ensures ScanLines(content) == [] ==> r == Failure(BatteryFormatError)
    ensures ScanLines(content) != [] ==> r == ParseBatteryLine(ScanLines(content)[|ScanLines(content)| - 1])
  {
    var lastLine := LastLine(content);
    r := ParseBatteryLine(lastLine);
  }

  // ---------------------------------------------------------------------
  // getDeviceType

  /** `getDeviceType`: everything of the minion id before its last dash,
      or "" when the file cannot be read or holds no dash. */
  function DeviceType(minionId: Option<string>): (r: string)
    ensures minionId.None? ==> r == ""
    ensures minionId.Some? && r != "" ==> '-' in minionId.value
  {
    if minionId.None? then ""
    else
      SplitCount(minionId.value, c => c == '-');
      var parts := Split(minionId.value, '-');
      if |parts| < 2 then "" else Join(parts[..|parts| - 1], "-")
  }

  /** The device type is the minion id up to its last dash: adding the dash
      and the dash-free rest gives the id back. Without a dash it is "". */
  lemma DeviceTypePrefix(id: string)
    ensures '-' !in id ==> DeviceType(Some(id)) == ""
    ensures '-' in id ==> exists rest :: '-' !in rest && DeviceType(Some(id)) + "-" + rest == id
  {
    var parts := Split(id, '-');
    SplitCount(id, c => c == '-');
    if '-' in id {
      var n := |parts|;
      var rest := parts[n - 1];
      JoinSplit(id, '-');
      assert parts == parts[..n - 1] + [rest];
      JoinSnoc(parts[..n - 1], rest, "-");
      SplitPiecesFree(id, '-', n - 1);
      assert DeviceType(Some(id)) + "-" + rest == id;
    }
  }

  // ---------------------------------------------------------------------
  // getSSIDIds

  /** A `list_networks` row: its first field is the network id and its
      second the SSID. */
  predicate IsRow(line: string)
  {
    line != "" && |Fields(line)| >= 2
  }

  /** The map built from the rows, in order; a non-empty line with fewer
      than two fields makes `fields[1]` panic. */
  function SsidIdsOf(lines: seq<string>): Panicking<map<string, string>>
  {
    if lines == [] then Returns(map[])
    else
      var prev := SsidIdsOf(lines[..|lines| - 1]);
      var line := lines[|lines| - 1];
      if prev.Panics? then Panics
      else if line == "" then prev
      else if |Fields(line)| < 2 then Panics
      else Returns(prev.value[Fields(line)[1] := Fields(line)[0]])
  }

  /** `getSSIDIds` on the command output: the header line is skipped,
      empty lines are skipped, and each row maps its SSID to its id. */
  method GetSSIDIds(output: string) returns (r: Panicking<map<string, string>>)
    ensures r == SsidIdsOf(Split(output, '\n')[1..])
  {
    var lines := Split(output, '\n')[1..];
    var ssidIds: map<string, string> := map[];
    var i := 0;
    while i < |lines|
      invariant 0 <= i <= |lines|
      invariant SsidIdsOf(lines[..i]) == Returns(ssidIds)
    {
      var line := lines[i];
      assert lines[..i + 1][..i] == lines[..i];
      if line != "" {
        var fields := Fields(line);
        if |fields| < 2 {
          SsidPanicStays(lines, i + 1);
          return Panics;
        }
        ssidIds := ssidIds[fields[1] := fields[0]];
      }
      i := i + 1;
    }
    assert lines[..i] == lines;
    r := Returns(ssidIds);
  }

  /** Once a prefix panics, the whole output does. */
  lemma {:induction false} SsidPanicStays(lines: seq<string>, n: nat)
    requires n <= |lines| && SsidIdsOf(lines[..n]).Panics?
    ensures SsidIdsOf(lines).Panics?
    decreases |lines| - n
  {
    if n < |lines| {
      assert lines[..n + 1][..n] == lines[..n];
      SsidPanicStays(lines, n + 1);
    } else {
      assert lines[..n] == lines;
    }
  }

  /** The table is read without a panic iff every non-empty line is a row. */
  lemma SsidNoPanic(lines: seq<string>)
    ensures SsidIdsOf(lines).Returns? <==> forall j :: 0 <= j < |lines| && lines[j] != "" ==> IsRow(lines[j])
  {
    if SsidIdsOf(lines).Returns? {
      forall j | 0 <= j < |lines| && lines[j] != "" ensures IsRow(lines[j]) {
        SsidReadRow(lines, j);
      }
    } else {
      var j := SsidPanicLine(lines);
    }
  }

  /** A table read without a panic has only rows. */
  lemma {:induction false} SsidReadRow(lines: seq<string>, j: nat)
    requires SsidIdsOf(lines).Returns? && j < |lines| && lines[j] != ""
    ensures IsRow(lines[j])
  {
    var last := |lines| - 1;
    var init := lines[..last];
    assert SsidIdsOf(init).Returns?;
    if j < last {
      assert init[j] == lines[j];
      SsidReadRow(init, j);
    }
  }

  /** A panic comes from a non-empty line that is not a row. */
  lemma {:induction false} SsidPanicLine(lines: seq<string>) returns (j: nat)
    requires SsidIdsOf(lines).Panics?
    ensures j < |lines| && lines[j] != "" && !IsRow(lines[j])
  {
    var last := |lines| - 1;
    var init := lines[..last];
    if SsidIdsOf(init).Panics? {
      j := SsidPanicLine(init);
      assert init[j] == lines[j];
    } else {
      j := last;
    }
  }

  /** The map's keys are exactly the SSIDs of the rows. */
  lemma SsidKeys(lines: seq<string>, k: string)
    requires SsidIdsOf(lines).Returns?
    ensures k in SsidIdsOf(lines).value <==>
      exists j :: 0 <= j < |lines| && IsRow(lines[j]) && Fields(lines[j])[1] == k
  {
    if k in SsidIdsOf(lines).value {
      var j := SsidKeyRow(lines, k);
    }
    if exists j :: 0 <= j < |lines| && IsRow(lines[j]) && Fields(lines[j])[1] == k {
      var j :| 0 <= j < |lines| && IsRow(lines[j]) && Fields(lines[j])[1] == k;
      SsidRowKey(lines, j);
    }
  }

  /** Every key comes from a row. */
  lemma {:induction false} SsidKeyRow(lines: seq<string>, k: string) returns (j: nat)
    requires SsidIdsOf(lines).Returns? && k in SsidIdsOf(lines).value
    ensures j < |lines| && IsRow(lines[j]) && Fields(lines[j])[1] == k
  {
    var last := |lines| - 1;
    var init := lines[..last];
    var prev := SsidIdsOf(init);
    assert prev.Returns?;
    if k in prev.value && (lines[last] == "" || Fields(lines[last])[1] != k) {
      j := SsidKeyRow(init, k);
      assert init[j] == lines[j];
    } else {
      j := last;
    }
  }

  /** Every row's SSID is a key. */
  lemma {:induction false} SsidRowKey(lines: seq<string>, j: nat)
    requires SsidIdsOf(lines).Returns? && j < |lines| && IsRow(lines[j])
    ensures Fields(lines[j])[1] in SsidIdsOf(lines).value
  {
    var last := |lines| - 1;
    var init := lines[..last];
    assert SsidIdsOf(init).Returns?;
    if j < last {
      assert init[j] == lines[j];
      SsidRowKey(init, j);
    }
  }

  /** A row whose SSID no later row repeats decides that SSID's id: later
      duplicates overwrite earlier ones. */
  lemma {:induction false} SsidLastWins(lines: seq<string>, j: nat)
    requires SsidIdsOf(lines).Returns?
    requires j < |lines| && IsRow(lines[j])
    requires forall i :: j < i < |lines| && IsRow(lines[i]) ==> Fields(lines[i])[1] != Fields(lines[j])[1]
    ensures Fields(lines[j])[1] in SsidIdsOf(lines).value
    ensures SsidIdsOf(lines).value[Fields(lines[j])[1]] == Fields(lines[j])[0]
  {
    var init := lines[..|lines| - 1];
    if j < |lines| - 1 {
      assert forall i :: 0 <= i < |init| ==> init[i] == lines[i];
      SsidLastWins(init, j);
    }
  }
}
