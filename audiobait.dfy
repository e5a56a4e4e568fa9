/**
 * The audio bait page (audiobait.go): the recent log entries of the
 * `audiobait` service, newest first; whether the service is running; and
 * the conversion of the schedule's sound combinations into the rows the
 * page displays.
 *
 * The output of each command (`journalctl`, `systemctl is-active`,
 * `systemctl is-enabled`) is an input, with `Failure` for a command that
 * fails. The audio file library, `strconv.Atoi` and the time-of-day
 * formatting are parameters.
 */
module Audiobait {
  import opened Wrappers
  import opened Text
  import opened HostSystem
  import opened Helpers

  // ---------------------------------------------------------------------
  // getAudiobaitLogEntries

  const NoLogInfo := "Could not get audio bait logging info."
  const NoLogEntries := "There are no audio bait log entries."

  /** The log entries page text for the output of `journalctl -u audiobait
      --no-pager -n 100`: the non-empty lines after the header line, newest
      first, each followed by a newline. */
  function LogEntriesText(out: Result<string>): string
  {
    if out.Failure? then NoLogInfo
    else
      var lines := Split(out.value, '\n');
      if |lines| <= 1 then NoLogInfo
      else if Contains(ToUpper(lines[1]), "NO ENTRIES") then NoLogEntries
      else Rendered(Reversed(NonEmpty(lines[1..])))
  }

  /** Keeping the non-empty strings of a longer list. */
  lemma {:induction false} NonEmptySnoc(parts: seq<string>, p: string)
    ensures NonEmpty(parts + [p]) == NonEmpty(parts) + (if p == "" then [] else [p])
  {
    if parts != [] {
      assert (parts + [p])[1..] == parts[1..] + [p];
      NonEmptySnoc(parts[1..], p);
    } else {
      assert [p][1..] == [];
    }
  }

  /** `getAudiobaitLogEntries`. */
  method GetAudiobaitLogEntries(out: Result<string>) returns (text: string)
    ensures text == LogEntriesText(out)
  {
    if out.Failure? {
      return NoLogInfo;
    }
    var lines := Split(out.value, '\n');
    if |lines| <= 1 {
      return NoLogInfo;
    } else if Contains(ToUpper(lines[1]), "NO ENTRIES") {
      return NoLogEntries;
    }
    var logEntries := NonEmptyLines(lines[1..]);
    var entries := new string[|logEntries|](k requires 0 <= k < |logEntries| => logEntries[k]);
    assert entries[..] == logEntries;
    Reverse(entries);
    text := Concatenate(entries);
  }

  /** The first loop of `getAudiobaitLogEntries`: keeps the non-empty
      lines, in order. */
  method NonEmptyLines(rest: seq<string>) returns (logEntries: seq<string>)
    ensures logEntries == NonEmpty(rest)
  {
    logEntries := [];
    var i := 0;
    while i < |rest|
      invariant 0 <= i <= |rest|
      invariant logEntries == NonEmpty(rest[..i])
    {
      NonEmptySnoc(rest[..i], rest[i]);
      assert rest[..i + 1] == rest[..i] + [rest[i]];
      if |rest[i]| > 0 {
        logEntries := logEntries + [rest[i]];
      }
      i := i + 1;
    }
    assert rest[..i] == rest;
  }

  /** The last loop of `getAudiobaitLogEntries`: every entry followed by a
      newline. */
  method Concatenate(entries: array<string>) returns (text: string)
    ensures text == Rendered(entries[..])
  {
    text := "";
    var j := 0;
    while j < entries.Length
      invariant 0 <= j <= entries.Length
      invariant text == Rendered(entries[..j])
    {
      assert entries[..j + 1][..j] == entries[..j];
      text := text + entries[j] + "\n";
      j := j + 1;
    }
    assert entries[..j] == entries[..];
  }

  /** Reading the page text back line by line gives the log entries,
      newest first, then the empty piece after the final newline. */
  lemma LogEntriesNewestFirst(out: string)
    requires |Split(out, '\n')| > 1
    requires !Contains(ToUpper(Split(out, '\n')[1]), "NO ENTRIES")
    ensures Split(LogEntriesText(Ok(out)), '\n')
      == Reversed(NonEmpty(Split(out, '\n')[1..])) + [""]
  {
    var lines := Split(out, '\n');
    var entries := Reversed(NonEmpty(lines[1..]));
    forall k | 0 <= k < |entries|
      ensures '\n' !in entries[k]
    {
      var e := NonEmpty(lines[1..])[|entries| - 1 - k];
      assert e in lines[1..];
      var m :| 0 <= m < |lines[1..]| && lines[1..][m] == e;
      SplitPiecesFree(out, '\n', m + 1);
    }
    RenderedSplit(entries, "");
    assert Split("", '\n') == [""];
    assert Rendered(entries) + "" == Rendered(entries);
  }

  // ---------------------------------------------------------------------
  // isAudiobaitRunning

  /** A `systemctl` answer, trimmed and in upper case, is `word`. */
  predicate Reports(out: Result<string>, word: string)
  {
    out.Ok? && ToUpper(TrimSpace(out.value)) == word
  }

  /** `isAudiobaitRunning`, given the outputs of `systemctl is-active` and
      `systemctl is-enabled`: running iff active and enabled. */
  function IsAudiobaitRunning(isActive: Result<string>, isEnabled: Result<string>): (r: bool)
    ensures r <==> Reports(isActive, "ACTIVE") && Reports(isEnabled, "ENABLED")
  {
    if isActive.Failure? then false
    else
      var active := ToUpper(TrimSpace(isActive.value)) == "ACTIVE";
      if isEnabled.Failure? then false
      else
        var enabled := ToUpper(TrimSpace(isEnabled.value)) == "ENABLED";
        active && enabled
  }

  /** The answers are compared without regard to case, so "active" counts;
      "inactive" never does. */
  lemma ActiveAnswers(out: string)
    ensures TrimSpace(out) == "active" ==> Reports(Ok(out), "ACTIVE")
    ensures TrimSpace(out) == "inactive" ==> !Reports(Ok(out), "ACTIVE")
  {
    if TrimSpace(out) == "active" {
      assert ToUpper("active") == "ACTIVE";
    }
    if TrimSpace(out) == "inactive" {
      assert |ToUpper(TrimSpace(out))| == 8;
    }
  }

  // ---------------------------------------------------------------------
  // getScheduleData: the combinations

  /** A time of day of the schedule, in seconds since midnight. */
  type TimeOfDay = int

  /** `playlist.Combo`: when it plays, how often, and its sounds with their
      volumes and the waits before them, all times in seconds. */
  datatype Combo = Combo(from: TimeOfDay, every: int, until: TimeOfDay,
                         sounds: seq<string>, volumes: seq<int>, waits: seq<int>)

  datatype SoundDisplayInfo = SoundDisplayInfo(sound: string, volume: int, wait: int)

  datatype SoundDisplayCombo = SoundDisplayCombo(from: string, every: int, until: string,
                                                 soundInfo: seq<SoundDisplayInfo>)

  /** Go's integer division, which truncates toward zero. */
  function GoDiv(a: int, b: int): int
    requires b > 0
  {
    if a >= 0 then a / b else -((-a) / b)
  }

  /** The indexing of the conversion stays in range: a volume for every
      sound and, with more than one sound, a wait for every sound. */
  predicate ComboIndexable(c: Combo)
  {
    |c.volumes| >= |c.sounds| && (|c.sounds| <= 1 || |c.waits| >= |c.sounds|)
  }

  /** The name shown for a sound id: the file name from the library when it
      was loaded and knows the id, otherwise the id itself. */
  function SoundName(id: string, library: Option<map<int, string>>, atoi: string -> Option<int>): string
  {
    if library.Some? && atoi(id).Some? && atoi(id).value in library.value
    then library.value[atoi(id).value] else id
  }

  /** The row for sound `j`: its wait is the wait before the next sound,
      in minutes, and 0 for the last sound. */
  function DisplayInfo(c: Combo, j: nat, library: Option<map<int, string>>, atoi: string -> Option<int>): SoundDisplayInfo
    requires ComboIndexable(c) && j < |c.sounds|
  {
    SoundDisplayInfo(SoundName(c.sounds[j], library, atoi), c.volumes[j],
                     if j < |c.sounds| - 1 then GoDiv(c.waits[j + 1], 60) else 0)
  }

  function DisplayCombo(c: Combo, library: Option<map<int, string>>, atoi: string -> Option<int>,
                        format: TimeOfDay -> string): SoundDisplayCombo
    requires ComboIndexable(c)
  {
    SoundDisplayCombo(format(c.from), GoDiv(c.every, 60), format(c.until),
                      seq(|c.sounds|, j requires 0 <= j < |c.sounds| => DisplayInfo(c, j, library, atoi)))
  }

  /** The displayed combination keeps one row per sound, in order, with
      its volume; the waits move up by one, so the first wait is never
      shown; intervals are shown in whole minutes. */
  lemma DisplayComboShape(c: Combo, library: Option<map<int, string>>, atoi: string -> Option<int>,
                          format: TimeOfDay -> string)
    requires ComboIndexable(c)
    ensures var d := DisplayCombo(c, library, atoi, format);
      |d.soundInfo| == |c.sounds|
      && (forall j :: 0 <= j < |c.sounds| ==> d.soundInfo[j].volume == c.volumes[j])
      && (forall j :: 0 <= j < |c.sounds| - 1 ==> d.soundInfo[j].wait == GoDiv(c.waits[j + 1], 60))
      && (|c.sounds| > 0 ==> d.soundInfo[|c.sounds| - 1].wait == 0)
      && (c.every >= 0 ==> 60 * d.every <= c.every < 60 * d.every + 60)
      && (library.None? ==> forall j :: 0 <= j < |c.sounds| ==> d.soundInfo[j].sound == c.sounds[j])
  {
  }

  /** The sound rows of one combination, as the inner loop builds them;
      an index out of range panics. */
  method ConvertCombo(c: Combo, library: Option<map<int, string>>, atoi: string -> Option<int>,
                      format: TimeOfDay -> string) returns (r: Panicking<SoundDisplayCombo>)
    ensures r.Returns? <==> ComboIndexable(c)
    ensures r.Returns? ==> ComboIndexable(c) && r.value == DisplayCombo(c, library, atoi, format)
  {
    var soundInfo: seq<SoundDisplayInfo> := [];
    var j := 0;
    while j < |c.sounds|
      invariant 0 <= j <= |c.sounds|
      invariant j <= |c.volumes|
      invariant 1 < |c.sounds| && 0 < j ==> |c.waits| >= (if j < |c.sounds| then j + 1 else j)
      invariant |soundInfo| == j
      invariant forall k :: 0 <= k < j ==>
        soundInfo[k].sound == SoundName(c.sounds[k], library, atoi) && soundInfo[k].volume == c.volumes[k]
        && soundInfo[k].wait == (if k < |c.sounds| - 1 then GoDiv(c.waits[k + 1], 60) else 0)
    {
      if j >= |c.volumes| {
        return Panics;
      }
      var info := SoundDisplayInfo(c.sounds[j], c.volumes[j], 0);
      if library.Some? {
        var id := atoi(c.sounds[j]);
        if id.Some? && id.value in library.value {
          info := info.(sound := library.value[id.value]);
        }
      }
      if j < |c.sounds| - 1 {
        if j + 1 >= |c.waits| {
          return Panics;
        }
        info := info.(wait := GoDiv(c.waits[j + 1], 60));
      }
      soundInfo := soundInfo + [info];
      j := j + 1;
    }
    r := Returns(SoundDisplayCombo(format(c.from), GoDiv(c.every, 60), format(c.until), soundInfo));
  }

  /** The loop over the schedule's combinations: one displayed combination
      per schedule combination, in order, unless one of them panics. */
  method ConvertCombos(combos: seq<Combo>, library: Option<map<int, string>>, atoi: string -> Option<int>,
                       format: TimeOfDay -> string) returns (r: Panicking<seq<SoundDisplayCombo>>)
    ensures r.Returns? <==> forall i :: 0 <= i < |combos| ==> ComboIndexable(combos[i])
    ensures r.Returns? ==>
      |r.value| == |combos|
      && forall i :: 0 <= i < |combos| ==>
           ComboIndexable(combos[i]) && r.value[i] == DisplayCombo(combos[i], library, atoi, format)
  {
    var out: seq<SoundDisplayCombo> := [];
    var i := 0;
    while i < |combos|
      invariant 0 <= i <= |combos|
      invariant |out| == i
      invariant forall k :: 0 <= k < i ==>
        ComboIndexable(combos[k]) && out[k] == DisplayCombo(combos[k], library, atoi, format)
    {
      var d := ConvertCombo(combos[i], library, atoi, format);
      if d.Panics? {
        return Panics;
      }
      out := out + [d.value];
      i := i + 1;
    }
    return Returns(out);
  }
}
