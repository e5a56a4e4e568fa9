/**
 * Adding and removing a network in the wpa_supplicant configuration
 * (api/api.go, `addNetworkToWPAConfig` and `removeNetworkFromWPAConfig`).
 *
 * The file's contents are an input and the text written back is the
 * result (`None` when nothing is written); reading and writing the file
 * are not part of this model.
 *
 * Removal reads the file line by line. A "network={" line opens a block,
 * and the first later line holding "}" closes it. A closed block is kept
 * unless its text names the SSID. A block that is never closed, or that a
 * new "network={" line interrupts, is dropped. The reference for this is
 * `Segments`, which cuts the lines into outside lines and blocks; the
 * lemmas show that it is a partition with the block structure just
 * described, and the removal loop is proved to keep `Kept(Segments(..))`.
 */
module WpaConfig {
  import opened Wrappers
  import opened Text

  /** The text that names a network in the file. */
  function SsidTag(ssid: string): string
  {
    "ssid=\"" + ssid + "\""
  }

  predicate IsOpener(line: string)
  {
    Contains(line, "network={")
  }

  predicate Closes(line: string)
  {
    Contains(line, "}")
  }

  // ---------------------------------------------------------------------
  // addNetworkToWPAConfig

  /** The block appended for a new network. */
  function NetworkBlock(ssid: string, passkey: string): string
  {
    "network={\n    " + SsidTag(ssid) + "\n    psk=\"" + passkey + "\"\n}"
  }

  /** `addNetworkToWPAConfig`: nothing is written when the file already
      names the SSID; otherwise the block is appended after a line break. */
  function AddNetwork(content: string, ssid: string, passkey: string): (r: Option<string>)
    ensures r.None? <==> Contains(content, SsidTag(ssid))
  {
    if Contains(content, SsidTag(ssid)) then None
    else Some(content + "\n" + NetworkBlock(ssid, passkey))
  }

  /** The file after the call. */
  function AfterAdd(content: string, ssid: string, passkey: string): string
  {
    var r := AddNetwork(content, ssid, passkey);
    if r.Some? then r.value else content
  }

  lemma ContainsMiddle(a: string, sub: string, b: string)
    ensures Contains(a + sub + b, sub)
  {
    var s := a + sub + b;
    assert s[|a|..][..|sub|] == sub;
    assert OccursAt(s, sub, |a|);
  }

  /** Adding a network names it in the file, so adding it again writes
      nothing: adding twice is adding once. */
  lemma AddIdempotent(content: string, ssid: string, passkey: string, passkey2: string)
    ensures Contains(AfterAdd(content, ssid, passkey), SsidTag(ssid))
    ensures AddNetwork(AfterAdd(content, ssid, passkey), ssid, passkey2).None?
  {
    if !Contains(content, SsidTag(ssid)) {
      var pre := content + "\n" + "network={\n    ";
      var post := "\n    psk=\"" + passkey + "\"\n}";
      assert AfterAdd(content, ssid, passkey) == pre + SsidTag(ssid) + post;
      ContainsMiddle(pre, SsidTag(ssid), post);
    }
  }

  // ---------------------------------------------------------------------
  // removeNetworkFromWPAConfig: the reference

  /** A piece of the file: a line outside any block, or a block with
      whether it was closed. */
  datatype Segment = Outside(line: string) | Block(lines: seq<string>, closed: bool)

  predicate OpenBlockLast(segs: seq<Segment>)
  {
    segs != [] && segs[|segs| - 1].Block? && !segs[|segs| - 1].closed
  }

  /** The segments after one more line: an opener starts a new open
      block, a line after an open block joins it (closing it when it holds
      "}"), any other line is outside. */
  function SegStep(segs: seq<Segment>, line: string): (r: seq<Segment>)
    ensures r != []
  {
    if IsOpener(line) then segs + [Block([line], false)]
    else if OpenBlockLast(segs) then
      segs[..|segs| - 1] + [Block(segs[|segs| - 1].lines + [line], Closes(line))]
    else segs + [Outside(line)]
  }

  /** The lines cut into segments. */
  function Segments(lines: seq<string>): seq<Segment>
  {
    if lines == [] then [] else SegStep(Segments(lines[..|lines| - 1]), lines[|lines| - 1])
  }

  /** The lines of one segment. */
  function SegLines(s: Segment): seq<string>
  {
    if s.Outside? then [s.line] else s.lines
  }

  /** The lines of the segments, in order. */
  function Flatten(segs: seq<Segment>): seq<string>
  {
    if segs == [] then [] else Flatten(segs[..|segs| - 1]) + SegLines(segs[|segs| - 1])
  }

  /** The lines one segment keeps: an outside line, or a closed block that
      does not name the network. */
  function KeptOne(s: Segment, tag: string): seq<string>
  {
    if s.Outside? then [s.line]
    else if s.closed && !Contains(Join(s.lines, "\n"), tag) then s.lines
    else []
  }

  /** The lines that survive the removal of `tag`'s block. */
  function Kept(segs: seq<Segment>, tag: string): seq<string>
  {
    if segs == [] then [] else Kept(segs[..|segs| - 1], tag) + KeptOne(segs[|segs| - 1], tag)
  }

  lemma FlattenSnoc(segs: seq<Segment>, s: Segment)
    ensures Flatten(segs + [s]) == Flatten(segs) + SegLines(s)
  {
    assert (segs + [s])[..|segs|] == segs;
  }

  lemma KeptSnoc(segs: seq<Segment>, s: Segment, tag: string)
    ensures Kept(segs + [s], tag) == Kept(segs, tag) + KeptOne(s, tag)
  {
    assert (segs + [s])[..|segs|] == segs;
  }

  lemma SplitLast(segs: seq<Segment>)
    requires segs != []
    ensures segs == segs[..|segs| - 1] + [segs[|segs| - 1]]
  {
  }

  /** A block starts at its opener, holds no other opener, ends at its
      first closing line when closed and holds none when open. */
  predicate BlockShape(s: Segment)
  {
    s.Block? && |s.lines| >= 1 && IsOpener(s.lines[0])
    && (forall j :: 0 < j < |s.lines| ==> !IsOpener(s.lines[j]))
    && (forall j :: 0 < j < |s.lines| - 1 ==> !Closes(s.lines[j]))
    && (s.closed <==> |s.lines| >= 2 && Closes(s.lines[|s.lines| - 1]))
  }

  /** Outside lines are no openers, blocks have their shape, and an open
      block is followed by nothing or by the next block. */
  predicate WellFormed(segs: seq<Segment>)
  {
    && (forall i :: 0 <= i < |segs| && segs[i].Outside? ==> !IsOpener(segs[i].line))
    && (forall i :: 0 <= i < |segs| && segs[i].Block? ==> BlockShape(segs[i]))
    && (forall i :: 0 <= i < |segs| - 1 && segs[i].Block? && !segs[i].closed ==> segs[i + 1].Block?)
  }

  /** One step adds its line at the end of the flattened segments. */
  lemma FlattenStep(segs: seq<Segment>, line: string)
    ensures Flatten(SegStep(segs, line)) == Flatten(segs) + [line]
  {
    if !IsOpener(line) && OpenBlockLast(segs) {
      var front := segs[..|segs| - 1];
      SplitLast(segs);
      FlattenSnoc(front, segs[|segs| - 1]);
      FlattenSnoc(front, Block(segs[|segs| - 1].lines + [line], Closes(line)));
    } else if IsOpener(line) {
      FlattenSnoc(segs, Block([line], false));
    } else {
      FlattenSnoc(segs, Outside(line));
    }
  }

  /** The segments are a partition of the lines. */
  lemma {:induction false} SegmentsPartition(lines: seq<string>)
    ensures Flatten(Segments(lines)) == lines
  {
    if lines != [] {
      var init, last := lines[..|lines| - 1], lines[|lines| - 1];
      var segs := Segments(init);
      calc {
        Flatten(Segments(lines));
        Flatten(SegStep(segs, last));
        { FlattenStep(segs, last); }
        Flatten(segs) + [last];
        { SegmentsPartition(init); }
        init + [last];
        lines;
      }
    }
  }

  /** An opener keeps what was kept and opens a block of its own. */
  lemma StepOpener(segs: seq<Segment>, line: string, tag: string)
    requires IsOpener(line)
    ensures var r := SegStep(segs, line);
      && Kept(r, tag) == Kept(segs, tag)
      && OpenBlockLast(r) && r[|r| - 1].lines == [line]
  {
    KeptSnoc(segs, Block([line], false), tag);
  }

  /** A line inside an open block joins it; the block's lines are kept
      when the line closes it and they do not name the network. */
  lemma StepInBlock(segs: seq<Segment>, line: string, tag: string)
    requires !IsOpener(line) && OpenBlockLast(segs)
    ensures var r := SegStep(segs, line);
      var b := segs[|segs| - 1].lines + [line];
      && (OpenBlockLast(r) <==> !Closes(line))
      && r[|r| - 1].lines == b
      && Kept(r, tag) == Kept(segs, tag)
           + (if Closes(line) && !Contains(Join(b, "\n"), tag) then b else [])
  {
    var front := segs[..|segs| - 1];
    var last := segs[|segs| - 1];
    var nb := Block(last.lines + [line], Closes(line));
    assert SegStep(segs, line) == front + [nb];
    SplitLast(segs);
    KeptSnoc(front, last, tag);
    assert KeptOne(last, tag) == [];
    KeptSnoc(front, nb, tag);
  }

  /** A line outside any block is kept as it is. */
  lemma StepOutside(segs: seq<Segment>, line: string, tag: string)
    requires !IsOpener(line) && !OpenBlockLast(segs)
    ensures var r := SegStep(segs, line);
      Kept(r, tag) == Kept(segs, tag) + [line] && !OpenBlockLast(r)
  {
    KeptSnoc(segs, Outside(line), tag);
  }

  /** The segments have the block structure described above. */
  lemma {:induction false} SegmentsWellFormed(lines: seq<string>)
    ensures WellFormed(Segments(lines))
  {
    if lines != [] {
      var init, line := lines[..|lines| - 1], lines[|lines| - 1];
      var segs := Segments(init);
      SegmentsWellFormed(init);
      assert Segments(lines) == SegStep(segs, line);
      StepWellFormed(segs, line);
    }
  }

  /** One step keeps the block structure. */
  lemma StepWellFormed(segs: seq<Segment>, line: string)
    requires WellFormed(segs)
    ensures WellFormed(SegStep(segs, line))
  {
    if IsOpener(line) {
      assert BlockShape(Block([line], false));
    } else if OpenBlockLast(segs) {
      ExtendWellFormed(segs, line);
    }
  }

  /** A line that is no opener joins the open last block, keeping its
      shape. */
  lemma ExtendWellFormed(segs: seq<Segment>, line: string)
    requires WellFormed(segs) && !IsOpener(line) && OpenBlockLast(segs)
    ensures WellFormed(SegStep(segs, line))
  {
    var front := segs[..|segs| - 1];
    var b := segs[|segs| - 1].lines;
    var nb := Block(b + [line], Closes(line));
    assert BlockShape(segs[|segs| - 1]);
    assert BlockShape(nb);
    var r := front + [nb];
    assert SegStep(segs, line) == r;
    forall i | 0 <= i < |r| - 1 && r[i].Block? && !r[i].closed
      ensures r[i + 1].Block?
    {
      assert r[i] == segs[i];
    }
  }

  // ---------------------------------------------------------------------
  // removeNetworkFromWPAConfig: the loop

  /** `removeNetworkFromWPAConfig`: the new file holds the kept lines. */
  method RemoveNetwork(content: string, ssid: string) returns (written: string)
    ensures written == Join(Kept(Segments(Split(content, '\n')), SsidTag(ssid)), "\n")
  {
    var lines := Split(content, '\n');
    var newLines: seq<string> := [];
    var blockLines: seq<string> := [];
    var inBlock := false;
    var i := 0;
    while i < |lines|
      invariant 0 <= i <= |lines|
      invariant newLines == Kept(Segments(lines[..i]), SsidTag(ssid))
      invariant inBlock <==> OpenBlockLast(Segments(lines[..i]))
      invariant inBlock ==> blockLines == Segments(lines[..i])[|Segments(lines[..i])| - 1].lines
    {
      var line := lines[i];
      assert lines[..i + 1][..i] == lines[..i];
      assert lines[..i + 1][i] == line;
      ghost var segs := Segments(lines[..i]);
      assert Segments(lines[..i + 1]) == SegStep(segs, line);
      if Contains(line, "network={") {
        StepOpener(segs, line, SsidTag(ssid));
        inBlock := true;
        blockLines := [line];
      } else if inBlock {
        StepInBlock(segs, line, SsidTag(ssid));
        blockLines := blockLines + [line];
        if Contains(line, "}") {
          if !Contains(Join(blockLines, "\n"), SsidTag(ssid)) {
            newLines := newLines + blockLines;
          }
          inBlock := false;
          blockLines := [];
        }
      } else {
        StepOutside(segs, line, SsidTag(ssid));
        newLines := newLines + [line];
      }
      i := i + 1;
    }
    assert lines[..i] == lines;
    written := Join(newLines, "\n");
  }

  // ---------------------------------------------------------------------
  // Removing what was just added

  /** Splitting at a separator between two texts. */
  lemma SplitConcat(a: string, b: string, sep: char)
    ensures Split(a + [sep] + b, sep) == Split(a, sep) + Split(b, sep)
  {
    SplitWhereConcat(a, sep, b, c => c == sep);
  }

  /** Segments of lines that continue with an opener: the opener starts
      afresh, whatever came before. */
  lemma {:induction false} SegmentsAppend(front: seq<string>, back: seq<string>)
    requires back != [] && IsOpener(back[0])
    ensures Segments(front + back) == Segments(front) + Segments(back)
  {
    var all := front + back;
    if |back| == 1 {
      assert all[..|all| - 1] == front;
      assert back[..0] == [];
    } else {
      var init, line := back[..|back| - 1], back[|back| - 1];
      assert all[..|all| - 1] == front + init;
      assert all[|all| - 1] == line;
      SegmentsNonEmpty(init);
      calc {
        Segments(all);
        SegStep(Segments(front + init), line);
        { SegmentsAppend(front, init); }
        SegStep(Segments(front) + Segments(init), line);
        { SegStepAppend(Segments(front), Segments(init), line); }
        Segments(front) + SegStep(Segments(init), line);
        Segments(front) + Segments(back);
      }
    }
  }

  /** A step only looks at the last segment. */
  lemma SegStepAppend(a: seq<Segment>, b: seq<Segment>, line: string)
    requires b != []
    ensures SegStep(a + b, line) == a + SegStep(b, line)
  {
    var ab := a + b;
    assert ab[|ab| - 1] == b[|b| - 1];
    assert ab[..|ab| - 1] == a + b[..|b| - 1];
  }

  lemma SegmentsNonEmpty(lines: seq<string>)
    requires lines != []
    ensures Segments(lines) != []
  {
  }

  /** What is kept of two runs of segments is what is kept of each. */
  lemma {:induction false} KeptAppend(a: seq<Segment>, b: seq<Segment>, tag: string)
    ensures Kept(a + b, tag) == Kept(a, tag) + Kept(b, tag)
  {
    if b == [] {
      assert a + b == a;
    } else {
      var init, last := b[..|b| - 1], b[|b| - 1];
      assert a + b == (a + init) + [last] && b == init + [last];
      calc {
        Kept(a + b, tag);
        { KeptSnoc(a + init, last, tag); }
        Kept(a + init, tag) + KeptOne(last, tag);
        { KeptAppend(a, init, tag); }
        Kept(a, tag) + (Kept(init, tag) + KeptOne(last, tag));
        { KeptSnoc(init, last, tag); }
        Kept(a, tag) + Kept(b, tag);
      }
    }
  }

  lemma ContainsHasChar(s: string, sub: string, c: char)
    requires Contains(s, sub) && c in sub
    ensures c in s
  {
    var i :| 0 <= i <= |s| && OccursAt(s, sub, i);
    var k :| 0 <= k < |sub| && sub[k] == c;
    assert s[i..][..|sub|] == sub;
    assert s[i..][k] == c;
  }

  /** A line without braces neither opens nor closes a block. */
  lemma NoBraces(line: string)
    requires '{' !in line && '}' !in line
    ensures !IsOpener(line) && !Closes(line)
  {
    if IsOpener(line) {
      assert "network={"[8] == '{';
      ContainsHasChar(line, "network={", '{');
    }
    if Closes(line) {
      ContainsHasChar(line, "}", '}');
    }
  }

  /** The lines of the appended block. */
  function BlockLines(ssid: string, passkey: string): seq<string>
  {
    ["network={", "    " + SsidTag(ssid), "    psk=\"" + passkey + "\"", "}"]
  }

  lemma BlockLinesSplit(ssid: string, passkey: string)
    requires '\n' !in ssid && '\n' !in passkey
    ensures Split(NetworkBlock(ssid, passkey), '\n') == BlockLines(ssid, passkey)
  {
    var m := BlockLines(ssid, passkey);
    BlockJoined(ssid, passkey);
    BlockLinesPlain(ssid, passkey);
    FourLinesSplit(m[0], m[1], m[2], m[3]);
  }

  lemma BlockJoined(ssid: string, passkey: string)
    ensures var m := BlockLines(ssid, passkey);
      NetworkBlock(ssid, passkey) == m[0] + ['\n'] + (m[1] + ['\n'] + (m[2] + ['\n'] + m[3]))
  {
  }

  lemma BlockLinesPlain(ssid: string, passkey: string)
    requires '\n' !in ssid && '\n' !in passkey
    ensures var m := BlockLines(ssid, passkey);
      '\n' !in m[0] && '\n' !in m[1] && '\n' !in m[2] && '\n' !in m[3]
  {
  }

  /** Four lines without line breaks, joined by line breaks, split back. */
  lemma FourLinesSplit(l0: string, l1: string, l2: string, l3: string)
    requires '\n' !in l0 && '\n' !in l1 && '\n' !in l2 && '\n' !in l3
    ensures Split(l0 + ['\n'] + (l1 + ['\n'] + (l2 + ['\n'] + l3)), '\n') == [l0, l1, l2, l3]
  {
    SplitAppend(l0, l1 + ['\n'] + (l2 + ['\n'] + l3), '\n');
    SplitAppend(l1, l2 + ['\n'] + l3, '\n');
    SplitAppend(l2, l3, '\n');
    SplitCount(l3, c => c == '\n');
  }

  /** The segments of one more line. */
  lemma SegmentsSnoc(lines: seq<string>, k: nat)
    requires k < |lines|
    ensures Segments(lines[..k + 1]) == SegStep(Segments(lines[..k]), lines[k])
  {
    assert lines[..k + 1][..k] == lines[..k];
  }

  /** The appended block's text names its network. */
  lemma BlockNamesNetwork(ssid: string, passkey: string)
    ensures Contains(Join(BlockLines(ssid, passkey), "\n"), SsidTag(ssid))
  {
    var m := BlockLines(ssid, passkey);
    JoinCons(m[0], m[1..], "\n");
    assert m == [m[0]] + m[1..];
    assert m[1..] == [m[1]] + m[2..];
    JoinCons(m[1], m[2..], "\n");
    ContainsMiddle(m[0] + "\n" + "    ", SsidTag(ssid), "\n" + Join(m[2..], "\n"));
    assert Join(m, "\n") == m[0] + "\n" + "    " + SsidTag(ssid) + ("\n" + Join(m[2..], "\n"));
  }

  /** The segments of four lines, one step at a time. */
  lemma FourLineSegments(m: seq<string>)
    requires |m| == 4
    ensures Segments(m) == SegStep(SegStep(SegStep(SegStep([], m[0]), m[1]), m[2]), m[3])
  {
    assert m[..0] == [] && m[..4] == m;
    SegmentsSnoc(m, 0);
    SegmentsSnoc(m, 1);
    SegmentsSnoc(m, 2);
    SegmentsSnoc(m, 3);
  }

  /** An opener, two plain lines and a closing line form one closed block. */
  lemma FourLineBlock(m: seq<string>, tag: string)
    requires |m| == 4 && IsOpener(m[0]) && Closes(m[3]) && !IsOpener(m[3])
    requires !IsOpener(m[1]) && !Closes(m[1]) && !IsOpener(m[2]) && !Closes(m[2])
    ensures Kept(Segments(m), tag) == if Contains(Join(m, "\n"), tag) then [] else m
  {
    FourLineSegments(m);
    var s1 := SegStep([], m[0]);
    StepOpener([], m[0], tag);
    var s2 := SegStep(s1, m[1]);
    StepInBlock(s1, m[1], tag);
    var s3 := SegStep(s2, m[2]);
    StepInBlock(s2, m[2], tag);
    StepInBlock(s3, m[3], tag);
    assert s3[|s3| - 1].lines + [m[3]] == m;
    assert Kept([], tag) == [];
  }

  /** A line shorter than "network={" opens nothing. */
  lemma ShortNoOpener(line: string)
    requires |line| < 9
    ensures !IsOpener(line)
  {
  }

  /** The appended block's lines form one closed block. */
  lemma BlockKept(ssid: string, passkey: string, tag: string)
    requires '{' !in ssid && '}' !in ssid && '{' !in passkey && '}' !in passkey
    ensures var m := BlockLines(ssid, passkey);
      Kept(Segments(m), tag) == if Contains(Join(m, "\n"), tag) then [] else m
  {
    var m := BlockLines(ssid, passkey);
    assert IsOpener(m[0]) by { ContainsMiddle("", "network={", ""); assert "" + "network={" + "" == m[0]; }
    assert Closes(m[3]) by { ContainsMiddle("", "}", ""); assert "" + "}" + "" == m[3]; }
    ShortNoOpener(m[3]);
    NoBraces(m[1]);
    NoBraces(m[2]);
    FourLineBlock(m, tag);
  }

  /** The appended block is one closed block naming the SSID, so the
      removal drops it. */
  lemma BlockDropped(ssid: string, passkey: string)
    requires '{' !in ssid && '}' !in ssid && '{' !in passkey && '}' !in passkey
    ensures Kept(Segments(BlockLines(ssid, passkey)), SsidTag(ssid)) == []
  {
    BlockNamesNetwork(ssid, passkey);
    BlockKept(ssid, passkey, SsidTag(ssid));
  }

  /** Removing a network right after adding it writes what removing it
      without the addition would have written (for SSIDs and passkeys
      without line breaks and braces). */
  lemma RemoveAfterAdd(content: string, ssid: string, passkey: string)
    requires '\n' !in ssid && '\n' !in passkey
    requires '{' !in ssid && '}' !in ssid && '{' !in passkey && '}' !in passkey
    ensures Kept(Segments(Split(AfterAdd(content, ssid, passkey), '\n')), SsidTag(ssid))
         == Kept(Segments(Split(content, '\n')), SsidTag(ssid))
  {
    if !Contains(content, SsidTag(ssid)) {
      var m := BlockLines(ssid, passkey);
      assert AfterAdd(content, ssid, passkey) == content + ['\n'] + NetworkBlock(ssid, passkey);
      SplitConcat(content, NetworkBlock(ssid, passkey), '\n');
      BlockLinesSplit(ssid, passkey);
      assert IsOpener(m[0]) by { ContainsMiddle("", "network={", ""); assert "" + "network={" + "" == m[0]; }
      SegmentsAppend(Split(content, '\n'), m);
      KeptAppend(Segments(Split(content, '\n')), Segments(m), SsidTag(ssid));
      BlockDropped(ssid, passkey);
      assert Kept(Segments(Split(content, '\n')), SsidTag(ssid)) + [] == Kept(Segments(Split(content, '\n')), SsidTag(ssid));
    }
  }
}
