/** Wrappers for optional values, as used throughout the model. */
module Wrappers {
  datatype Option<+T> = None | Some(value: T)

  /** A value or an error message. */
  datatype Result<+T> = Ok(value: T) | Failure(error: string)

  /** The outcome of Go code that may panic (an index out of range, an
      assignment to a nil map). */
  datatype Panicking<+T> = Returns(value: T) | Panics
}

/**
 * The string operations of Go's `strings` and `bufio` packages that the
 * management daemon relies on, stated on `seq<char>`.
 */
module Text {

  /** Go's `unicode.IsSpace`: the Latin-1 white space and the other
      Unicode White_Space code points. */
  predicate IsSpace(c: char)
  {
    c == ' ' || c == '\t' || c == '\n' || c == '\U{000B}' || c == '\U{000C}' || c == '\r'
    || c == '\U{0085}' || c == '\U{00A0}' || c == '\U{1680}'
    || ('\U{2000}' <= c <= '\U{200A}') || c == '\U{2028}' || c == '\U{2029}'
    || c == '\U{202F}' || c == '\U{205F}' || c == '\U{3000}'
  }

  /** `strings.HasPrefix`. */
  predicate HasPrefix(s: string, p: string)
  {
    |p| <= |s| && s[..|p|] == p
  }

  /** `strings.TrimPrefix`. */
  function TrimPrefix(s: string, p: string): (r: string)
    ensures HasPrefix(s, p) ==> p + r == s
    ensures !HasPrefix(s, p) ==> r == s
  {
    if HasPrefix(s, p) then s[|p|..] else s
  }

  /** `sub` occurs in `s` from index `i` on. */
  predicate OccursAt(s: string, sub: string, i: int)
  {
    0 <= i <= |s| && HasPrefix(s[i..], sub)
  }

  /** `strings.Contains`: `sub` occurs somewhere in `s`. */
  predicate Contains(s: string, sub: string)
  {
    exists i :: 0 <= i <= |s| && OccursAt(s, sub, i)
  }

  /** The first index at which `c` occurs in `s`, or -1 (`strings.IndexByte`). */
  function IndexOf(s: string, c: char): (r: int)
    ensures r == -1 <==> c !in s
    ensures r != -1 ==> 0 <= r < |s| && s[r] == c && c !in s[..r]
  {
    if |s| == 0 then -1
    else if s[0] == c then 0
    else
      var k := IndexOf(s[1..], c);
      assert s == [s[0]] + s[1..];
      if k == -1 then -1
      else
        assert s[..k + 1] == [s[0]] + s[1..][..k];
        k + 1
  }

  /** Splits `s` at every character satisfying `isSep`, keeping empty pieces:
      `strings.Split(s, sep)` for a one-character separator. */
  function SplitWhere(s: string, isSep: char -> bool): (r: seq<string>)
    ensures |r| >= 1
    ensures forall k :: 0 <= k < |r| ==> forall c :: c in r[k] ==> !isSep(c)
  {
    if |s| == 0 then [""]
    else
      var rest := SplitWhere(s[1..], isSep);
      if isSep(s[0]) then [""] + rest
      else [[s[0]] + rest[0]] + rest[1..]
  }

  /** `strings.Split(s, string(sep))`. */
  function Split(s: string, sep: char): (r: seq<string>)
  {
    SplitWhere(s, c => c == sep)
  }

  /** `strings.Join`. */
  function Join(parts: seq<string>, sep: string): (r: string)
    ensures |parts| == 1 ==> r == parts[0]
  {
    if |parts| == 0 then ""
    else if |parts| == 1 then parts[0]
    else parts[0] + sep + Join(parts[1..], sep)
  }

  lemma JoinCons(p: string, parts: seq<string>, sep: string)
    requires |parts| >= 1
    ensures Join([p] + parts, sep) == p + sep + Join(parts, sep)
  {
    assert ([p] + parts)[1..] == parts;
  }

  /** Joining the pieces with the separator gives back the text. */
  lemma {:induction false} JoinSplit(s: string, sep: char)
    ensures Join(Split(s, sep), [sep]) == s
  {
    if |s| > 0 {
      var rest := Split(s[1..], sep);
      JoinSplit(s[1..], sep);
      assert Join(rest, [sep]) == s[1..];
      if s[0] == sep {
        JoinCons("", rest, [sep]);
      } else {
        var r := Split(s, sep);
        assert r == [[s[0]] + rest[0]] + rest[1..];
        if |rest| == 1 {
          assert r == [[s[0]] + rest[0]];
        } else {
          JoinCons(rest[0], rest[1..], [sep]);
          assert [rest[0]] + rest[1..] == rest;
          JoinCons([s[0]] + rest[0], rest[1..], [sep]);
        }
      }
      assert s == [s[0]] + s[1..];
    }
  }

  /** Appending a piece to a non-empty list of pieces. */
  lemma {:induction false} JoinSnoc(parts: seq<string>, p: string, sep: string)
    requires |parts| >= 1
    ensures Join(parts + [p], sep) == Join(parts, sep) + sep + p
  {
    if |parts| == 1 {
      assert parts + [p] == [parts[0]] + [p];
      JoinCons(parts[0], [p], sep);
    } else {
      JoinSnoc(parts[1..], p, sep);
      assert (parts + [p])[1..] == parts[1..] + [p];
      JoinCons(parts[0], parts[1..] + [p], sep);
      JoinCons(parts[0], parts[1..], sep);
      assert [parts[0]] + parts[1..] == parts;
      assert [parts[0]] + (parts[1..] + [p]) == parts + [p];
    }
  }

  /** A character in neither the pieces nor the separator is not in their
      join. */
  lemma {:induction false} JoinWithout(parts: seq<string>, sep: string, x: char)
    requires x !in sep
    requires forall k :: 0 <= k < |parts| ==> x !in parts[k]
    ensures x !in Join(parts, sep)
  {
    if |parts| > 1 {
      JoinWithout(parts[1..], sep, x);
    }
  }

  /** Splitting a text without the separator gives the text alone; a text
      with it gives at least two pieces. */
  lemma {:induction false} SplitCount(s: string, isSep: char -> bool)
    ensures (forall c :: c in s ==> !isSep(c)) ==> SplitWhere(s, isSep) == [s]
    ensures (exists c :: c in s && isSep(c)) ==> |SplitWhere(s, isSep)| >= 2
  {
    if |s| > 0 {
      SplitCount(s[1..], isSep);
      assert s == [s[0]] + s[1..];
      if exists c :: c in s && isSep(c) {
        var c :| c in s && isSep(c);
        if !isSep(s[0]) {
          assert c in s[1..];
        }
      }
    }
  }

  /** Splitting at a separator in front of a separator-free first piece. */
  lemma {:induction false} SplitWhereAppend(a: string, x: char, rest: string, isSep: char -> bool)
    requires isSep(x)
    requires forall c :: c in a ==> !isSep(c)
    ensures SplitWhere(a + [x] + rest, isSep) == [a] + SplitWhere(rest, isSep)
  {
    if a == "" {
      assert a + [x] + rest == [x] + rest;
      assert ([x] + rest)[1..] == rest;
    } else {
      assert forall c :: c in a[1..] ==> c in a;
      SplitWhereAppend(a[1..], x, rest, isSep);
      assert (a + [x] + rest)[1..] == a[1..] + [x] + rest;
      assert [a[0]] + a[1..] == a;
    }
  }

  /** Splitting at a separator after a first piece without one. */
  lemma SplitAppend(a: string, rest: string, sep: char)
    requires sep !in a
    ensures Split(a + [sep] + rest, sep) == [a] + Split(rest, sep)
  {
    SplitWhereAppend(a, sep, rest, c => c == sep);
  }

  /** Splitting a text by its first character. */
  lemma SplitWhereCons(x: char, t: string, isSep: char -> bool)
    ensures var rest := SplitWhere(t, isSep);
      SplitWhere([x] + t, isSep) == if isSep(x) then [""] + rest else [[x] + rest[0]] + rest[1..]
  {
    assert ([x] + t)[1..] == t;
  }

  /** The first piece grows by a character, or a new empty piece starts,
      in front of a concatenation as in front of its first part. */
  lemma ConsPieces(y: char, ra: seq<string>, rb: seq<string>, sep: bool)
    requires |ra| >= 1
    ensures (if sep then [""] + (ra + rb) else [[y] + (ra + rb)[0]] + (ra + rb)[1..])
         == (if sep then [""] + ra else [[y] + ra[0]] + ra[1..]) + rb
  {
    if !sep {
      assert (ra + rb)[0] == ra[0];
      assert (ra + rb)[1..] == ra[1..] + rb;
    }
  }

  /** Splitting at a separator between two texts splits each of them. */
  lemma {:induction false} SplitWhereConcat(a: string, x: char, b: string, isSep: char -> bool)
    requires isSep(x)
    ensures SplitWhere(a + [x] + b, isSep) == SplitWhere(a, isSep) + SplitWhere(b, isSep)
  {
    if a == "" {
      assert a + [x] + b == [x] + b;
      SplitWhereCons(x, b, isSep);
    } else {
      var t := a[1..] + [x] + b;
      SplitWhereConcat(a[1..], x, b, isSep);
      assert a + [x] + b == [a[0]] + t;
      assert a == [a[0]] + a[1..];
      SplitWhereCons(a[0], t, isSep);
      SplitWhereCons(a[0], a[1..], isSep);
      ConsPieces(a[0], SplitWhere(a[1..], isSep), SplitWhere(b, isSep), isSep(a[0]));
    }
  }

  /** Without separators a text is its one field, or none when empty. */
  lemma FieldsFuncPlain(s: string, isSep: char -> bool)
    requires forall c :: c in s ==> !isSep(c)
    ensures FieldsFunc(s, isSep) == if s == "" then [] else [s]
  {
    SplitCount(s, isSep);
    assert [s][1..] == [];
  }

  /** The pieces of `Split` never contain the separator. */
  lemma SplitPiecesFree(s: string, sep: char, k: nat)
    requires k < |Split(s, sep)|
    ensures sep !in Split(s, sep)[k]
  {
  }

  /** Keeps the non-empty pieces, in order. */
  function NonEmpty(parts: seq<string>): (r: seq<string>)
    ensures |r| <= |parts|
    ensures forall k :: 0 <= k < |r| ==> r[k] != "" && r[k] in parts
    ensures forall p :: p in parts && p != "" ==> p in r
  {
    if |parts| == 0 then []
    else if parts[0] == "" then NonEmpty(parts[1..])
    else [parts[0]] + NonEmpty(parts[1..])
  }

  /** `strings.FieldsFunc`: the maximal runs of characters not satisfying
      `isSep`. */
  function FieldsFunc(s: string, isSep: char -> bool): (r: seq<string>)
    ensures forall k :: 0 <= k < |r| ==> r[k] != ""
    ensures forall k :: 0 <= k < |r| ==> forall c :: c in r[k] ==> !isSep(c)
  {
    var parts := SplitWhere(s, isSep);
    var r := NonEmpty(parts);
    assert forall k :: 0 <= k < |r| ==> r[k] in parts;
    r
  }

  /** `strings.Fields`: the maximal runs of non-space characters. */
  function Fields(s: string): (r: seq<string>)
    ensures forall k :: 0 <= k < |r| ==> r[k] != ""
    ensures forall k :: 0 <= k < |r| ==> forall c :: c in r[k] ==> !IsSpace(c)
  {
    FieldsFunc(s, IsSpace)
  }

  function TrimLeftSpace(s: string): (r: string)
    ensures r == "" || !IsSpace(r[0])
    ensures |r| <= |s| && r == s[|s| - |r|..]
  {
    if |s| > 0 && IsSpace(s[0]) then TrimLeftSpace(s[1..]) else s
  }

  function TrimRightSpace(s: string): (r: string)
    ensures r == "" || !IsSpace(r[|r| - 1])
    ensures |r| <= |s| && r == s[..|r|]
  {
    if |s| > 0 && IsSpace(s[|s| - 1]) then TrimRightSpace(s[..|s| - 1]) else s
  }

  /** `strings.TrimSpace`: drops leading and trailing white space. */
  function TrimSpace(s: string): (r: string)
    ensures r == "" || (!IsSpace(r[0]) && !IsSpace(r[|r| - 1]))
    ensures |r| <= |s|
  {
    TrimRightSpace(TrimLeftSpace(s))
  }

  /** Upper case of an ASCII letter; every other character is kept. */
  function UpperChar(c: char): char
  {
    if 'a' <= c <= 'z' then (c as int - 32) as char else c
  }

  /** `strings.ToUpper`, for ASCII letters. */
  function ToUpper(s: string): (r: string)
    ensures |r| == |s|
    ensures forall i :: 0 <= i < |s| ==> r[i] == UpperChar(s[i])
  {
    seq(|s|, i requires 0 <= i < |s| => UpperChar(s[i]))
  }

  /** Lower case of an ASCII letter; every other character is kept. */
  function LowerChar(c: char): char
  {
    if 'A' <= c <= 'Z' then (c as int + 32) as char else c
  }

  function ToLower(s: string): (r: string)
    ensures |r| == |s|
    ensures forall i :: 0 <= i < |s| ==> r[i] == LowerChar(s[i])
  {
    seq(|s|, i requires 0 <= i < |s| => LowerChar(s[i]))
  }

  function DropCR(line: string): string
  {
    if |line| > 0 && line[|line| - 1] == '\r' then line[..|line| - 1] else line
  }

  /** The lines a `bufio.Scanner` with `ScanLines` yields: the text split at
      newlines, without a final empty line after a trailing newline and with
      one trailing carriage return dropped from each line. */
  function ScanLines(s: string): (r: seq<string>)
    ensures |r| <= |Split(s, '\n')|
    ensures s == "" ==> r == []
  {
    var parts := Split(s, '\n');
    var kept := if parts[|parts| - 1] == "" then parts[..|parts| - 1] else parts;
    seq(|kept|, i requires 0 <= i < |kept| => DropCR(kept[i]))
  }

  /** Decimal rendering of an integer (`strconv.Itoa`, JavaScript's `${n}`). */
  function IntToString(n: int): (r: string)
    ensures |r| >= 1
    decreases if n < 0 then -n + 1 else n
  {
    if n < 0 then "-" + NatToString(-n) else NatToString(n)
  }

  function NatToString(n: nat): (r: string)
    ensures |r| >= 1
    ensures forall c :: c in r ==> '0' <= c <= '9'
  {
    if n < 10 then [DigitChar(n)] else NatToString(n / 10) + [DigitChar(n % 10)]
  }

  function DigitChar(d: nat): char
    requires d < 10
  {
    ('0' as int + d) as char
  }
}
