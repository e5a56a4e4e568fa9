/**
 * The small helpers of the management interface's web pages (helpers.go
 * and the client error of clienterror.go): parsing optional form values,
 * the success and error messages shown on a page, and reversing a slice
 * of strings in place.
 *
 * Floating point parsing and time parsing are the standard library's;
 * they are parameters here, each a function from the text to its value or
 * to an error message. Floating point values keep their NaN and
 * infinities, which the range checks of the location form compare.
 */
module Helpers {
  import opened Wrappers

  /** An error as the handlers see it: a client error (`clientError`,
      answered with 400) or any other error. */
  datatype Error = ClientError(msg: string) | OtherError(msg: string)
  {
    /** `Error()`. */
    function Text(): string { msg }
  }

  /** `isClientError`: whether the error is a client error. Which of the
      two it is does not depend on the text: the client error carrying the
      same text is the error itself exactly when it is one. */
  function IsClientError(err: Error): (r: bool)
    ensures r <==> err == ClientError(err.Text())
    ensures !r <==> err == OtherError(err.Text())
  {
    err.ClientError?
  }

  // ---------------------------------------------------------------------
  // Messages

  /** `successMessage`: the message, but only when there was no error. */
  function SuccessMessage(err: Option<Error>, msg: string): (r: string)
    ensures err.None? ==> r == msg
    ensures err.Some? ==> r == ""
  {
    if err.None? then msg else ""
  }

  /** `errorMessage`: the error's text, or "" when there was none. */
  function ErrorMessage(err: Option<Error>): (r: string)
    ensures err.None? ==> r == ""
    ensures err.Some? ==> r == err.value.Text()
  {
    if err.None? then "" else err.value.Text()
  }

  /** A page never shows both: when the success message is shown there was
      no error, so the error message is empty, and an error empties the
      success message. */
  lemma MessagesExclusive(err: Option<Error>, msg: string)
    ensures SuccessMessage(err, msg) == "" || ErrorMessage(err) == ""
    ensures msg != "" ==> (SuccessMessage(err, msg) != "" <==> err.None?)
  {
  }

  // ---------------------------------------------------------------------
  // Parsing form values

  /** A 64-bit floating point value, as far as the comparisons of the
      handlers can tell: a finite value, an infinity or NaN. Rounding is
      not modelled. */
  datatype Float = Finite(value: real) | Infinity(negative: bool) | NaN

  const Zero := Finite(0.0)

  /** IEEE 754 `a < b`: false whenever either side is NaN. */
  predicate Less(a: Float, b: Float)
  {
    match (a, b)
    case (Finite(x), Finite(y)) => x < y
    case (Infinity(na), Finite(_)) => na
    case (Finite(_), Infinity(nb)) => !nb
    case (Infinity(na), Infinity(nb)) => na && !nb
    case _ => false
  }

  /** NaN is neither below nor above any value. */
  lemma NaNIncomparable(x: Float)
    ensures !Less(NaN, x) && !Less(x, NaN)
  {
  }

  /** On finite values the comparison is the order of the reals, and a
      value is never below itself. */
  lemma LessFinite(x: real, y: real, f: Float)
    ensures Less(Finite(x), Finite(y)) <==> x < y
    ensures !Less(f, f)
  {
  }

  /** `parseFloat`, on the result of `strconv.ParseFloat` for the text. */
  function ParseFloat(val: string, parse: string -> Option<Float>): (r: (Float, bool))
    ensures r.1 <==> parse(val).Some?
    ensures r.0 == (if r.1 then parse(val).value else Zero)
  {
    match parse(val)
    case Some(f) => (f, true)
    case None => (Zero, false)
  }

  /** `parseOptionalFloat`: like `parseFloat`, but an empty value is zero
      and accepted. */
  function ParseOptionalFloat(val: string, parse: string -> Option<Float>): (r: (Float, bool))
    ensures val == "" ==> r == (Zero, true)
  {
    if val == "" then (Zero, true) else ParseFloat(val, parse)
  }

  /** An optional value is rejected iff it is not empty and does not
      parse; otherwise it is the parsed value, or zero when empty. */
  lemma OptionalFloatAgrees(val: string, parse: string -> Option<Float>)
    ensures !ParseOptionalFloat(val, parse).1 <==> val != "" && parse(val).None?
    ensures val != "" ==> ParseOptionalFloat(val, parse) == ParseFloat(val, parse)
    ensures ParseOptionalFloat(val, parse).1 ==>
      ParseOptionalFloat(val, parse).0 == (if val == "" then Zero else parse(val).value)
  {
  }

  /** A point in time, as nanoseconds since the epoch; `ZeroTime` stands
      for Go's zero `time.Time{}`. */
  datatype Time = Time(nanos: int)

  const ZeroTime := Time(0)

  /** `parseTimestamp`, given the current time and the RFC 3339 parser:
      an empty value is the current time. */
  function ParseTimestamp(val: string, now: Time, parseRFC3339: string -> Option<Time>): (r: (Time, bool))
    ensures val == "" ==> r == (now, true)
    ensures val != "" ==> (r.1 <==> parseRFC3339(val).Some?)
    ensures val != "" ==> r.0 == (if r.1 then parseRFC3339(val).value else ZeroTime)
  {
    if val == "" then (now, true)
    else match parseRFC3339(val)
      case Some(t) => (t, true)
      case None => (ZeroTime, false)
  }

  const TimeStringError := "Could not parse time string."

  /** `parseTimeString`, given the parser for the `hwclock` layout (its
      error text on failure): the parsed time and no error, or the zero
      time and a client error, which an empty value always is. */
  function ParseTimeString(timeStr: string, parseHwclock: string -> Result<Time>): (r: (Time, Option<Error>))
    ensures timeStr == "" ==> r == (ZeroTime, Some(ClientError(TimeStringError)))
    ensures timeStr != "" && parseHwclock(timeStr).Failure? ==>
      r == (ZeroTime, Some(ClientError(TimeStringError + parseHwclock(timeStr).error)))
    ensures timeStr != "" && parseHwclock(timeStr).Ok? ==> r == (parseHwclock(timeStr).value, None)
    ensures r.1.Some? ==> IsClientError(r.1.value)
  {
    if timeStr == "" then (ZeroTime, Some(ClientError(TimeStringError)))
    else match parseHwclock(timeStr)
      case Ok(t) => (t, None)
      case Failure(e) => (ZeroTime, Some(ClientError(TimeStringError + e)))
  }

  /** The empty value is accepted by the optional parsers and rejected by
      `parseTimeString`, whatever the underlying parsers do, and every
      failure of `parseTimeString` is a client error whose text starts
      with the same message. */
  lemma EmptyValueRules(now: Time, parse: string -> Option<Float>,
                        parseRFC3339: string -> Option<Time>, parseHwclock: string -> Result<Time>,
                        timeStr: string)
    ensures ParseOptionalFloat("", parse) == (Zero, true)
    ensures ParseTimestamp("", now, parseRFC3339) == (now, true)
    ensures ParseTimeString("", parseHwclock).1.Some?
    ensures ParseTimeString(timeStr, parseHwclock).1.Some? ==>
      var err := ParseTimeString(timeStr, parseHwclock).1.value;
      IsClientError(err) && |TimeStringError| <= |err.Text()|
      && err.Text()[..|TimeStringError|] == TimeStringError
  {
    if timeStr != "" && parseHwclock(timeStr).Failure? {
      var e := parseHwclock(timeStr).error;
      assert (TimeStringError + e)[..|TimeStringError|] == TimeStringError;
    }
  }

  // ---------------------------------------------------------------------
  // reverse

  /** The elements in the opposite order. */
  function Reversed<T>(s: seq<T>): (r: seq<T>)
    ensures |r| == |s|
    ensures forall i :: 0 <= i < |s| ==> r[i] == s[|s| - 1 - i]
  {
    if s == [] then [] else Reversed(s[1..]) + [s[0]]
  }

  /** Reversing twice gives the original sequence. */
  lemma ReversedTwice<T>(s: seq<T>)
    ensures Reversed(Reversed(s)) == s
  {
  }

  /** Sequences of length 0 or 1 are their own reverse. */
  lemma ShortReversed<T>(s: seq<T>)
    requires |s| <= 1
    ensures Reversed(s) == s
  {
  }

  /** `reverse`: swaps element i with element len-1-i for every i below
      half the length. */
  method Reverse(ss: array<string>)
    modifies ss
    ensures ss[..] == Reversed(old(ss[..]))
  {
    var last := ss.Length - 1;
    var i := 0;
    while i < ss.Length / 2
      invariant 0 <= i <= ss.Length / 2
      invariant forall k :: 0 <= k < i ==> ss[k] == old(ss[last - k]) && ss[last - k] == old(ss[k])
      invariant forall k :: i <= k <= last - i ==> ss[k] == old(ss[k])
    {
      ss[i], ss[last - i] := ss[last - i], ss[i];
      i := i + 1;
    }
  }

  /** Reversing an array twice in place restores it. */
  method ReverseTwice(ss: array<string>)
    modifies ss
    ensures ss[..] == old(ss[..])
  {
    Reverse(ss);
    Reverse(ss);
    ReversedTwice(old(ss[..]));
  }
}
