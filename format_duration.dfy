/**
 * The duration formatter of the configuration page (static/js/config.js):
 * a count of nanoseconds becomes "1h2m3s", leaving out a zero hour or
 * minute part but always showing the seconds.
 *
 * The argument is a JavaScript value: `None` stands for `undefined` and
 * `null`, which like 0 are falsy. Only whole nanosecond counts are modelled.
 */
module ConfigPage {
  import opened Wrappers
  import opened Text

  const NanosPerSecond := 1_000_000_000

  /** The quotient rounded toward zero. */
  function TruncDiv(a: int, b: int): int
    requires b > 0
  {
    if a >= 0 then a / b else -((-a) / b)
  }

  /** JavaScript's `%` for a positive divisor: what is left of the dividend
      after taking away the divisor times the quotient rounded toward zero,
      so the remainder takes the sign of the dividend. */
  function JsRem(a: int, b: int): (r: int)
    requires b > 0
    ensures r == a - b * TruncDiv(a, b)
    ensures a >= 0 ==> 0 <= r < b
    ensures a < 0 ==> -b < r <= 0
  {
    if a >= 0 then a % b else -((-a) % b)
  }

  /** JavaScript's `%` is odd in the dividend: negating the dividend
      negates the remainder. */
  lemma JsRemOdd(a: int, b: int)
    requires b > 0
    ensures JsRem(-a, b) == -JsRem(a, b)
  {
  }

  /** `Math.floor(a / b)` for a positive divisor: Dafny's division rounds
      down when the divisor is positive. */
  function FloorDiv(a: int, b: int): (r: int)
    requires b > 0
    ensures r * b <= a < r * b + b
  {
    a / b
  }

  /** The hours, minutes and seconds parts `formatDuration` computes from a
      number of whole seconds. */
  datatype Parts = Parts(hours: int, minutes: int, seconds: int)

  function Split3(s: int): Parts
  {
    Parts(FloorDiv(s, 3600), FloorDiv(JsRem(s, 3600), 60), JsRem(s, 60))
  }

  /** The rendering of the parts: the "h" part only for positive hours, the
      "m" part only for positive minutes, the "s" part always. */
  function Render(p: Parts): string
  {
    (if p.hours > 0 then IntToString(p.hours) + "h" else "")
    + (if p.minutes > 0 then IntToString(p.minutes) + "m" else "")
    + IntToString(p.seconds) + "s"
  }

  /** `formatDuration(nanoseconds)`. A falsy argument gives the empty
      string; any other gives a text ending in the seconds part. */
  function FormatDuration(nanoseconds: Option<int>): (r: string)
    ensures r == "" <==> nanoseconds == None || nanoseconds == Some(0)
    ensures r != "" ==> r[|r| - 1] == 's'
  {
    if nanoseconds == None || nanoseconds == Some(0) then ""
    else Render(Split3(FloorDiv(nanoseconds.value, NanosPerSecond)))
  }

  /** For a non-negative number of seconds the three parts are a proper
      decomposition: minutes and seconds below 60, adding back up to the
      whole. */
  lemma Decomposition(s: int)
    requires s >= 0
    ensures var p := Split3(s);
      && p.hours >= 0 && 0 <= p.minutes < 60 && 0 <= p.seconds < 60
      && p.hours * 3600 + p.minutes * 60 + p.seconds == s
  {
    var q := s / 3600;
    var r := s % 3600;
    var m := r / 60;
    var t := r % 60;
    assert s == q * 3600 + m * 60 + t;
    assert s == (q * 60 + m) * 60 + t;
    DivModUnique(s, q * 60 + m, t);
  }

  /** Division by 60 has one quotient and one remainder. */
  lemma DivModUnique(s: int, x: int, t: int)
    requires 0 <= t < 60 && s == x * 60 + t
    ensures s % 60 == t && s / 60 == x
  {
  }

  /** No decimal rendering contains a unit letter. */
  lemma DigitsOnly(n: int)
    ensures 'h' !in IntToString(n) && 'm' !in IntToString(n)
  {
  }

  /** For a non-negative duration the "h" unit appears iff there is at least
      an hour, and the "m" unit iff the minutes part is positive. */
  lemma UnitsShown(nanoseconds: int)
    requires nanoseconds > 0
    ensures var s := nanoseconds / NanosPerSecond;
      && ('h' in FormatDuration(Some(nanoseconds)) <==> s >= 3600)
      && ('m' in FormatDuration(Some(nanoseconds)) <==> s % 3600 >= 60)
  {
    var s := nanoseconds / NanosPerSecond;
    var p := Split3(s);
    Decomposition(s);
    DigitsOnly(p.hours);
    DigitsOnly(p.minutes);
    DigitsOnly(p.seconds);
    var hPart := if p.hours > 0 then IntToString(p.hours) + "h" else "";
    var mPart := if p.minutes > 0 then IntToString(p.minutes) + "m" else "";
    var sPart := IntToString(p.seconds) + "s";
    assert FormatDuration(Some(nanoseconds)) == hPart + mPart + sPart;
    assert 'h' !in mPart && 'h' !in sPart && 'm' !in hPart && 'm' !in sPart;
    assert p.hours > 0 <==> s >= 3600;
    assert p.minutes == s % 3600 / 60;
  }

  /** An hour shows as "1h0s" and a minute as "1m0s": the seconds part is
      never left out, while a zero minute part is. */
  lemma HourExample()
    ensures FormatDuration(Some(3600 * NanosPerSecond)) == "1h0s"
  {
    assert FloorDiv(3600 * NanosPerSecond, NanosPerSecond) == 3600;
    assert Split3(3600) == Parts(1, 0, 0);
    assert IntToString(1) == "1" && IntToString(0) == "0";
  }

  lemma MinuteExample()
    ensures FormatDuration(Some(60 * NanosPerSecond)) == "1m0s"
  {
    assert FloorDiv(60 * NanosPerSecond, NanosPerSecond) == 60;
    assert Split3(60) == Parts(0, 1, 0);
    assert IntToString(1) == "1" && IntToString(0) == "0";
  }

  /** A negative count is not falsy: one nanosecond before zero floors to
      minus one second, and the truncating remainder keeps the sign. */
  lemma NegativeExample()
    ensures FormatDuration(Some(-1)) == "-1s"
  {
    assert FloorDiv(-1, NanosPerSecond) == -1;
    assert JsRem(-1, 3600) == -1 && JsRem(-1, 60) == -1;
    assert FloorDiv(-1, 3600) == -1 && FloorDiv(-1, 60) == -1;
    assert IntToString(-1) == "-1";
  }
}
