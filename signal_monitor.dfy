/**
 * The modem signal indicator (static/js/signal.js): the page polls the
 * signal strength, lights one bar per unit of strength, and backs off its
 * polling after repeated failures.
 *
 * The globals `refreshTime` and `signalFails` and the visible state of the
 * five bars and the "unavailable" marker are the fields of `SignalMonitor`;
 * re-checks scheduled with `setTimeout` are recorded with their delays.
 */
module SignalMonitor {
  import opened Text

  const RefreshMillis := 2000
  const MaxRefreshDelayMillis := 10000
  const ClearSignalAttempts := 3
  const Bars := 5

  datatype BarClass = Signal | NoSignal

  /** The bar classes for a strength: bar i (1-based) is lit iff
      i <= strength. `parseInt` may give NaN, which compares false with
      everything and so lights nothing. */
  function BarsFor(strength: ParsedInt): (r: seq<BarClass>)
    ensures |r| == Bars
  {
    seq(Bars, i requires 0 <= i < Bars =>
      if strength.Num? && i + 1 <= strength.n then Signal else NoSignal)
  }

  /** The result of `parseInt`: a number or NaN. */
  datatype ParsedInt = Num(n: int) | NaN

  /** The first `k` of `n` bars lit, the rest dark. */
  function Lights(n: nat, k: int): (r: seq<BarClass>)
    ensures |r| == n
  {
    seq(n, i requires 0 <= i < n => if i < k then Signal else NoSignal)
  }

  /** The number of lit bars. */
  function LitCount(b: seq<BarClass>): nat
  {
    if b == [] then 0 else LitCount(b[..|b| - 1]) + (if b[|b| - 1] == Signal then 1 else 0)
  }

  lemma {:induction false} LightsCount(n: nat, k: int)
    ensures LitCount(Lights(n, k)) == if k <= 0 then 0 else if k >= n then n else k
  {
    if n > 0 {
      assert Lights(n, k)[..n - 1] == Lights(n - 1, k);
      LightsCount(n - 1, k);
    }
  }

  /** A strength lights the lowest bars, as many as the strength allows
      between none and all five; NaN lights none. */
  lemma BarsForLights(strength: ParsedInt)
    ensures strength.NaN? ==> LitCount(BarsFor(strength)) == 0
    ensures strength.Num? ==>
      LitCount(BarsFor(strength)) == if strength.n <= 0 then 0 else if strength.n >= Bars then Bars else strength.n
    ensures forall i, j :: 0 <= i < j < Bars && BarsFor(strength)[j] == Signal ==> BarsFor(strength)[i] == Signal
  {
    var k := if strength.Num? then strength.n else 0;
    assert BarsFor(strength) == Lights(Bars, k);
    LightsCount(Bars, k);
  }

  /** `refreshTime` after one more failure, given the failure count after
      it: from the third failure in a row it grows by `refreshMillis` and
      is at least `maxRefreshDelayMillis`. */
  function RefreshAfterFailure(fails: int, refresh: int): int
  {
    if fails >= ClearSignalAttempts then
      var grown := refresh + RefreshMillis;
      if grown >= MaxRefreshDelayMillis then grown else MaxRefreshDelayMillis
    else refresh
  }

  /** The delay after `k` failures in a row that follow a success. */
  function DelayAfterStreak(k: nat): int
  {
    if k == 0 then RefreshMillis else RefreshAfterFailure(k, DelayAfterStreak(k - 1))
  }

  /** A failure streak keeps the normal delay for two failures, jumps to
      `maxRefreshDelayMillis` at the third and then grows by
      `refreshMillis` per failure, without an upper bound. */
  lemma {:induction false} StreakClosedForm(k: nat)
    ensures k < ClearSignalAttempts ==> DelayAfterStreak(k) == RefreshMillis
    ensures k >= ClearSignalAttempts ==>
      DelayAfterStreak(k) == MaxRefreshDelayMillis + RefreshMillis * (k - ClearSignalAttempts)
  {
    if k > 0 {
      StreakClosedForm(k - 1);
    }
  }

  /** The delay never drops below the normal one and never shrinks along a
      streak. */
  lemma StreakMonotone(k: nat)
    ensures RefreshMillis <= DelayAfterStreak(k) <= DelayAfterStreak(k + 1)
  {
    StreakClosedForm(k);
    StreakClosedForm(k + 1);
  }

  /** The failure text logged for a response that is not a 200. */
  function StatusFailureText(status: int, response: string): string
  {
    "status:" + IntToString(status) + " response:" + response
  }

  class SignalMonitor {
    var refreshTime: int
    var signalFails: int
    var bars: seq<BarClass>
    var unavailableShown: bool
    var noModem: bool
    /** Failure messages written to the console. */
    var logged: seq<string>
    /** The delays of the re-checks scheduled so far, in order. */
    var rechecks: seq<int>

    /** The page has its five bars. */
    ghost predicate Valid()
      reads this
    {
      |bars| == Bars
    }

    /** The page as loaded, with the first request sent. */
    constructor ()
      ensures refreshTime == RefreshMillis && signalFails == 0
      ensures logged == [] && rechecks == []
      ensures Valid()
    {
      refreshTime := RefreshMillis;
      signalFails := 0;
      bars := BarsFor(NaN);
      unavailableShown := false;
      noModem := false;
      logged := [];
      rechecks := [];
    }

    /** `handleSignalSuccess`: resets the backoff, shows the marker only for
        strength 0, and sets each bar's class in a loop over the bars. */
    method HandleSignalSuccess(strength: ParsedInt)
      requires Valid()
      modifies this
      ensures Valid()
      ensures signalFails == 0 && refreshTime == RefreshMillis
      ensures bars == BarsFor(strength)
      ensures unavailableShown <==> strength == Num(0)
      ensures unavailableShown ==> !noModem
      ensures noModem == (if unavailableShown then false else old(noModem))
      ensures logged == old(logged) && rechecks == old(rechecks)
    {
      signalFails := 0;
      refreshTime := RefreshMillis;
      unavailableShown := false;
      if strength == Num(0) {
        unavailableShown := true;
        noModem := false;
      }
      var i := 1;
      var newBars := bars;
      while i <= Bars
        invariant 1 <= i <= Bars + 1 && |newBars| == Bars
        invariant forall j :: 0 <= j < i - 1 ==> newBars[j] == BarsFor(strength)[j]
      {
        if strength.Num? && i <= strength.n {
          newBars := newBars[i - 1 := Signal];
        } else {
          newBars := newBars[i - 1 := NoSignal];
        }
        i := i + 1;
      }
      bars := newBars;
    }

    /** `handleSignalFailure`: shows the no-modem marker, darkens every bar,
        logs only the first failure of a streak, counts it and backs off. */
    method HandleSignalFailure(errorMessage: string)
      requires Valid()
      modifies this
      ensures Valid()
      ensures signalFails == old(signalFails) + 1
      ensures refreshTime == RefreshAfterFailure(signalFails, old(refreshTime))
      ensures logged == old(logged) + (if old(signalFails) == 0 then [errorMessage] else [])
      ensures bars == BarsFor(NaN) && unavailableShown && noModem
      ensures rechecks == old(rechecks)
    {
      unavailableShown := true;
      noModem := true;
      bars := BarsFor(NaN);
      if signalFails == 0 {
        logged := logged + [errorMessage];
      }
      signalFails := signalFails + 1;
      if signalFails >= ClearSignalAttempts {
        refreshTime := refreshTime + RefreshMillis;
        refreshTime := if refreshTime >= MaxRefreshDelayMillis then refreshTime else MaxRefreshDelayMillis;
      }
    }

    /** The request's load event with the HTTP status and the response
        text; `strength` is `parseInt` of the response. 200 is a success,
        anything else a failure with the status and response as its text;
        either way exactly one re-check is scheduled with the delay then
        current. */
    method OnLoad(status: int, response: string, strength: ParsedInt)
      requires Valid()
      modifies this
      ensures Valid()
      ensures status == 200 ==>
        && signalFails == 0 && refreshTime == RefreshMillis && bars == BarsFor(strength)
        && (unavailableShown <==> strength == Num(0))
        && noModem == (if unavailableShown then false else old(noModem))
        && logged == old(logged)
      ensures status != 200 ==>
        && signalFails == old(signalFails) + 1 && refreshTime == RefreshAfterFailure(signalFails, old(refreshTime))
        && logged == old(logged) + (if old(signalFails) == 0 then [StatusFailureText(status, response)] else [])
        && bars == BarsFor(NaN) && unavailableShown && noModem
      ensures rechecks == old(rechecks) + [refreshTime]
    {
      if status == 200 {
        HandleSignalSuccess(strength);
      } else {
        HandleSignalFailure(StatusFailureText(status, response));
      }
      rechecks := rechecks + [refreshTime];
    }

    /** The request's error event: a failure, then one re-check. */
    method OnError()
      requires Valid()
      modifies this
      ensures Valid()
      ensures signalFails == old(signalFails) + 1
      ensures refreshTime == RefreshAfterFailure(signalFails, old(refreshTime))
      ensures logged == old(logged)
        + (if old(signalFails) == 0 then ["error occurred accessing /api/signal-strength"] else [])
      ensures bars == BarsFor(NaN) && unavailableShown && noModem
      ensures rechecks == old(rechecks) + [refreshTime]
    {
      HandleSignalFailure("error occurred accessing /api/signal-strength");
      rechecks := rechecks + [refreshTime];
    }
  }

  /** After a success and then `k` failed requests, the page polls again
      after `DelayAfterStreak(k)`. */
  method FailureStreak(k: nat) returns (delay: int)
    ensures delay == DelayAfterStreak(k)
    ensures k >= ClearSignalAttempts ==> delay == MaxRefreshDelayMillis + RefreshMillis * (k - ClearSignalAttempts)
  {
    var m := new SignalMonitor();
    m.OnLoad(200, "3", Num(3));
    var i := 0;
    while i < k
      invariant 0 <= i <= k
      invariant m.Valid() && m.signalFails == i && m.refreshTime == DelayAfterStreak(i)
      modifies m
    {
      m.OnError();
      i := i + 1;
    }
    delay := m.refreshTime;
    StreakClosedForm(k);
  }
}
