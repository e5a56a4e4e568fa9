/**
 * The audio test-recording panel (static/js/audiorecording.ts): the page
 * polls the recorder's status every second while a test recording is under
 * way, counts down before it starts, and asks the daemon for a test
 * recording when the button is pressed.
 *
 * The `AudioState` object and the global `countdown` are the fields of
 * `AudioPanel`, together with what the page shows (the status line and
 * the test button) and the timers and requests it has started. Interval
 * ids are handed out by the panel; the browser's are positive, so a
 * recorded id is always truthy. Responses arrive as method calls.
 */
module AudioTestPanel {
  import opened Wrappers
  import opened Text

  /** The exact body the daemon answers a test-recording request with. */
  const AskedForTestRecording := "\"Asked for a test recording\"\n"
  const IdleButtonText := "Take Test Recording"
  const ErrorPrefix := "error updating audio recording: "

  /** The fields `status` and `mode` of the recorder's JSON status. */
  datatype RecorderStatus = RecorderStatus(status: int, mode: int)

  /** The test-recording request was accepted. */
  predicate TestAccepted(httpStatus: int, responseText: string)
  {
    httpStatus == 200 && responseText == AskedForTestRecording
  }

  /** The ids of the timers an optional interval id stands for. */
  function Ids(id: Option<nat>): (r: set<nat>)
    ensures |r| <= 1
    ensures id.Some? ==> r == {id.value}
    ensures id.None? ==> r == {}
  {
    if id.Some? then {id.value} else {}
  }

  /** The status line for status 3 with the given countdown. */
  function CountdownText(countdown: int): string
  {
    if countdown == 0 then "Taking Test Recording"
    else "Taking Test Recording in " + IntToString(countdown) + "s"
  }

  /** The status line for status 4. */
  function BusyText(mode: int): string
  {
    "Already Taking " + (if mode == 1 then "an audio" else "a thermal") + " Recording"
  }

  class AudioPanel {
    var intervalId: Option<nat>
    var lastState: Option<int>
    var countdown: int
    /** The poll timers currently running. */
    var activeTimers: set<nat>
    var nextTimer: nat
    var buttonDisabled: bool
    var buttonText: string
    var statusText: string
    /** Test-recording requests sent and not answered; each says whether
        its response is checked. */
    var pendingTests: seq<bool>
    var alerts: seq<string>

    /** At most one poll timer runs, and it is the recorded one; a state
        is remembered only while polling; the countdown stays within 0..2. */
    ghost predicate Valid()
      reads this
    {
      && activeTimers == Ids(intervalId)
      && (lastState.Some? ==> intervalId.Some?)
      && 0 <= countdown <= 2
    }

    /** The page as loaded: no timer, no state, countdown 0. */
    constructor ()
      ensures Valid()
      ensures intervalId == None && lastState == None && countdown == 0
      ensures activeTimers == {} && pendingTests == [] && alerts == []
      ensures !buttonDisabled && statusText == ""
    {
      intervalId := None;
      lastState := None;
      countdown := 0;
      activeTimers := {};
      nextTimer := 1;
      buttonDisabled := false;
      buttonText := IdleButtonText;
      statusText := "";
      pendingTests := [];
      alerts := [];
    }

    /** `AudioState.clearInterval`: stops the recorded timer and forgets
        both the timer and the last state. */
    method ClearInterval()
      requires Valid()
      modifies this
      ensures Valid()
      ensures intervalId == None && lastState == None && activeTimers == {}
      ensures countdown == old(countdown) && nextTimer == old(nextTimer)
      ensures buttonDisabled == old(buttonDisabled) && buttonText == old(buttonText)
      ensures statusText == old(statusText)
      ensures pendingTests == old(pendingTests) && alerts == old(alerts)
    {
      activeTimers := activeTimers - Ids(intervalId);
      intervalId := None;
      lastState := None;
    }

    /** `AudioState.startPolling`: clears first, then starts one new
        one-second poll timer, which is then the only one. */
    method StartPolling()
      requires Valid()
      modifies this
      ensures Valid()
      ensures intervalId == Some(old(nextTimer)) && lastState == None
      ensures activeTimers == {old(nextTimer)}
      ensures nextTimer == old(nextTimer) + 1 && countdown == old(countdown)
      ensures buttonDisabled == old(buttonDisabled) && buttonText == old(buttonText)
      ensures statusText == old(statusText)
      ensures pendingTests == old(pendingTests) && alerts == old(alerts)
    {
      ClearInterval();
      intervalId := Some(nextTimer);
      activeTimers := {nextTimer};
      nextTimer := nextTimer + 1;
    }

    /** `enableRecButton`. */
    method EnableRecButton()
      requires Valid()
      modifies this
      ensures intervalId == None && lastState == None && activeTimers == {}
      ensures !buttonDisabled && buttonText == IdleButtonText
      ensures countdown == old(countdown) && nextTimer == old(nextTimer)
      ensures statusText == old(statusText)
      ensures pendingTests == old(pendingTests) && alerts == old(alerts)
      ensures Valid()
    {
      ClearInterval();
      buttonDisabled := false;
      buttonText := IdleButtonText;
    }

    /** `testAPICall(checkResponse)`: sends one test-recording request. */
    method TestAPICall(checkResponse: bool)
      modifies this
      ensures pendingTests == old(pendingTests) + [checkResponse]
      ensures intervalId == old(intervalId) && lastState == old(lastState)
      ensures activeTimers == old(activeTimers) && nextTimer == old(nextTimer)
      ensures countdown == old(countdown) && statusText == old(statusText)
      ensures buttonDisabled == old(buttonDisabled) && buttonText == old(buttonText)
      ensures alerts == old(alerts)
    {
      pendingTests := pendingTests + [checkResponse];
    }

    /** `takeTestRecording`: disables the button and sends a checked
        request. */
    method TakeTestRecording()
      modifies this
      ensures buttonDisabled && buttonText == "Making a test recording"
      ensures pendingTests == old(pendingTests) + [true]
      ensures intervalId == old(intervalId) && lastState == old(lastState)
      ensures activeTimers == old(activeTimers) && nextTimer == old(nextTimer)
      ensures countdown == old(countdown) && statusText == old(statusText)
      ensures alerts == old(alerts)
    {
      buttonText := "Making a test recording";
      buttonDisabled := true;
      TestAPICall(true);
    }

    /** The load event of pending test request `k`. Only a checked request
        has a handler: an accepted request restarts polling, anything else
        re-enables the button and raises an alert. */
    method OnTestLoad(k: nat, httpStatus: int, responseText: string)
      requires k < |pendingTests|
      requires Valid()
      modifies this
      ensures Valid()
      ensures pendingTests == old(pendingTests[..k] + pendingTests[k + 1..])
      ensures !old(pendingTests[k]) ==>
        && intervalId == old(intervalId) && lastState == old(lastState)
        && activeTimers == old(activeTimers) && alerts == old(alerts)
        && buttonDisabled == old(buttonDisabled) && buttonText == old(buttonText)
      ensures old(pendingTests[k]) && TestAccepted(httpStatus, responseText) ==>
        && intervalId == Some(old(nextTimer)) && activeTimers == {old(nextTimer)}
        && lastState == None && alerts == old(alerts)
        && buttonDisabled == old(buttonDisabled) && buttonText == old(buttonText)
      ensures old(pendingTests[k]) && !TestAccepted(httpStatus, responseText) ==>
        && intervalId == None && activeTimers == {} && lastState == None
        && !buttonDisabled && buttonText == IdleButtonText
        && alerts == old(alerts) + [ErrorPrefix + responseText]
      ensures countdown == old(countdown) && statusText == old(statusText)
    {
      var checked := pendingTests[k];
      pendingTests := pendingTests[..k] + pendingTests[k + 1..];
      if checked {
        if httpStatus == 200 {
          var success := responseText == AskedForTestRecording;
          if !success {
            EnableRecButton();
            alerts := alerts + [ErrorPrefix + responseText];
          } else {
            ClearInterval();
            StartPolling();
          }
        } else {
          EnableRecButton();
          alerts := alerts + [ErrorPrefix + responseText];
        }
      }
    }

    /** The error event of pending test request `k`. */
    method OnTestError(k: nat, responseText: string)
      requires k < |pendingTests|
      requires Valid()
      modifies this
      ensures Valid()
      ensures pendingTests == old(pendingTests[..k] + pendingTests[k + 1..])
      ensures intervalId == None && activeTimers == {} && lastState == None
      ensures !buttonDisabled && buttonText == IdleButtonText
      ensures alerts == old(alerts) + [ErrorPrefix + responseText]
      ensures countdown == old(countdown) && statusText == old(statusText)
    {
      pendingTests := pendingTests[..k] + pendingTests[k + 1..];
      EnableRecButton();
      alerts := alerts + [ErrorPrefix + responseText];
    }

    /** Status 1, idle: polling stops and the button is enabled again. */
    method OnIdle()
      requires Valid()
      modifies this
      ensures Valid()
      ensures countdown == 2 && intervalId == None && activeTimers == {} && lastState == None
      ensures statusText == "" && !buttonDisabled && buttonText == IdleButtonText
      ensures pendingTests == old(pendingTests) && alerts == old(alerts)
    {
      countdown := 2;
      ClearInterval();
      buttonDisabled := false;
      buttonText := IdleButtonText;
      statusText := "";
    }

    /** Status 2, pending: the countdown is reset and polling starts if no
        timer is recorded. Starting it clears the state just recorded. */
    method OnPending()
      requires Valid()
      modifies this
      ensures Valid()
      ensures countdown == 2 && statusText == "Test Recording Pending"
      ensures old(intervalId).None? ==>
        intervalId == Some(old(nextTimer)) && lastState == None && buttonDisabled
      ensures old(intervalId).Some? ==>
        intervalId == old(intervalId) && lastState == Some(2) && buttonDisabled == old(buttonDisabled)
      ensures buttonText == old(buttonText)
      ensures pendingTests == old(pendingTests) && alerts == old(alerts)
    {
      countdown := 2;
      // The state is recorded first and then cleared again by
      // `startPolling` when no timer is recorded.
      if intervalId.None? {
        StartPolling();
        buttonDisabled := true;
      } else {
        lastState := Some(2);
      }
      statusText := "Test Recording Pending";
    }

    /** Status 3, taking: shows the countdown and lowers it while it is
        positive; polling starts if no timer is recorded. */
    method OnTaking()
      requires Valid()
      modifies this
      ensures Valid()
      ensures statusText == CountdownText(old(countdown))
      ensures countdown == (if old(countdown) == 0 then 0 else old(countdown) - 1)
      ensures old(intervalId).None? ==>
        intervalId == Some(old(nextTimer)) && lastState == None && buttonDisabled
      ensures old(intervalId).Some? ==>
        intervalId == old(intervalId) && lastState == Some(3) && buttonDisabled == old(buttonDisabled)
      ensures buttonText == old(buttonText)
      ensures pendingTests == old(pendingTests) && alerts == old(alerts)
    {
      var text;
      if countdown == 0 {
        text := "Taking Test Recording";
      } else {
        text := "Taking Test Recording in " + IntToString(countdown) + "s";
        countdown := countdown - 1;
      }
      if intervalId.None? {
        StartPolling();
        buttonDisabled := true;
      } else {
        lastState := Some(3);
      }
      statusText := text;
    }

    /** Status 4, already recording: only on entry does it start polling
        and tell the recorder, with an unchecked request, to poll its
        state. */
    method OnBusy(mode: int)
      requires Valid()
      modifies this
      ensures Valid()
      ensures countdown == 2 && lastState == Some(4) && statusText == BusyText(mode)
      ensures old(lastState) != Some(4) ==>
        && intervalId == Some(old(nextTimer)) && buttonDisabled
        && buttonText == "Waiting for Recording to finish"
        && pendingTests == old(pendingTests) + [false]
      ensures old(lastState) == Some(4) ==>
        && intervalId == old(intervalId) && buttonDisabled == old(buttonDisabled)
        && buttonText == old(buttonText) && pendingTests == old(pendingTests)
      ensures alerts == old(alerts)
    {
      countdown := 2;
      var recType := if mode == 1 then "an audio" else "a thermal";
      if lastState != Some(4) {
        buttonDisabled := true;
        StartPolling();
        TestAPICall(false);
        buttonText := "Waiting for Recording to finish";
      }
      lastState := Some(4);
      statusText := "Already Taking " + recType + " Recording";
    }

    /** Any other status: polling stops and the button is enabled. */
    method OnUnknown()
      requires Valid()
      modifies this
      ensures Valid()
      ensures countdown == 0 && statusText == "unknow state"
      ensures intervalId == None && activeTimers == {} && lastState == None
      ensures !buttonDisabled && buttonText == IdleButtonText
      ensures pendingTests == old(pendingTests) && alerts == old(alerts)
    {
      countdown := 0;
      ClearInterval();
      buttonDisabled := false;
      buttonText := IdleButtonText;
      statusText := "unknow state";
    }

    /** The load event of a status request. The request asks for a JSON
        response, so `body` is `None` when the body is not JSON: reading
        `status` of the null response then throws and nothing changes.
        Otherwise it holds the recorder's `status` and `mode` (`Number(...)`;
        NaN matches no case and is any status outside 1..4 here). Only a 200
        response is acted on; it goes to the branch for its status. */
    method OnStatusLoad(httpStatus: int, body: Option<RecorderStatus>)
      requires Valid()
      modifies this
      ensures Valid()
      ensures alerts == old(alerts)
      ensures httpStatus != 200 || body.None? ==>
        && intervalId == old(intervalId) && lastState == old(lastState)
        && activeTimers == old(activeTimers) && nextTimer == old(nextTimer)
        && countdown == old(countdown) && statusText == old(statusText)
        && buttonDisabled == old(buttonDisabled) && buttonText == old(buttonText)
        && pendingTests == old(pendingTests)
      // 1: idle
      ensures httpStatus == 200 && body.Some? && body.value.status == 1 ==>
        && countdown == 2 && intervalId == None && activeTimers == {} && lastState == None
        && statusText == "" && !buttonDisabled && buttonText == IdleButtonText
        && pendingTests == old(pendingTests)
      // 2: pending
      ensures httpStatus == 200 && body.Some? && body.value.status == 2 ==>
        && countdown == 2 && statusText == "Test Recording Pending"
        && (old(intervalId).None? ==> intervalId == Some(old(nextTimer)) && lastState == None && buttonDisabled)
        && (old(intervalId).Some? ==>
              intervalId == old(intervalId) && lastState == Some(2) && buttonDisabled == old(buttonDisabled))
        && buttonText == old(buttonText) && pendingTests == old(pendingTests)
      // 3: taking
      ensures httpStatus == 200 && body.Some? && body.value.status == 3 ==>
        && statusText == CountdownText(old(countdown))
        && countdown == (if old(countdown) == 0 then 0 else old(countdown) - 1)
        && (old(intervalId).None? ==> intervalId == Some(old(nextTimer)) && lastState == None && buttonDisabled)
        && (old(intervalId).Some? ==>
              intervalId == old(intervalId) && lastState == Some(3) && buttonDisabled == old(buttonDisabled))
        && buttonText == old(buttonText) && pendingTests == old(pendingTests)
      // 4: already recording
      ensures httpStatus == 200 && body.Some? && body.value.status == 4 ==>
        && countdown == 2 && lastState == Some(4) && statusText == BusyText(body.value.mode)
        && (old(lastState) != Some(4) ==>
              && intervalId == Some(old(nextTimer)) && buttonDisabled
              && buttonText == "Waiting for Recording to finish"
              && pendingTests == old(pendingTests) + [false])
        && (old(lastState) == Some(4) ==>
              && intervalId == old(intervalId) && buttonDisabled == old(buttonDisabled)
              && buttonText == old(buttonText) && pendingTests == old(pendingTests))
      // anything else
      ensures httpStatus == 200 && body.Some? && !(1 <= body.value.status <= 4) ==>
        && countdown == 0 && statusText == "unknow state"
        && intervalId == None && activeTimers == {} && lastState == None
        && !buttonDisabled && buttonText == IdleButtonText
        && pendingTests == old(pendingTests)
    {
      if httpStatus != 200 || body.None? {
        return;
      }
      var state := body.value.status;
      if state == 1 {
        OnIdle();
      } else if state == 2 {
        OnPending();
      } else if state == 3 {
        OnTaking();
      } else if state == 4 {
        OnBusy(body.value.mode);
      } else {
        OnUnknown();
      }
    }

    /** The error event of a status request. `updateAudioError` reads
        `responseText`, which throws for a request whose `responseType` is
        "json", so the alert is never raised and nothing changes. */
    method OnStatusError()
      ensures unchanged(this)
    {
    }
  }

  /** A pending recording followed by three "taking" polls counts down
      "in 2s", "in 1s" and then stops counting; one poll timer runs
      throughout. */
  method CountdownRun() returns (texts: seq<string>, timers: nat)
    ensures texts == ["Test Recording Pending", "Taking Test Recording in 2s",
                      "Taking Test Recording in 1s", "Taking Test Recording"]
    ensures timers == 1
  {
    assert CountdownText(2) == "Taking Test Recording in 2s" by {
      assert IntToString(2) == "2";
    }
    assert CountdownText(1) == "Taking Test Recording in 1s" by {
      assert IntToString(1) == "1";
    }
    var panel := new AudioPanel();
    panel.OnStatusLoad(200, Some(RecorderStatus(2, 0)));
    texts := [panel.statusText];
    panel.OnStatusLoad(200, Some(RecorderStatus(3, 0)));
    texts := texts + [panel.statusText];
    panel.OnStatusLoad(200, Some(RecorderStatus(3, 0)));
    texts := texts + [panel.statusText];
    panel.OnStatusLoad(200, Some(RecorderStatus(3, 0)));
    texts := texts + [panel.statusText];
    timers := |panel.activeTimers|;
  }

  /** Two "already recording" polls in a row tell the recorder to poll its
      state once, not twice. */
  method BusyTwice() returns (requests: seq<bool>, timers: nat)
    ensures requests == [false] && timers == 1
  {
    var panel := new AudioPanel();
    panel.OnStatusLoad(200, Some(RecorderStatus(4, 1)));
    panel.OnStatusLoad(200, Some(RecorderStatus(4, 1)));
    requests := panel.pendingTests;
    timers := |panel.activeTimers|;
  }

  /** A refused test request leaves no poll timer and an enabled button; an
      accepted one leaves exactly one timer. */
  method TestOutcome(httpStatus: int, responseText: string) returns (timers: nat, enabled: bool)
    ensures TestAccepted(httpStatus, responseText) ==> timers == 1 && !enabled
    ensures !TestAccepted(httpStatus, responseText) ==> timers == 0 && enabled
  {
    var panel := new AudioPanel();
    panel.TakeTestRecording();
    panel.OnTestLoad(0, httpStatus, responseText);
    timers := |panel.activeTimers|;
    enabled := !panel.buttonDisabled;
  }
}
