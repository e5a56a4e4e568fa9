/**
 * The older audio test-recording panel (static/js/audiorecording.js). The
 * globals `intervalId` and `lastState` and what the page shows are the
 * fields of `LegacyAudioPanel`. Unlike the newer panel it only knows the
 * statuses 1 to 3, polls only after a test request was accepted, and
 * clears a timer without always forgetting its id.
 */
module AudioTestPanelLegacy {
  import opened Wrappers
  import opened AudioTestPanel

  class LegacyAudioPanel {
    var intervalId: Option<nat>
    var lastState: Option<int>
    /** The poll timers currently running. */
    var activeTimers: set<nat>
    var nextTimer: nat
    var buttonDisabled: bool
    var buttonText: string
    /** The status line; `None` when the handler assigned `undefined`. */
    var statusText: Option<string>
    /** Test-recording requests sent and not answered. */
    var pendingTests: nat
    var alerts: seq<string>

    /** At most one poll timer runs, and only the recorded one; the id may
        outlive its timer. */
    ghost predicate Valid()
      reads this
    {
      activeTimers <= Ids(intervalId)
    }

    constructor ()
      ensures Valid()
      ensures intervalId == None && lastState == None && activeTimers == {}
      ensures pendingTests == 0 && alerts == [] && statusText == Some("")
    {
      intervalId := None;
      lastState := None;
      activeTimers := {};
      nextTimer := 1;
      buttonDisabled := false;
      buttonText := IdleButtonText;
      statusText := Some("");
      pendingTests := 0;
      alerts := [];
    }

    /** `clearInterval(intervalId)`: stops the recorded timer, if any; the
        id itself is kept. */
    method StopTimer()
      requires Valid()
      modifies this
      ensures Valid() && activeTimers == {}
      ensures intervalId == old(intervalId) && lastState == old(lastState)
      ensures nextTimer == old(nextTimer) && pendingTests == old(pendingTests)
      ensures buttonDisabled == old(buttonDisabled) && buttonText == old(buttonText)
      ensures statusText == old(statusText) && alerts == old(alerts)
    {
      activeTimers := activeTimers - Ids(intervalId);
    }

    /** `takeTestRecording`: disables the button and sends the request. */
    method TakeTestRecording()
      modifies this
      ensures buttonDisabled && buttonText == "Making a test recording"
      ensures pendingTests == old(pendingTests) + 1
      ensures intervalId == old(intervalId) && lastState == old(lastState)
      ensures activeTimers == old(activeTimers) && nextTimer == old(nextTimer)
      ensures statusText == old(statusText) && alerts == old(alerts)
    {
      buttonText := "Making a test recording";
      buttonDisabled := true;
      pendingTests := pendingTests + 1;
    }

    /** The load event of a test request. A 200 is accepted iff the body is
        the exact acknowledgement: then the timer is replaced by one new
        one-second poll; otherwise the timer is stopped and the button
        enabled. A 200 always alerts the body; any other status alerts the
        error and leaves the timer alone. */
    method OnTestLoad(httpStatus: int, responseText: string)
      requires pendingTests > 0
      requires Valid()
      modifies this
      ensures Valid()
      ensures pendingTests == old(pendingTests) - 1 && lastState == old(lastState)
      ensures TestAccepted(httpStatus, responseText) ==>
        && intervalId == Some(old(nextTimer)) && activeTimers == {old(nextTimer)}
        && nextTimer == old(nextTimer) + 1
        && buttonDisabled == old(buttonDisabled) && buttonText == old(buttonText)
      ensures httpStatus == 200 && !TestAccepted(httpStatus, responseText) ==>
        && intervalId == old(intervalId) && activeTimers == {} && nextTimer == old(nextTimer)
        && !buttonDisabled && buttonText == IdleButtonText
      ensures httpStatus == 200 ==> alerts == old(alerts) + [responseText]
      ensures httpStatus != 200 ==>
        && alerts == old(alerts) + [ErrorPrefix + responseText]
        && intervalId == old(intervalId) && activeTimers == old(activeTimers)
        && nextTimer == old(nextTimer)
        && buttonDisabled == old(buttonDisabled) && buttonText == old(buttonText)
      ensures statusText == old(statusText)
    {
      pendingTests := pendingTests - 1;
      if httpStatus == 200 {
        var success := responseText == AskedForTestRecording;
        if !success {
          StopTimer();
          buttonDisabled := false;
          buttonText := IdleButtonText;
        } else {
          StopTimer();
          intervalId := Some(nextTimer);
          activeTimers := {nextTimer};
          nextTimer := nextTimer + 1;
        }
        alerts := alerts + [responseText];
      } else {
        alerts := alerts + [ErrorPrefix + responseText];
      }
    }

    /** The error event of a test request or a status request. */
    method OnRequestError(responseText: string)
      modifies this
      ensures alerts == old(alerts) + [ErrorPrefix + responseText]
      ensures intervalId == old(intervalId) && lastState == old(lastState)
      ensures activeTimers == old(activeTimers) && nextTimer == old(nextTimer)
      ensures buttonDisabled == old(buttonDisabled) && buttonText == old(buttonText)
      ensures statusText == old(statusText) && pendingTests == old(pendingTests)
    {
      alerts := alerts + [ErrorPrefix + responseText];
    }

    /** The load event of a status request with `Number(response)`. Only a
        200 is acted on. Status 1 stops polling only when a state is
        remembered, and otherwise assigns `undefined` to the status line;
        2 and 3 remember the state; any other status stops the timer and
        enables the button but keeps the remembered state. */
    method OnStatusLoad(httpStatus: int, state: int)
      requires Valid()
      modifies this
      ensures Valid()
      ensures alerts == old(alerts) && pendingTests == old(pendingTests) && nextTimer == old(nextTimer)
      ensures httpStatus != 200 ==>
        && intervalId == old(intervalId) && lastState == old(lastState)
        && activeTimers == old(activeTimers) && statusText == old(statusText)
        && buttonDisabled == old(buttonDisabled) && buttonText == old(buttonText)
      ensures httpStatus == 200 && state == 1 && old(lastState).Some? ==>
        && intervalId == None && lastState == None && activeTimers == {}
        && statusText == Some("") && !buttonDisabled && buttonText == IdleButtonText
      ensures httpStatus == 200 && state == 1 && old(lastState).None? ==>
        && intervalId == old(intervalId) && lastState == None
        && activeTimers == old(activeTimers) && statusText == None
        && buttonDisabled == old(buttonDisabled) && buttonText == old(buttonText)
      ensures httpStatus == 200 && state == 2 ==>
        && lastState == Some(2) && statusText == Some("Test Recording Pending")
        && intervalId == old(intervalId) && activeTimers == old(activeTimers)
        && buttonDisabled == old(buttonDisabled) && buttonText == old(buttonText)
      ensures httpStatus == 200 && state == 3 ==>
        && lastState == Some(3) && statusText == Some("Taking Test Recording")
        && intervalId == old(intervalId) && activeTimers == old(activeTimers)
        && buttonDisabled == old(buttonDisabled) && buttonText == old(buttonText)
      ensures httpStatus == 200 && !(1 <= state <= 3) ==>
        && intervalId == None && lastState == old(lastState) && activeTimers == {}
        && statusText == Some("unknow state") && !buttonDisabled && buttonText == IdleButtonText
    {
      if httpStatus != 200 {
        return;
      }
      var text: Option<string> := None;
      if state == 1 {
        if lastState.Some? {
          StopTimer();
          lastState := None;
          intervalId := None;
          text := Some("");
          buttonDisabled := false;
          buttonText := IdleButtonText;
        }
      } else if state == 2 {
        lastState := Some(state);
        text := Some("Test Recording Pending");
      } else if state == 3 {
        lastState := Some(state);
        text := Some("Taking Test Recording");
      } else {
        text := Some("unknow state");
        StopTimer();
        intervalId := None;
        buttonDisabled := false;
        buttonText := IdleButtonText;
      }
      statusText := text;
    }
  }

  /** A refused test request stops polling but keeps the old id, so a
      later accepted request still finds at most one timer running. */
  method RefusedThenAccepted() returns (afterRefusal: nat, staleId: bool, afterAcceptance: nat)
    ensures afterRefusal == 0 && staleId && afterAcceptance == 1
  {
    var panel := new LegacyAudioPanel();
    panel.TakeTestRecording();
    panel.OnTestLoad(200, AskedForTestRecording);
    panel.TakeTestRecording();
    panel.OnTestLoad(200, "busy");
    afterRefusal := |panel.activeTimers|;
    staleId := panel.intervalId.Some?;
    panel.TakeTestRecording();
    panel.OnTestLoad(200, AskedForTestRecording);
    afterAcceptance := |panel.activeTimers|;
  }

  /** An idle status before any other leaves `undefined` on the status
      line, while after a pending status it clears the line and stops
      polling. */
  method IdleStatusText() returns (first: Option<string>, afterPending: Option<string>)
    ensures first == None && afterPending == Some("")
  {
    var panel := new LegacyAudioPanel();
    panel.OnStatusLoad(200, 1);
    first := panel.statusText;
    panel.OnStatusLoad(200, 2);
    panel.OnStatusLoad(200, 1);
    afterPending := panel.statusText;
  }
}
