/**
 * The older camera page (static/js/camera.js): instead of a websocket it
 * asks the daemon for a new snapshot, shows it, and asks again half a
 * second later, until a message cap is reached or a request fails.
 *
 * The page's globals `snapshotCount` and `snapshotLimit` and the visible
 * state of the image and the stop panel are the fields of `SnapshotLoop`.
 * A request in flight and a pending `setTimeout(updateSnapshotLoop, 500)`
 * are counted, since nothing stops two loops from running at once.
 */
module SnapshotPage {

  const DefaultSnapshotLimit := 200
  const MaxSafeInteger := 9007199254740991
  const RetryMillis := 500
  const TimeoutMessage := "Timeout for camera viewing."
  const StatusErrorMessage := "Error getting new snapshot."
  const NetworkErrorMessage := "Error getting new snapshot"

  class SnapshotLoop {
    var snapshotCount: int
    var snapshotLimit: int
    /** Snapshot requests sent and not yet answered. */
    var inFlight: nat
    /** `updateSnapshotLoop` calls scheduled and not yet run. */
    var timers: nat
    /** Snapshot requests sent so far. */
    var requests: nat
    /** Times the image source was refreshed. */
    var refreshed: nat
    var stopShown: bool
    var imageShown: bool
    var stopMessage: string

    /** One loop at most, and it is running exactly while the stop panel is
        hidden; a running loop has not used up the cap. */
    ghost predicate SingleRun()
      reads this
    {
      && inFlight + timers <= 1
      && (stopShown <==> inFlight + timers == 0)
      && (inFlight + timers == 1 ==> snapshotCount < snapshotLimit)
      && 0 <= snapshotCount <= snapshotLimit
      && 0 < snapshotLimit
    }

    /** `window.onload`: the cap is lifted by `timeout=off`, and the first
        request goes out. */
    constructor (timeoutOff: bool)
      ensures snapshotLimit == if timeoutOff then MaxSafeInteger else DefaultSnapshotLimit
      ensures snapshotCount == 0 && inFlight == 1 && timers == 0 && requests == 1
      ensures refreshed == 0 && !stopShown && imageShown
      ensures SingleRun()
    {
      snapshotCount := 0;
      snapshotLimit := if timeoutOff then MaxSafeInteger else DefaultSnapshotLimit;
      inFlight := 1;
      timers := 0;
      requests := 1;
      refreshed := 0;
      stopShown := false;
      imageShown := true;
      stopMessage := "";
    }

    /** `updateSnapshotLoop`: one PUT /api/camera/snapshot request. */
    method UpdateSnapshotLoop()
      modifies this
      ensures inFlight == old(inFlight) + 1 && requests == old(requests) + 1
      ensures timers == old(timers) && snapshotCount == old(snapshotCount)
      ensures snapshotLimit == old(snapshotLimit) && refreshed == old(refreshed)
      ensures stopShown == old(stopShown) && imageShown == old(imageShown)
      ensures stopMessage == old(stopMessage)
    {
      inFlight := inFlight + 1;
      requests := requests + 1;
    }

    /** `stopSnapshots(message)`: shows the message and the stop panel and
        hides the image. */
    method StopSnapshots(message: string)
      modifies this
      ensures stopShown && !imageShown && stopMessage == message
      ensures inFlight == old(inFlight) && timers == old(timers) && requests == old(requests)
      ensures snapshotCount == old(snapshotCount) && snapshotLimit == old(snapshotLimit)
      ensures refreshed == old(refreshed)
    {
      stopMessage := message;
      stopShown := true;
      imageShown := false;
    }

    /** The request's load event with its HTTP status. A 200 refreshes the
        image and counts; the next request is scheduled iff the count is
        still under the cap, otherwise viewing stops. Any other status stops
        viewing with an error and schedules nothing. */
    method OnLoad(status: int)
      requires inFlight > 0
      modifies this
      ensures inFlight == old(inFlight) - 1 && requests == old(requests)
      ensures snapshotLimit == old(snapshotLimit)
      ensures status == 200 ==>
        && snapshotCount == old(snapshotCount) + 1 && refreshed == old(refreshed) + 1
        && (snapshotCount < snapshotLimit ==>
              && timers == old(timers) + 1 && stopShown == old(stopShown) && stopMessage == old(stopMessage)
              && imageShown == old(imageShown))
        && (snapshotCount >= snapshotLimit ==>
              timers == old(timers) && stopShown && !imageShown && stopMessage == TimeoutMessage)
      ensures status != 200 ==>
        && snapshotCount == old(snapshotCount) && refreshed == old(refreshed) && timers == old(timers)
        && stopShown && !imageShown && stopMessage == StatusErrorMessage
      ensures old(SingleRun()) ==> SingleRun()
    {
      inFlight := inFlight - 1;
      if status == 200 {
        refreshed := refreshed + 1;
        snapshotCount := snapshotCount + 1;
        if snapshotCount < snapshotLimit {
          timers := timers + 1;
        } else {
          StopSnapshots(TimeoutMessage);
        }
      } else {
        StopSnapshots(StatusErrorMessage);
      }
    }

    /** The request's error event: viewing stops and nothing is scheduled. */
    method OnError()
      requires inFlight > 0
      modifies this
      ensures inFlight == old(inFlight) - 1 && timers == old(timers) && requests == old(requests)
      ensures snapshotCount == old(snapshotCount) && snapshotLimit == old(snapshotLimit)
      ensures refreshed == old(refreshed)
      ensures stopShown && !imageShown && stopMessage == NetworkErrorMessage
      ensures old(SingleRun()) ==> SingleRun()
    {
      inFlight := inFlight - 1;
      StopSnapshots(NetworkErrorMessage);
    }

    /** A scheduled `updateSnapshotLoop` runs. */
    method FireTimer()
      requires timers > 0
      modifies this
      ensures timers == old(timers) - 1 && inFlight == old(inFlight) + 1 && requests == old(requests) + 1
      ensures snapshotCount == old(snapshotCount) && snapshotLimit == old(snapshotLimit)
      ensures refreshed == old(refreshed) && stopShown == old(stopShown) && imageShown == old(imageShown)
      ensures stopMessage == old(stopMessage)
      ensures old(SingleRun()) ==> SingleRun()
    {
      timers := timers - 1;
      UpdateSnapshotLoop();
    }

    /** `restartCameraViewing`: hides the stop panel, shows the image,
        resets the count and starts one new loop. Started from the stop
        panel, it leaves a single run again. */
    method RestartCameraViewing()
      modifies this
      ensures snapshotCount == 0 && !stopShown && imageShown
      ensures inFlight == old(inFlight) + 1 && timers == old(timers) && requests == old(requests) + 1
      ensures snapshotLimit == old(snapshotLimit) && refreshed == old(refreshed)
      ensures stopMessage == old(stopMessage)
      ensures old(SingleRun()) && old(stopShown) ==> SingleRun()
    {
      stopShown := false;
      imageShown := true;
      snapshotCount := 0;
      UpdateSnapshotLoop();
    }
  }

  /** With every request answered 200, a run shows exactly `snapshotLimit`
      snapshots and then stops with the timeout message. */
  method RunUntilCap() returns (snapshots: nat, stopped: bool, message: string)
    ensures snapshots == DefaultSnapshotLimit && stopped && message == TimeoutMessage
  {
    var page := new SnapshotLoop(false);
    while page.inFlight + page.timers > 0
      invariant page.SingleRun() && page.snapshotLimit == DefaultSnapshotLimit
      invariant page.refreshed == page.snapshotCount
      invariant page.stopShown ==> page.stopMessage == TimeoutMessage && page.snapshotCount == page.snapshotLimit
      modifies page
      decreases page.snapshotLimit - page.snapshotCount, page.timers
    {
      if page.timers > 0 {
        page.FireTimer();
      } else {
        page.OnLoad(200);
      }
    }
    snapshots := page.refreshed;
    stopped := page.stopShown;
    message := page.stopMessage;
  }
}
