/**
 * The browser end of the live camera view (static/js/camera.ts): the
 * websocket connection with its register/heartbeat handshake and automatic
 * reconnection, the cap on received messages, and the painting of a frame
 * into an RGBA buffer.
 *
 * Socket events and timers are explicit method calls (`OnOpen`, `OnClose`,
 * `OnMessage`, `FireTimeout`, `FireHeartbeat`); what the page does to the
 * outside world is appended to `effects`. The module-level `snapshotCount`
 * and `snapshotLimit` of the page are fields of the connection, since there
 * is only ever one connection per page.
 */
module CameraClient {
  import opened Wrappers
  import opened FrameCodec

  const DefaultSnapshotLimit := 200
  const MaxSafeInteger := 9007199254740991
  /** `retryConnection(5)`: five one-second steps before reconnecting. */
  const RetrySteps := 5
  const RetryStepMillis := 1000
  const RegisterPollMillis := 100
  const HeartbeatMillis := 5000
  const TimeoutMessage := "Timeout for camera viewing."

  datatype ConnectionState = Connecting | Connected | Disconnected

  /** The JSON text messages the client sends. */
  datatype ClientMessage = RegisterMessage(data: string, uuid: int) | HeartbeatMessage(uuid: int)

  /** A received websocket message: a Blob (a frame) or anything else. */
  datatype SocketMessage = Blob(bytes: seq<byte>) | Other(text: string)

  /** A pending `setTimeout` callback: `retryConnection(retryTime)` after
      `RetryStepMillis`, or `register()` again after `RegisterPollMillis`. */
  datatype Timeout = Retry(retryTime: int) | RegisterAgain

  /** What the page does that others can observe. */
  datatype Effect =
    | Opened(socket: nat)                 // new WebSocket(ws://host:port/ws)
    | Sent(socket: nat, msg: ClientMessage)
    | Reported(state: ConnectionState)    // onConnectionStateChange
    | FrameDelivered(frame: Option<Frame>) // onFrame, with null as None
    | CloseRequested(socket: nat)         // socket.close()
    | StopShown(message: string)          // stopSnapshots' message and panel
    | StopHidden                          // restartCameraViewing hides it

  class CameraConnection {
    /** The module-level UUID, fixed at page load. */
    const uuid: int
    const userAgent: string
    const snapshotLimit: int

    var closing: bool
    var socket: Option<nat>
    var prevFrameNum: int
    var skippedFramesServer: int
    /** The id last returned by `setInterval` for the heartbeat (0 before). */
    var heartbeatInterval: nat
    /** The heartbeat intervals that are still running. */
    var heartbeats: set<nat>
    var timeouts: seq<Timeout>
    var snapshotCount: int
    var effects: seq<Effect>
    var nextSocket: nat
    var nextTimer: nat

    ghost predicate Valid()
      reads this
    {
      && 0 < nextTimer
      && heartbeatInterval < nextTimer
      && (forall t :: t in heartbeats ==> 0 < t < nextTimer)
      && (socket.Some? ==> socket.value < nextSocket)
    }

    /** `window.onload`: the limit is raised when the page has `timeout=off`,
        then the connection is created and connects at once. */
    constructor (uuid: int, userAgent: string, timeoutOff: bool)
      ensures Valid()
      ensures this.uuid == uuid && this.userAgent == userAgent
      ensures snapshotLimit == if timeoutOff then MaxSafeInteger else DefaultSnapshotLimit
      ensures !closing && socket == Some(0) && nextSocket == 1
      ensures prevFrameNum == -1 && skippedFramesServer == 0 && snapshotCount == 0
      ensures heartbeats == {} && timeouts == []
      ensures effects == [Opened(0), Reported(Connecting)]
    {
      this.uuid := uuid;
      this.userAgent := userAgent;
      snapshotLimit := if timeoutOff then MaxSafeInteger else DefaultSnapshotLimit;
      closing := false;
      socket := None;
      prevFrameNum := -1;
      skippedFramesServer := 0;
      heartbeatInterval := 0;
      heartbeats := {};
      timeouts := [];
      snapshotCount := 0;
      effects := [];
      nextSocket := 0;
      nextTimer := 1;
      new;
      Connect();
    }

    /** `connect()`: clears `closing`, opens a new socket and reports
        Connecting. */
    method Connect()
      requires Valid()
      modifies this
      ensures Valid()
      ensures !closing && socket == Some(old(nextSocket)) && nextSocket == old(nextSocket) + 1
      ensures effects == old(effects) + [Opened(old(nextSocket)), Reported(Connecting)]
      ensures prevFrameNum == old(prevFrameNum) && skippedFramesServer == old(skippedFramesServer)
      ensures heartbeatInterval == old(heartbeatInterval) && heartbeats == old(heartbeats)
      ensures timeouts == old(timeouts) && snapshotCount == old(snapshotCount)
      ensures nextTimer == old(nextTimer)
    {
      closing := false;
      socket := Some(nextSocket);
      effects := effects + [Opened(nextSocket), Reported(Connecting)];
      nextSocket := nextSocket + 1;
    }

    /** `close()`: stops the current heartbeat, marks the connection as
        closing and asks the socket, if any, to close. The socket slot is
        only emptied by the close event. */
    method Close()
      requires Valid()
      modifies this
      ensures Valid()
      ensures closing && heartbeatInterval !in heartbeats
      ensures heartbeats == old(heartbeats) - {old(heartbeatInterval)}
      ensures effects == old(effects) + (if old(socket).Some? then [CloseRequested(old(socket).value)] else [])
      ensures socket == old(socket) && nextSocket == old(nextSocket) && nextTimer == old(nextTimer)
      ensures heartbeatInterval == old(heartbeatInterval) && timeouts == old(timeouts)
      ensures prevFrameNum == old(prevFrameNum) && skippedFramesServer == old(skippedFramesServer)
      ensures snapshotCount == old(snapshotCount)
    {
      heartbeats := heartbeats - {heartbeatInterval};
      closing := true;
      if socket.Some? {
        effects := effects + [CloseRequested(socket.value)];
      }
    }

    /** `retryConnection(retryTime)`: nothing while closing; otherwise a
        further step one second later, or `connect()` once the count is 0. */
    method RetryConnection(retryTime: int)
      requires Valid()
      modifies this
      ensures Valid()
      ensures old(closing) ==> closing && timeouts == old(timeouts) && effects == old(effects)
                               && nextSocket == old(nextSocket) && socket == old(socket)
      ensures !old(closing) && retryTime > 0 ==>
        timeouts == old(timeouts) + [Retry(retryTime - 1)] && effects == old(effects)
        && closing == old(closing) && nextSocket == old(nextSocket) && socket == old(socket)
      ensures !old(closing) && retryTime <= 0 ==>
        timeouts == old(timeouts) && !closing && socket == Some(old(nextSocket))
        && nextSocket == old(nextSocket) + 1
        && effects == old(effects) + [Opened(old(nextSocket)), Reported(Connecting)]
      ensures prevFrameNum == old(prevFrameNum) && skippedFramesServer == old(skippedFramesServer)
      ensures heartbeatInterval == old(heartbeatInterval) && heartbeats == old(heartbeats)
      ensures snapshotCount == old(snapshotCount) && nextTimer == old(nextTimer)
    {
      if closing {
        return;
      }
      if retryTime > 0 {
        timeouts := timeouts + [Retry(retryTime - 1)];
      } else {
        Connect();
      }
    }

    /** `register()`: with no socket, nothing; with a socket that is not yet
        open, another try in 100 ms; with an open one, one Register message,
        the Connected report and a new 5-second heartbeat. */
    method Register(socketOpen: bool)
      requires Valid()
      modifies this
      ensures Valid()
      ensures old(socket).None? ==>
        effects == old(effects) && timeouts == old(timeouts)
        && heartbeats == old(heartbeats) && nextTimer == old(nextTimer)
        && heartbeatInterval == old(heartbeatInterval)
      ensures old(socket).Some? && !socketOpen ==>
        effects == old(effects) && timeouts == old(timeouts) + [RegisterAgain]
        && heartbeats == old(heartbeats) && nextTimer == old(nextTimer)
        && heartbeatInterval == old(heartbeatInterval)
      ensures old(socket).Some? && socketOpen ==>
        effects == old(effects) + [Sent(old(socket).value, RegisterMessage(userAgent, uuid)), Reported(Connected)]
        && timeouts == old(timeouts)
        && heartbeatInterval == old(nextTimer) && heartbeatInterval !in old(heartbeats)
        && heartbeats == old(heartbeats) + {heartbeatInterval}
        && nextTimer == old(nextTimer) + 1
      ensures closing == old(closing) && socket == old(socket) && nextSocket == old(nextSocket)
      ensures prevFrameNum == old(prevFrameNum) && skippedFramesServer == old(skippedFramesServer)
      ensures snapshotCount == old(snapshotCount)
    {
      if socket.Some? {
        if socketOpen {
          effects := effects + [Sent(socket.value, RegisterMessage(userAgent, uuid)), Reported(Connected)];
          heartbeatInterval := nextTimer;
          heartbeats := heartbeats + {nextTimer};
          nextTimer := nextTimer + 1;
        } else {
          timeouts := timeouts + [RegisterAgain];
        }
      }
    }

    /** The socket's "open" event, bound to `register()`. `socketOpen` is
        its `readyState === OPEN` at that moment. */
    method OnOpen(socketOpen: bool)
      requires Valid()
      modifies this
      ensures Valid()
      ensures old(socket).None? ==>
        effects == old(effects) && timeouts == old(timeouts)
        && heartbeats == old(heartbeats) && nextTimer == old(nextTimer)
        && heartbeatInterval == old(heartbeatInterval)
      ensures old(socket).Some? && !socketOpen ==>
        effects == old(effects) && timeouts == old(timeouts) + [RegisterAgain]
        && heartbeats == old(heartbeats) && nextTimer == old(nextTimer)
        && heartbeatInterval == old(heartbeatInterval)
      ensures old(socket).Some? && socketOpen ==>
        effects == old(effects) + [Sent(old(socket).value, RegisterMessage(userAgent, uuid)), Reported(Connected)]
        && timeouts == old(timeouts)
        && heartbeatInterval == old(nextTimer) && heartbeatInterval !in old(heartbeats)
        && heartbeats == old(heartbeats) + {heartbeatInterval}
        && nextTimer == old(nextTimer) + 1
      ensures closing == old(closing) && socket == old(socket) && nextSocket == old(nextSocket)
      ensures prevFrameNum == old(prevFrameNum) && skippedFramesServer == old(skippedFramesServer)
      ensures snapshotCount == old(snapshotCount)
    {
      Register(socketOpen);
    }

    /** The socket's "close" event: the slot is emptied, Disconnected is
        reported, the heartbeat stopped and `retryConnection(5)` begun. */
    method OnClose()
      requires Valid()
      modifies this
      ensures Valid()
      ensures socket.None? && heartbeatInterval !in heartbeats
      ensures heartbeats == old(heartbeats) - {old(heartbeatInterval)}
      ensures effects == old(effects) + [Reported(Disconnected)]
      ensures closing == old(closing) && nextSocket == old(nextSocket)
      ensures timeouts == old(timeouts) + (if old(closing) then [] else [Retry(RetrySteps - 1)])
      ensures prevFrameNum == old(prevFrameNum) && skippedFramesServer == old(skippedFramesServer)
      ensures snapshotCount == old(snapshotCount) && nextTimer == old(nextTimer)
      ensures heartbeatInterval == old(heartbeatInterval)
    {
      socket := None;
      effects := effects + [Reported(Disconnected)];
      heartbeats := heartbeats - {heartbeatInterval};
      RetryConnection(RetrySteps);
    }

    /** `stopSnapshots(message)`: closes the connection and shows the
        message. */
    method StopSnapshots(message: string)
      requires Valid()
      modifies this
      ensures Valid()
      ensures closing && heartbeatInterval !in heartbeats
      ensures heartbeats == old(heartbeats) - {old(heartbeatInterval)}
      ensures effects == old(effects)
        + (if old(socket).Some? then [CloseRequested(old(socket).value)] else []) + [StopShown(message)]
      ensures socket == old(socket) && nextSocket == old(nextSocket) && nextTimer == old(nextTimer)
      ensures timeouts == old(timeouts) && heartbeatInterval == old(heartbeatInterval)
      ensures prevFrameNum == old(prevFrameNum) && skippedFramesServer == old(skippedFramesServer)
      ensures snapshotCount == old(snapshotCount)
    {
      Close();
      effects := effects + [StopShown(message)];
    }

    /** The socket's "message" event. A Blob is decoded and handed to
        `onFrame`, null included; any other message only gets logged. Every
        message whose handler gets that far counts once, and the count passing
        `snapshotLimit` stops the view. When the header-length read throws
        (a one-byte Blob) the handler ends there: nothing is delivered and
        nothing is counted. */
    method OnMessage(msg: SocketMessage, decodeHeader: seq<byte> -> Header)
      requires Valid()
      modifies this
      ensures Valid()
      ensures msg.Other? ==> prevFrameNum == old(prevFrameNum) && skippedFramesServer == old(skippedFramesServer)
      ensures msg.Blob? ==>
        var r := ParseFrame(msg.bytes, old(prevFrameNum), old(skippedFramesServer), decodeHeader);
        prevFrameNum == r.prevFrameNum && skippedFramesServer == r.skipped
      ensures var throws := msg.Blob? && |msg.bytes| == 1;
        var delivered: seq<Effect> := if msg.Blob? && !throws then
          var r := ParseFrame(msg.bytes, old(prevFrameNum), old(skippedFramesServer), decodeHeader);
          [FrameDelivered(if r.outcome.Parsed? then Some(r.outcome.frame) else None)]
        else [];
        var stops := !throws && old(snapshotCount) + 1 > snapshotLimit;
        && snapshotCount == (if throws then old(snapshotCount) else old(snapshotCount) + 1)
        && effects == old(effects) + delivered
           + (if stops && old(socket).Some? then [CloseRequested(old(socket).value)] else [])
           + (if stops then [StopShown(TimeoutMessage)] else [])
        && closing == (old(closing) || stops)
        && heartbeats == (if stops then old(heartbeats) - {old(heartbeatInterval)} else old(heartbeats))
      ensures socket == old(socket) && nextSocket == old(nextSocket) && nextTimer == old(nextTimer)
      ensures timeouts == old(timeouts) && heartbeatInterval == old(heartbeatInterval)
    {
      match msg {
        case Blob(bytes) =>
          var r := ParseFrame(bytes, prevFrameNum, skippedFramesServer, decodeHeader);
          prevFrameNum, skippedFramesServer := r.prevFrameNum, r.skipped;
          if r.outcome.Throws? {
            return;
          }
          effects := effects + [FrameDelivered(if r.outcome.Parsed? then Some(r.outcome.frame) else None)];
        case Other(_) =>
      }
      snapshotCount := snapshotCount + 1;
      if snapshotCount > snapshotLimit {
        StopSnapshots(TimeoutMessage);
      }
    }

    /** The pending timeout at index `k` fires (the browser decides which).
        `socketOpen` is the current socket's `readyState === OPEN`, read by
        a `register()` retry. */
    method FireTimeout(k: nat, socketOpen: bool)
      requires Valid()
      requires k < |timeouts|
      modifies this
      ensures Valid()
      ensures snapshotCount == old(snapshotCount)
      ensures prevFrameNum == old(prevFrameNum) && skippedFramesServer == old(skippedFramesServer)
      // a step of the reconnect countdown
      ensures old(timeouts[k]).Retry? ==>
        var n := old(timeouts[k]).retryTime;
        var rest := old(timeouts[..k] + timeouts[k + 1..]);
        && heartbeats == old(heartbeats) && heartbeatInterval == old(heartbeatInterval)
        && nextTimer == old(nextTimer)
        && (old(closing) || n > 0 ==>
              && closing == old(closing) && socket == old(socket) && nextSocket == old(nextSocket)
              && effects == old(effects)
              && timeouts == rest + (if old(closing) then [] else [Retry(n - 1)]))
        && (!old(closing) && n <= 0 ==>
              && timeouts == rest && !closing
              && socket == Some(old(nextSocket)) && nextSocket == old(nextSocket) + 1
              && effects == old(effects) + [Opened(old(nextSocket)), Reported(Connecting)])
      // a retry of `register()`
      ensures old(timeouts[k]).RegisterAgain? ==>
        var rest := old(timeouts[..k] + timeouts[k + 1..]);
        && closing == old(closing) && socket == old(socket) && nextSocket == old(nextSocket)
        && (old(socket).None? ==>
              && effects == old(effects) && timeouts == rest
              && heartbeats == old(heartbeats) && nextTimer == old(nextTimer)
              && heartbeatInterval == old(heartbeatInterval))
        && (old(socket).Some? && !socketOpen ==>
              && effects == old(effects) && timeouts == rest + [RegisterAgain]
              && heartbeats == old(heartbeats) && nextTimer == old(nextTimer)
              && heartbeatInterval == old(heartbeatInterval))
        && (old(socket).Some? && socketOpen ==>
              && effects == old(effects) + [Sent(old(socket).value, RegisterMessage(userAgent, uuid)),
                                            Reported(Connected)]
              && timeouts == rest
              && heartbeatInterval == old(nextTimer) && heartbeatInterval !in old(heartbeats)
              && heartbeats == old(heartbeats) + {heartbeatInterval}
              && nextTimer == old(nextTimer) + 1)
    {
      var t := timeouts[k];
      timeouts := timeouts[..k] + timeouts[k + 1..];
      match t {
        case Retry(n) => RetryConnection(n);
        case RegisterAgain => Register(socketOpen);
      }
    }

    /** A running heartbeat interval fires: a Heartbeat goes out on the
        current socket, if there is one. */
    method FireHeartbeat(id: nat)
      requires Valid()
      requires id in heartbeats
      modifies this
      ensures Valid()
      ensures effects == old(effects) + (if socket.Some? then [Sent(socket.value, HeartbeatMessage(uuid))] else [])
      ensures closing == old(closing) && socket == old(socket) && nextSocket == old(nextSocket)
      ensures timeouts == old(timeouts) && heartbeats == old(heartbeats) && nextTimer == old(nextTimer)
      ensures heartbeatInterval == old(heartbeatInterval) && snapshotCount == old(snapshotCount)
      ensures prevFrameNum == old(prevFrameNum) && skippedFramesServer == old(skippedFramesServer)
    {
      if socket.Some? {
        effects := effects + [Sent(socket.value, HeartbeatMessage(uuid))];
      }
    }

    /** `restartCameraViewing()`: hides the stop panel, resets the message
        count and reconnects the existing connection. */
    method RestartCameraViewing()
      requires Valid()
      modifies this
      ensures Valid()
      ensures snapshotCount == 0 && !closing
      ensures socket == Some(old(nextSocket)) && nextSocket == old(nextSocket) + 1
      ensures effects == old(effects) + [StopHidden, Opened(old(nextSocket)), Reported(Connecting)]
      ensures timeouts == old(timeouts) && heartbeats == old(heartbeats)
      ensures heartbeatInterval == old(heartbeatInterval) && nextTimer == old(nextTimer)
      ensures prevFrameNum == old(prevFrameNum) && skippedFramesServer == old(skippedFramesServer)
    {
      effects := effects + [StopHidden];
      snapshotCount := 0;
      Connect();
    }
  }

  // -----------------------------------------------------------------------
  // Scenarios: what a caller can conclude from the contracts above alone.

  /** After an unexpected close, the connection reconnects by itself exactly
      when the fifth one-second step fires, and not before. Returns the
      number of the step (1-based) at which the new socket was opened. */
  method ReconnectsAfterFiveSteps(uuid: int, ua: string) returns (step: int, sockets: nat)
    ensures step == RetrySteps && sockets == 2
  {
    var c := new CameraConnection(uuid, ua, false);
    c.OnOpen(true);
    c.OnClose();
    step := 0;
    var i := 1;
    while i <= RetrySteps
      invariant 1 <= i <= RetrySteps + 1
      invariant c.Valid() && !c.closing
      invariant i <= RetrySteps ==> c.timeouts == [Retry(RetrySteps - i)] && c.nextSocket == 1
      invariant i > RetrySteps ==> c.timeouts == [] && c.nextSocket == 2
      invariant step == (if i > RetrySteps then RetrySteps else 0)
      modifies c
    {
      c.FireTimeout(0, false);
      if c.nextSocket == 2 && step == 0 {
        step := i;
      }
      i := i + 1;
    }
    sockets := c.nextSocket;
  }

  /** `close()` while a reconnection step is pending: the step fires
      without scheduling another or opening a socket, and no heartbeat is
      left running. */
  method CloseCancelsRetry(uuid: int, ua: string) returns (sockets: nat, pending: nat, heartbeatsLeft: nat)
    ensures sockets == 1 && pending == 0 && heartbeatsLeft == 0
  {
    var c := new CameraConnection(uuid, ua, false);
    c.OnOpen(true);
    c.OnClose();
    c.Close();
    c.FireTimeout(0, true);
    sockets := c.nextSocket;
    pending := |c.timeouts|;
    heartbeatsLeft := |c.heartbeats|;
  }

  /** With the default limit, messages 1 to 200 are taken and the 201st
      stops the view; restarting resets the count. Returns the number of
      the message that first stopped the view. */
  method MessageCapStopsAt201(uuid: int, ua: string) returns (stoppedAt: int, countAfterRestart: int)
    ensures stoppedAt == DefaultSnapshotLimit + 1 && countAfterRestart == 0
  {
    var c := new CameraConnection(uuid, ua, false);
    stoppedAt := 0;
    var i := 1;
    while i <= DefaultSnapshotLimit + 1
      invariant 1 <= i <= DefaultSnapshotLimit + 2
      invariant c.Valid() && c.snapshotLimit == DefaultSnapshotLimit
      invariant c.snapshotCount == i - 1
      invariant i <= DefaultSnapshotLimit + 1 ==> !c.closing && stoppedAt == 0
      invariant i > DefaultSnapshotLimit + 1 ==> c.closing && stoppedAt == DefaultSnapshotLimit + 1
      modifies c
    {
      var before := c.closing;
      c.OnMessage(Other("ping"), _ => Malformed);
      if c.closing && !before {
        stoppedAt := i;
      }
      i := i + 1;
    }
    c.RestartCameraViewing();
    countAfterRestart := c.snapshotCount;
  }

  // -----------------------------------------------------------------------
  // processFrame

  function Min(a: int, b: int): int { if a <= b then a else b }
  function Max(a: int, b: int): int { if a <= b then b else a }

  /** `Math.min(...frame)`, for a non-empty frame. */
  function SeqMin(s: seq<u16>): (r: int)
    requires |s| > 0
    ensures forall i :: 0 <= i < |s| ==> r <= s[i] as int
    ensures exists i :: 0 <= i < |s| && r == s[i] as int
  {
    if |s| == 1 then s[0] as int
    else
      var m := SeqMin(s[..|s| - 1]);
      assert forall i :: 0 <= i < |s| - 1 ==> s[..|s| - 1][i] == s[i];
      Min(m, s[|s| - 1] as int)
  }

  /** `Math.max(...frame)`, for a non-empty frame. */
  function SeqMax(s: seq<u16>): (r: int)
    requires |s| > 0
    ensures forall i :: 0 <= i < |s| ==> s[i] as int <= r
    ensures exists i :: 0 <= i < |s| && r == s[i] as int
  {
    if |s| == 1 then s[0] as int
    else
      var m := SeqMax(s[..|s| - 1]);
      assert forall i :: 0 <= i < |s| - 1 ==> s[..|s| - 1][i] == s[i];
      Max(m, s[|s| - 1] as int)
  }

  /** The smallest and largest sample, in one pass; none for an empty frame. */
  method FrameBounds(frame: seq<u16>) returns (bounds: Option<(int, int)>)
    ensures bounds.None? <==> frame == []
    ensures bounds.Some? ==>
      && (forall i :: 0 <= i < |frame| ==> bounds.value.0 <= frame[i] as int <= bounds.value.1)
      && (exists i :: 0 <= i < |frame| && frame[i] as int == bounds.value.0)
      && (exists i :: 0 <= i < |frame| && frame[i] as int == bounds.value.1)
  {
    if |frame| == 0 {
      return None;
    }
    var lo, hi := frame[0] as int, frame[0] as int;
    var i := 1;
    while i < |frame|
      invariant 1 <= i <= |frame|
      invariant forall j :: 0 <= j < i ==> lo <= frame[j] as int <= hi
      invariant exists j :: 0 <= j < i && frame[j] as int == lo
      invariant exists j :: 0 <= j < i && frame[j] as int == hi
    {
      if (frame[i] as int) < lo { lo := frame[i] as int; }
      if (frame[i] as int) > hi { hi := frame[i] as int; }
      i := i + 1;
    }
    bounds := Some((lo, hi));
  }

  /** A `Uint8ClampedArray` store: the value is clamped to [0, 255]. */
  function Clamp(v: int): byte
  {
    if v < 0 then 0 else if v > 255 then 255 else v as byte
  }

  /** Channel `k` of a painted pixel with sample `v`: grey in the three
      colour channels and opaque alpha. `intensity(v, min, max)` is the
      floating-point grey level, not modelled. */
  function Channel(v: int, k: int, lo: int, hi: int, intensity: (int, int, int) -> int): byte
  {
    if k == 3 then 255 else Clamp(intensity(v, lo, hi))
  }

  /** A typed-array store: an index past the end is ignored. */
  function Store(b: seq<byte>, idx: nat, v: byte): (r: seq<byte>)
    ensures |r| == |b|
  {
    if idx < |b| then b[idx := v] else b
  }

  /** The four stores for pixel `p` with sample `v`. */
  function PaintPixel(b: seq<byte>, v: int, p: nat, lo: int, hi: int, intensity: (int, int, int) -> int): (r: seq<byte>)
    ensures |r| == |b|
  {
    var g := Clamp(intensity(v, lo, hi));
    Store(Store(Store(Store(b, 4 * p, g), 4 * p + 1, g), 4 * p + 2, g), 4 * p + 3, 255)
  }

  /** The image data after the first `n` pixels of the frame are painted. */
  function PaintUpTo(b: seq<byte>, frame: seq<u16>, lo: int, hi: int,
                     intensity: (int, int, int) -> int, n: nat): (r: seq<byte>)
    requires n <= |frame|
    ensures |r| == |b|
  {
    if n == 0 then b
    else PaintPixel(PaintUpTo(b, frame, lo, hi, intensity, n - 1), frame[n - 1] as int, n - 1, lo, hi, intensity)
  }

  /** The image data after painting the whole frame against its own minimum
      and maximum. */
  ghost function Painted(before: seq<byte>, frame: seq<u16>, intensity: (int, int, int) -> int): (r: seq<byte>)
    ensures |r| == |before|
  {
    if frame == [] then before
    else PaintUpTo(before, frame, SeqMin(frame), SeqMax(frame), intensity, |frame|)
  }

  /** `processFrame`: computes the bounds of the frame and writes one RGBA
      quad per sample into the image data. */
  method ProcessFrame(frame: Frame, data: array<byte>, intensity: (int, int, int) -> int)
    modifies data
    ensures data[..] == Painted(old(data[..]), frame.frame, intensity)
  {
    var px := frame.frame;
    var bounds := FrameBounds(px);
    if bounds.None? {
      return;
    }
    var lo, hi := bounds.value.0, bounds.value.1;
    SeqBoundsUnique(px, lo, hi);
    ghost var before := data[..];
    var i := 0;
    while i < |px|
      invariant 0 <= i <= |px|
      invariant data[..] == PaintUpTo(before, px, lo, hi, intensity, i)
    {
      WritePixel(data, i, px[i] as int, lo, hi, intensity);
      i := i + 1;
    }
  }

  /** The four stores of one loop step of `processFrame`. */
  method WritePixel(data: array<byte>, i: nat, v: int, lo: int, hi: int, intensity: (int, int, int) -> int)
    modifies data
    ensures data[..] == PaintPixel(old(data[..]), v, i, lo, hi, intensity)
  {
    var pix := Clamp(intensity(v, lo, hi));
    var index := i * 4;
    ghost var d0 := data[..];
    if index < data.Length { data[index] := pix; }
    ghost var d1 := data[..];
    assert d1 == Store(d0, index, pix);
    if index + 1 < data.Length { data[index + 1] := pix; }
    ghost var d2 := data[..];
    assert d2 == Store(d1, index + 1, pix);
    if index + 2 < data.Length { data[index + 2] := pix; }
    ghost var d3 := data[..];
    assert d3 == Store(d2, index + 2, pix);
    if index + 3 < data.Length { data[index + 3] := 255; }
    assert data[..] == Store(d3, index + 3, 255);
  }

  /** The bounds `FrameBounds` finds are `SeqMin` and `SeqMax`. */
  lemma SeqBoundsUnique(s: seq<u16>, lo: int, hi: int)
    requires |s| > 0
    requires forall i :: 0 <= i < |s| ==> lo <= s[i] as int <= hi
    requires exists i :: 0 <= i < |s| && s[i] as int == lo
    requires exists i :: 0 <= i < |s| && s[i] as int == hi
    ensures lo == SeqMin(s) && hi == SeqMax(s)
  {
  }

  /** After `n` pixels, byte `k` of pixel `p < n` holds its channel value. */
  lemma {:induction false} PaintUpToPixel(b: seq<byte>, frame: seq<u16>, lo: int, hi: int,
                                          intensity: (int, int, int) -> int, n: nat, p: nat, k: nat)
    requires n <= |frame| && p < n && k < 4 && 4 * p + k < |b|
    ensures PaintUpTo(b, frame, lo, hi, intensity, n)[4 * p + k] == Channel(frame[p] as int, k, lo, hi, intensity)
  {
    if p < n - 1 {
      PaintUpToPixel(b, frame, lo, hi, intensity, n - 1, p, k);
    }
  }

  /** After `n` pixels, every byte from `4 * n` on is untouched. */
  lemma {:induction false} PaintUpToRest(b: seq<byte>, frame: seq<u16>, lo: int, hi: int,
                                         intensity: (int, int, int) -> int, n: nat, j: nat)
    requires n <= |frame| && 4 * n <= j < |b|
    ensures PaintUpTo(b, frame, lo, hi, intensity, n)[j] == b[j]
  {
    if n > 0 {
      PaintUpToRest(b, frame, lo, hi, intensity, n - 1, j);
    }
  }

  /** Pixel `p` of the frame is painted in its four bytes: grey computed
      against the frame-wide minimum and maximum in the colour channels,
      opaque alpha. */
  lemma PaintedPixel(before: seq<byte>, frame: seq<u16>, intensity: (int, int, int) -> int, p: nat, k: nat)
    requires p < |frame| && k < 4 && 4 * p + k < |before|
    ensures Painted(before, frame, intensity)[4 * p + k]
      == if k == 3 then 255 else Clamp(intensity(frame[p] as int, SeqMin(frame), SeqMax(frame)))
  {
    PaintUpToPixel(before, frame, SeqMin(frame), SeqMax(frame), intensity, |frame|, p, k);
  }

  /** Bytes past the frame keep their value. */
  lemma PaintedRest(before: seq<byte>, frame: seq<u16>, intensity: (int, int, int) -> int, j: nat)
    requires 4 * |frame| <= j < |before|
    ensures Painted(before, frame, intensity)[j] == before[j]
  {
    if frame != [] {
      PaintUpToRest(before, frame, SeqMin(frame), SeqMax(frame), intensity, |frame|, j);
    }
  }
}
