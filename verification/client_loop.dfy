/**
 * The driving loop of `FixerClient`: the connect attempt, the read loop
 * that turns the byte stream into queued work, the per-frame `Update` that
 * drains the main-thread queue, and the replication tick that sends the
 * local player's state when it has changed.
 *
 * The socket, the scheduler and the clock are inputs: a connect attempt is
 * split into its start and its outcome, the read loop receives the whole
 * byte stream up to end-of-stream, the decoder that parses a frame body is
 * a function parameter, and time arrives as integer frame durations.
 */
module ClientLoop {
  import opened Wrappers
  import opened Bytes
  import opened Protocol
  import opened FrameReceiver
  import opened Session
  import opened ClientService
  import opened PacketHandlers
  import LC = LoadingController

  // ---------------------------------------------------------------------
  // Connect
  // ---------------------------------------------------------------------

  /** How the awaited `TcpClient.ConnectAsync` ended. */
  datatype ConnectOutcome =
    | Established
    | SocketFailure(errorCode: string)
    | Canceled
    | OtherFailure

  const ConnectTimeoutSec: int := 6
  const ConnectingTitle: string := "Connecting to server..."

  /** The reason a failed attempt passes to `Disconnect`. */
  function FailureReason(outcome: ConnectOutcome): string
  {
    match outcome
    case SocketFailure(code) => "Connect failed: " + code
    case Canceled => "Connect canceled"
    case Established => "Connect failed"
    case OtherFailure => "Connect failed"
  }

  /** Another attempt is running or the client is connected: `ConnectAsync` returns at once. */
  predicate Busy(c: Client)
  {
    c.conn.isConnected || c.conn.isConnecting
  }

  /**
   * The synchronous part of `ConnectAsync`, up to the await: claims the
   * connecting flag, re-arms the `Disconnected` latch, opens the cancellable
   * connect scope with its six-second timeout and creates a fresh socket.
   */
  function StartConnect(c: Client): (r: Client)
    ensures Busy(c) ==> r == c
    ensures !Busy(c) ==>
      && r.conn.isConnecting && !r.conn.isConnected && !r.conn.disconnectNotified
      && r.conn.hasTcpClient && !r.conn.hasStream && r.conn.hasCts == c.conn.hasCts
      && r.user == c.user && r.repl == c.repl && r.queue == c.queue
      && r.events == c.events && r.sent == c.sent
      && (c.loading.present ==>
            && LC.Connect in r.loading.scopes
            && r.loading.controller.onCancelTop == Some(LC.CancelConnect)
            && r.loading.controller.timer == Some(LC.Timer(r.loading.scopes[LC.Connect].id, ConnectTimeoutSec)))
  {
    if Busy(c) then c
    else
      var armed := c.(conn := c.conn.(isConnecting := true, disconnectNotified := false));
      var shown := BeginLoading(armed, LC.Connect, ConnectingTitle, Some(LC.CancelConnect), Some(ConnectTimeoutSec));
      shown.(conn := shown.conn.(hasStream := false, hasTcpClient := true))
  }

  /**
   * The rest of `ConnectAsync`, once the await has ended. An established
   * connection on a socket that is still there opens the stream, closes the
   * connect scope, raises `Connected` and sends the guest login. Anything
   * else (including success on a socket a cancel has already closed, which
   * throws) closes the scope and disconnects with the outcome's reason.
   * The connecting flag is cleared on every path.
   */
  function FinishConnect(c: Client, outcome: ConnectOutcome, sdkNickname: Option<string>, randomValue: int): (r: Client)
    requires 0 <= randomValue < 1_000_000
    ensures !r.conn.isConnecting
    ensures LC.Connect !in r.loading.scopes
    ensures r.conn.isConnected <==> outcome.Established? && c.conn.hasTcpClient
    ensures outcome.Established? && c.conn.hasTcpClient ==>
      && CanSend(r) && r.user == c.user && r.queue == c.queue && r.repl == c.repl
      && r.events == c.events + [Connected]
      && r.sent == c.sent + [ReqGuestLogin(GuestNickname(sdkNickname, randomValue))]
    ensures !(outcome.Established? && c.conn.hasTcpClient) ==>
      && Released(r) && r.events == c.events && r.sent == c.sent
      && r.repl.lastState == c.repl.lastState
      && (r.queue == c.queue || r.queue == c.queue + [NotifyDisconnected(FailureReason(outcome))])
      && (c.conn.hasTcpClient && !c.conn.disconnectNotified ==>
            r.queue == c.queue + [NotifyDisconnected(FailureReason(outcome))])
    ensures Consistent(c) ==> Consistent(r)
  {
    var done :=
      if outcome.Established? && c.conn.hasTcpClient then
        var up := c.(conn := c.conn.(hasStream := true, hasCts := true, isConnected := true));
        GuestLogin(Raise(EndLoading(up, LC.Connect), Connected), sdkNickname, randomValue)
      else
        Disconnect(EndLoading(c, LC.Connect), FailureReason(outcome));
    done.(conn := done.conn.(isConnecting := false))
  }

  /**
   * `ConnectAsync` with the await completing as `outcome`. An idle client
   * ends up either connected, having raised `Connected` and sent its guest
   * login, or released with exactly one `Disconnected` notification queued.
   */
  function ConnectAsync(c: Client, outcome: ConnectOutcome, sdkNickname: Option<string>, randomValue: int): (r: Client)
    requires 0 <= randomValue < 1_000_000
    ensures Busy(c) ==> r == c
    ensures !Busy(c) ==>
      && !r.conn.isConnecting
      && LC.Connect !in r.loading.scopes
      && (r.conn.isConnected <==> outcome.Established?)
      && r.repl.lastState == c.repl.lastState
    ensures !Busy(c) && outcome.Established? ==>
      && CanSend(r) && r.user == c.user && r.queue == c.queue
      && r.events == c.events + [Connected]
      && r.sent == c.sent + [ReqGuestLogin(GuestNickname(sdkNickname, randomValue))]
    ensures !Busy(c) && !outcome.Established? ==>
      && Released(r) && r.events == c.events && r.sent == c.sent
      && r.queue == c.queue + [NotifyDisconnected(FailureReason(outcome))]
    ensures Consistent(c) ==> Consistent(r)
  {
    if Busy(c) then c else FinishConnect(StartConnect(c), outcome, sdkNickname, randomValue)
  }

  /**
   * The loading overlay's cancel button: invokes the top scope's cancel
   * callback, which for the connect scope cancels the attempt and
   * disconnects. Without a callback the button does nothing.
   */
  function PressCancel(c: Client): (r: Client)
    ensures c.loading.controller.onCancelTop.None? ==> r == c
    ensures c.loading.controller.onCancelTop.Some? ==>
      && Released(r)
      && (!Released(c) ==> !r.user.isInRoom && r.user.localUserId == 0)
      && r.queue == c.queue + (if Released(c) || c.conn.disconnectNotified then []
                               else [NotifyDisconnected("Connect canceled")])
  {
    match c.loading.controller.onCancelTop
    case Some(CancelConnect) => Disconnect(c, "Connect canceled")
    case None => c
  }

  /** `OnDestroy`: tears the session down for good. */
  function Destroy(c: Client): (r: Client)
    ensures Released(r)
    ensures !Released(c) ==> r.repl.sync.None? && !r.user.isInRoom && r.user.localUserId == 0
    ensures Consistent(c) ==> Consistent(r)
  {
    Disconnect(c, "Client destroyed")
  }

  /** `BindLocalPlayerSync`: the given sync becomes the one the tick reads. */
  function BindLocalPlayerSync(c: Client, sync: nat): (r: Client)
    ensures r.repl.sync == Some(sync)
    ensures r == c.(repl := c.repl.(sync := Some(sync)))
  {
    c.(repl := c.repl.(sync := Some(sync)))
  }

  /** `UnbindLocalPlayerSync`: unbinds only the sync that is currently bound. */
  function UnbindLocalPlayerSync(c: Client, sync: nat): (r: Client)
    ensures c.repl.sync == Some(sync) ==> r.repl.sync.None?
    ensures c.repl.sync != Some(sync) ==> r == c
    ensures r == c.(repl := c.repl.(sync := r.repl.sync))
  {
    if c.repl.sync == Some(sync) then c.(repl := c.repl.(sync := None)) else c
  }

  // ---------------------------------------------------------------------
  // Receive
  // ---------------------------------------------------------------------

  /** One queued dispatch per received frame, in arrival order. */
  function Enqueued(frames: seq<Frame>): (q: seq<QueuedAction>)
    ensures |q| == |frames|
    ensures forall i :: 0 <= i < |frames| ==> q[i] == DispatchFrame(frames[i])
  {
    seq(|frames|, i requires 0 <= i < |frames| => DispatchFrame(frames[i]))
  }

  /**
   * `ReceiveLoop` over the bytes the socket delivers before it stops: every
   * well-formed frame is queued for the main thread in order, then the loop
   * disconnects. The queued frames re-encode to a prefix of the stream.
   */
  function ReceiveLoop(c: Client, stream: seq<Byte>): (r: Client)
    ensures var fs := ReceiveAll(stream).frames;
      && EncodeAll(fs) <= stream
      && r.queue == c.queue + Enqueued(fs) +
           (if !Released(c) && !c.conn.disconnectNotified then [NotifyDisconnected("ReceiveLoop ended")] else [])
    ensures Released(r) && r.events == c.events && r.sent == c.sent
    ensures Consistent(c) ==> Consistent(r)
  {
    var received := c.(queue := c.queue + Enqueued(ReceiveAll(stream).frames));
    Disconnect(received, "ReceiveLoop ended")
  }

  // ---------------------------------------------------------------------
  // Update: draining the main-thread queue
  // ---------------------------------------------------------------------

  /** The client after the queue was drained, and whether an action threw. */
  datatype Drained = Drained(client: Client, faulted: bool)

  /**
   * Runs the queued actions first-in first-out. A frame whose handler throws
   * ends the drain (the exception leaves `Update`) with the remaining actions
   * still queued. With `dropStale`, frames that arrive at a disconnected
   * client are dropped instead of dispatched.
   */
  function Drain(c: Client, decode: Frame -> Inbound, dropStale: bool): (d: Drained)
    ensures !d.faulted ==> d.client.queue == []
    ensures d.faulted ==> |d.client.queue| < |c.queue| && d.client.queue == c.queue[|c.queue| - |d.client.queue|..]
    ensures d.client.conn == c.conn && d.client.repl == c.repl
    ensures dropStale && Consistent(c) ==> Consistent(d.client)
    decreases |c.queue|
  {
    if c.queue == [] then Drained(c, false)
    else
      var rest := c.(queue := c.queue[1..]);
      match c.queue[0]
      case NotifyDisconnected(reason) => Drain(Raise(rest, Disconnected(reason)), decode, dropStale)
      case DispatchFrame(f) =>
        var h := if dropStale then DispatchWhileConnected(rest, decode(f)) else Dispatch(rest, decode(f));
        if h.faulted then Drained(h.client, true) else Drain(h.client, decode, dropStale)
  }

  /**
   * First-in first-out: draining `q1 + q2` runs all of `q1` before anything
   * of `q2`. If `q1` drains cleanly, what follows is exactly a drain of `q2`
   * from where `q1` left the client; if an action of `q1` throws, the drain
   * stops at the same point with all of `q2` still queued behind it.
   */
  lemma {:induction false} DrainConcat(c: Client, q2: seq<QueuedAction>, decode: Frame -> Inbound, dropStale: bool)
    ensures var d1 := Drain(c, decode, dropStale);
      var d := Drain(c.(queue := c.queue + q2), decode, dropStale);
      && (!d1.faulted ==> d == Drain(d1.client.(queue := q2), decode, dropStale))
      && (d1.faulted ==> d == Drained(d1.client.(queue := d1.client.queue + q2), true))
    decreases |c.queue|
  {
    var whole := c.(queue := c.queue + q2);
    if c.queue == [] {
      assert whole == c.(queue := q2);
    } else {
      var rest := c.(queue := c.queue[1..]);
      var wholeRest := whole.(queue := whole.queue[1..]);
      assert whole.queue[0] == c.queue[0];
      assert wholeRest == rest.(queue := rest.queue + q2) by {
        assert whole.queue[1..] == c.queue[1..] + q2;
      }
      match c.queue[0]
      case NotifyDisconnected(reason) =>
        var next := Raise(rest, Disconnected(reason));
        assert Raise(wholeRest, Disconnected(reason)) == next.(queue := next.queue + q2);
        DrainConcat(next, q2, decode, dropStale);
      case DispatchFrame(f) =>
        var h := if dropStale then DispatchWhileConnected(rest, decode(f)) else Dispatch(rest, decode(f));
        var wh := if dropStale then DispatchWhileConnected(wholeRest, decode(f)) else Dispatch(wholeRest, decode(f));
        DispatchIgnoresQueue(rest, decode(f), rest.queue + q2);
        DispatchWhileConnectedIgnoresQueue(rest, decode(f), rest.queue + q2);
        assert h.client.queue == rest.queue;
        assert wh == Handled(h.client.(queue := h.client.queue + q2), h.faulted);
        if !h.faulted {
          DrainConcat(h.client, q2, decode, dropStale);
        }
    }
  }

  /** A queue holding only `Disconnected` notifications, one per reason. */
  function Notifications(reasons: seq<string>): (q: seq<QueuedAction>)
    ensures |q| == |reasons|
  {
    if reasons == [] then [] else [NotifyDisconnected(reasons[0])] + Notifications(reasons[1..])
  }

  /** The events those notifications raise. */
  function DisconnectedEvents(reasons: seq<string>): (es: seq<Event>)
    ensures |es| == |reasons|
  {
    if reasons == [] then [] else [Disconnected(reasons[0])] + DisconnectedEvents(reasons[1..])
  }

  /** The i-th queued notification carries the i-th reason, and so does the i-th event. */
  lemma {:induction false} NotificationsCarryReasons(reasons: seq<string>)
    ensures forall i :: 0 <= i < |reasons| ==> Notifications(reasons)[i] == NotifyDisconnected(reasons[i])
    ensures forall i :: 0 <= i < |reasons| ==> DisconnectedEvents(reasons)[i] == Disconnected(reasons[i])
    decreases |reasons|
  {
    if reasons != [] {
      NotificationsCarryReasons(reasons[1..]);
      forall i | 1 <= i < |reasons|
        ensures Notifications(reasons)[i] == NotifyDisconnected(reasons[i])
        ensures DisconnectedEvents(reasons)[i] == Disconnected(reasons[i])
      {
        assert reasons[1..][i - 1] == reasons[i];
      }
    }
  }

  /** A queued notification at the head raises its event and the drain carries on with the rest. */
  lemma DrainNotifyStep(c: Client, reason: string, decode: Frame -> Inbound, dropStale: bool)
    requires c.queue != [] && c.queue[0] == NotifyDisconnected(reason)
    ensures Drain(c, decode, dropStale)
         == Drain(Raise(c.(queue := c.queue[1..]), Disconnected(reason)), decode, dropStale)
  {
  }

  /** Queued notifications are raised in the order they were queued, and none of them throws. */
  lemma {:induction false} DrainRaisesInQueueOrder(c: Client, reasons: seq<string>, decode: Frame -> Inbound, dropStale: bool)
    requires c.queue == Notifications(reasons)
    ensures var d := Drain(c, decode, dropStale);
      !d.faulted && d.client.events == c.events + DisconnectedEvents(reasons)
    decreases |reasons|
  {
    if reasons != [] {
      assert c.queue[0] == NotifyDisconnected(reasons[0]);
      assert c.queue[1..] == Notifications(reasons[1..]);
      var next := Raise(c.(queue := c.queue[1..]), Disconnected(reasons[0]));
      DrainNotifyStep(c, reasons[0], decode, dropStale);
      DrainRaisesInQueueOrder(next, reasons[1..], decode, dropStale);
      assert c.events + DisconnectedEvents(reasons)
          == (c.events + [Disconnected(reasons[0])]) + DisconnectedEvents(reasons[1..]);
    }
  }

  // ---------------------------------------------------------------------
  // The replication tick
  // ---------------------------------------------------------------------

  /** The tick runs only while connected, in a room, with a local sync bound. */
  predicate GateOpen(c: Client)
  {
    c.conn.isConnected && c.user.isInRoom && c.repl.sync.Some?
  }

  /**
   * The change test against the last sent state: position compared with the
   * float tolerance `approx`, facing and action exactly.
   */
  predicate Changed(cur: CharState, last: CharState, approx: (int, int) -> bool)
  {
    || !approx(cur.posX, last.posX) || !approx(cur.posY, last.posY)
    || cur.actionState != last.actionState || cur.facingDir != last.facingDir
  }

  /** A tolerance under which every value is approximately itself, as `Mathf.Approximately` is. */
  ghost predicate Reflexive(approx: (int, int) -> bool)
  {
    forall x :: approx(x, x)
  }

  /**
   * `TickSendLocalPlayerState` for one frame of length `dt`, with the bound
   * sync reporting `snapshot`. Once the accumulator reaches the interval,
   * one interval is consumed and the snapshot is sent if it changed; a
   * changed snapshot becomes the new baseline even if the send gate drops it.
   */
  function Tick(c: Client, dt: nat, interval: nat, snapshot: CharState, approx: (int, int) -> bool): (r: Client)
    requires interval > 0
    ensures !GateOpen(c) ==> r == c
    ensures GateOpen(c) ==>
      var total := c.repl.sendAccum + dt;
      var fire := total >= interval && Changed(snapshot, c.repl.lastState, approx);
      && r.repl.sendAccum == (if total < interval then total else total - interval)
      && r.repl.sync == c.repl.sync
      && r.repl.lastState == (if fire then snapshot else c.repl.lastState)
      && r.sent == c.sent + (if fire && CanSend(c) then [ReqPlayerState(WireState(snapshot))] else [])
    ensures r == c.(repl := r.repl, sent := r.sent)
  {
    if !GateOpen(c) then c
    else
      var total := c.repl.sendAccum + dt;
      if total < interval then c.(repl := c.repl.(sendAccum := total))
      else
        var due := c.(repl := c.repl.(sendAccum := total - interval));
        if Changed(snapshot, c.repl.lastState, approx) then
          var s := SendPlayerState(due, snapshot);
          s.(repl := s.repl.(lastState := snapshot))
        else due
  }

  /** Consecutive frames of the given lengths, with the sync reporting the same snapshot throughout. */
  function TickAll(c: Client, dts: seq<nat>, interval: nat, snapshot: CharState, approx: (int, int) -> bool): Client
    requires interval > 0
    decreases |dts|
  {
    if dts == [] then c else TickAll(Tick(c, dts[0], interval, snapshot, approx), dts[1..], interval, snapshot, approx)
  }

  /** Once the baseline equals the snapshot, no number of frames sends anything. */
  lemma {:induction false} BaselineSendsNothing(c: Client, dts: seq<nat>, interval: nat, snapshot: CharState,
                                                approx: (int, int) -> bool)
    requires interval > 0 && Reflexive(approx)
    requires c.repl.lastState == snapshot
    ensures var r := TickAll(c, dts, interval, snapshot, approx);
      r.sent == c.sent && r.repl.lastState == snapshot
    decreases |dts|
  {
    if dts != [] {
      assert approx(snapshot.posX, snapshot.posX) && approx(snapshot.posY, snapshot.posY);
      BaselineSendsNothing(Tick(c, dts[0], interval, snapshot, approx), dts[1..], interval, snapshot, approx);
    }
  }

  /** A snapshot that does not move is sent at most once, however many frames pass. */
  lemma {:induction false} SnapshotSentAtMostOnce(c: Client, dts: seq<nat>, interval: nat, snapshot: CharState,
                                                  approx: (int, int) -> bool)
    requires interval > 0 && Reflexive(approx)
    ensures |TickAll(c, dts, interval, snapshot, approx).sent| <= |c.sent| + 1
    decreases |dts|
  {
    if dts != [] {
      var next := Tick(c, dts[0], interval, snapshot, approx);
      if next.repl.lastState == snapshot {
        BaselineSendsNothing(next, dts[1..], interval, snapshot, approx);
      } else {
        SnapshotSentAtMostOnce(next, dts[1..], interval, snapshot, approx);
      }
    }
  }

  /** The total length of a run of frames. */
  function Sum(dts: seq<nat>): nat
  {
    if dts == [] then 0 else dts[0] + Sum(dts[1..])
  }

  /**
   * A changed snapshot goes out on the first frame that fills the interval
   * while the gate is open, and is the only thing sent over the whole run:
   * frames that leave the accumulator short send nothing, so any run long
   * enough to fill the interval sends the snapshot exactly once.
   */
  lemma {:induction false} ChangeSentExactlyOnce(c: Client, dts: seq<nat>, interval: nat, snapshot: CharState,
                                                 approx: (int, int) -> bool)
    requires interval > 0 && Reflexive(approx)
    requires GateOpen(c) && CanSend(c) && Changed(snapshot, c.repl.lastState, approx)
    requires dts != [] && c.repl.sendAccum + Sum(dts) >= interval
    ensures TickAll(c, dts, interval, snapshot, approx).sent == c.sent + [ReqPlayerState(WireState(snapshot))]
    decreases |dts|
  {
    var next := Tick(c, dts[0], interval, snapshot, approx);
    if c.repl.sendAccum + dts[0] >= interval {
      BaselineSendsNothing(next, dts[1..], interval, snapshot, approx);
    } else {
      assert next.sent == c.sent && next.repl.lastState == c.repl.lastState;
      assert next.repl.sendAccum + Sum(dts[1..]) >= interval;
      ChangeSentExactlyOnce(next, dts[1..], interval, snapshot, approx);
    }
  }

  /**
   * The baseline is not reset by a disconnect: after reconnecting and
   * re-entering a room, a player standing where the last sent state put
   * them sends nothing at all.
   */
  lemma BaselineSurvivesReconnect(c: Client, reason: string, sdkNickname: Option<string>, randomValue: int,
                                  sync: nat, dts: seq<nat>, interval: nat, approx: (int, int) -> bool)
    requires 0 <= randomValue < 1_000_000 && interval > 0 && Reflexive(approx)
    requires !c.conn.isConnecting
    ensures var back := ConnectAsync(Disconnect(c, reason), Established, sdkNickname, randomValue);
      var inRoom := SetEnterRoomResult(BindLocalPlayerSync(back, sync), true, "Entered room");
      && back.repl.lastState == c.repl.lastState
      && GateOpen(inRoom)
      && TickAll(inRoom, dts, interval, c.repl.lastState, approx).sent == inRoom.sent
  {
    var back := ConnectAsync(Disconnect(c, reason), Established, sdkNickname, randomValue);
    var inRoom := SetEnterRoomResult(BindLocalPlayerSync(back, sync), true, "Entered room");
    BaselineSendsNothing(inRoom, dts, interval, c.repl.lastState, approx);
  }

  // ---------------------------------------------------------------------
  // Update
  // ---------------------------------------------------------------------

  /**
   * `Update`: drains the queue, then runs the tick. When a queued action
   * throws, the exception leaves `Update` before the tick.
   */
  function Update(c: Client, decode: Frame -> Inbound, dropStale: bool,
                  dt: nat, interval: nat, snapshot: CharState, approx: (int, int) -> bool): (r: Client)
    requires interval > 0
    ensures var d := Drain(c, decode, dropStale);
      && (d.faulted ==> r == d.client)
      && (!d.faulted ==> r == Tick(d.client, dt, interval, snapshot, approx) && r.queue == [])
    ensures dropStale && Consistent(c) ==> Consistent(r)
  {
    var d := Drain(c, decode, dropStale);
    if d.faulted then d.client else Tick(d.client, dt, interval, snapshot, approx)
  }

  // ---------------------------------------------------------------------
  // Scenarios
  // ---------------------------------------------------------------------

  /**
   * Connect, then a successful login response: the client is connected,
   * has sent the guest login, records the user and asks for the room list.
   */
  lemma GuestLoginFlow(present: bool, sdkNickname: Option<string>, randomValue: int, name: string)
    requires 0 <= randomValue < 1_000_000
    ensures var up := ConnectAsync(Initial(present), Established, sdkNickname, randomValue);
      var h := Dispatch(up, Inbound(ResLogin, Some(LoginRes(true, 42, name))));
      && up.conn.isConnected && up.events == [Connected]
      && up.sent == [ReqGuestLogin(GuestNickname(sdkNickname, randomValue))]
      && !h.faulted && h.client.user.localUserId == 42 && h.client.user.localUserName == Some(name)
      && h.client.events == [Connected, LoginResult(true, "Login succeeded")]
      && h.client.sent == up.sent + [ReqRoomList]
      && LC.Login !in h.client.loading.scopes
      && Consistent(h.client)
  {
  }

  /** A live connection that delivers one frame and then closes queues that frame, then the notification. */
  lemma ReceiveOneFrame(c: Client, f: Frame)
    requires Encodable(f) && c.conn.isConnected && !c.conn.disconnectNotified && c.queue == []
    ensures var r := ReceiveLoop(c, Encode(f));
      && r.queue == [DispatchFrame(f), NotifyDisconnected("ReceiveLoop ended")]
      && !r.conn.isConnected && !r.user.isInRoom && r.events == c.events
  {
    ReceiveAllEncoded([f]);
    assert EncodeAll([f]) == Encode(f) + EncodeAll([]);
  }

  /**
   * A room-entry response that arrives just before the server closes the
   * connection: the read loop queues the frame, then disconnects; the next
   * `Update` dispatches the frame to a disconnected client, which ends up
   * in a room while not connected.
   */
  lemma StaleEnterRoomScenario(c: Client, f: Frame, decode: Frame -> Inbound,
                               dt: nat, interval: nat, snapshot: CharState, approx: (int, int) -> bool)
    requires interval > 0 && Encodable(f)
    requires c.conn.isConnected && !c.user.isInRoom && !c.conn.disconnectNotified && c.queue == []
    requires decode(f) == Inbound(ResEnterRoom, Some(EnterRoomRes(true)))
    ensures var r := Update(ReceiveLoop(c, Encode(f)), decode, false, dt, interval, snapshot, approx);
      r.user.isInRoom && !r.conn.isConnected && !Consistent(r)
      && r.events == c.events + [EnterRoomResult(true, "Entered room"), Disconnected("ReceiveLoop ended")]
  {
    ReceiveOneFrame(c, f);
    var received := ReceiveLoop(c, Encode(f));
    var rest := received.(queue := received.queue[1..]);
    var h := Dispatch(rest, decode(f));
    assert h.client.user.isInRoom && !h.faulted;
    assert h.client.queue == [NotifyDisconnected("ReceiveLoop ended")];
    var after := Raise(h.client.(queue := []), Disconnected("ReceiveLoop ended"));
    assert Drain(after, decode, false) == Drained(after, false);
    assert Drain(h.client, decode, false) == Drained(after, false);
    assert Drain(received, decode, false) == Drained(after, false);
  }

  /** The same arrival with stale frames dropped: the client stays out of the room. */
  lemma StaleEnterRoomDropped(c: Client, f: Frame, decode: Frame -> Inbound,
                              dt: nat, interval: nat, snapshot: CharState, approx: (int, int) -> bool)
    requires interval > 0 && Encodable(f)
    requires c.conn.isConnected && !c.user.isInRoom && !c.conn.disconnectNotified && c.queue == []
    requires decode(f) == Inbound(ResEnterRoom, Some(EnterRoomRes(true)))
    ensures var r := Update(ReceiveLoop(c, Encode(f)), decode, true, dt, interval, snapshot, approx);
      !r.user.isInRoom && !r.conn.isConnected && Consistent(r)
      && r.events == c.events + [Disconnected("ReceiveLoop ended")]
  {
    ReceiveOneFrame(c, f);
    var received := ReceiveLoop(c, Encode(f));
    var rest := received.(queue := received.queue[1..]);
    var h := DispatchWhileConnected(rest, decode(f));
    assert h == Handled(rest, false);
    var after := Raise(rest.(queue := []), Disconnected("ReceiveLoop ended"));
    assert Drain(after, decode, true) == Drained(after, false);
    assert Drain(rest, decode, true) == Drained(after, false);
    assert Drain(received, decode, true) == Drained(after, false);
  }
}
