/**
 * The session state owned by `FixerClient` and the transitions the rest of
 * the client drives it through: the send gate, the loading-scope map,
 * `Disconnect` and the `Set*Result` handlers.
 */
module Session {
  import opened Wrappers
  import opened Bytes
  import opened Protocol
  import opened FrameReceiver
  import LC = LoadingController

  /** The events `FixerClient` raises towards the UI and gameplay code. */
  datatype Event =
    | Connected
    | Disconnected(reason: string)
    | LoginResult(success: bool, message: string)
    | EnterRoomResult(success: bool, message: string)
    | LeaveRoomResult(success: bool, message: string)
    | CreateRoomResult(success: bool, message: string)
    | RoomListReceived(rooms: seq<Option<RoomSummary>>)
    | RoomInfoReceived(roster: seq<PlayerEntry>)
    | ChatReceived(senderName: string, text: string)
    | PlayerStatesReceived(states: seq<StateEntry>)
    | PlayerKnockback(triggerUserId: UInt32)

  /** The work `_mainThreadQueue` holds for the next `Update`. */
  datatype QueuedAction = DispatchFrame(frame: Frame) | NotifyDisconnected(reason: string)

  /**
   * The connection: `IsConnected`, the `_isConnecting` flag, the
   * `_disconnectNotified` latch, and whether `_client`, `_stream` and `_cts`
   * are non-null.
   */
  datatype Connection = Connection(
    isConnected: bool,
    isConnecting: bool,
    disconnectNotified: bool,
    hasTcpClient: bool,
    hasStream: bool,
    hasCts: bool)

  /** Who the client is logged in as, and whether it is in a room. */
  datatype User = User(localUserId: UInt32, localUserName: Option<string>, isInRoom: bool)

  /**
   * The `_loadingScopes` map, with the `LoadingController` it talks to;
   * `present` says whether a controller instance exists in the scene.
   */
  datatype Loading = Loading(present: bool, controller: LC.Controller, scopes: map<LC.LoadingType, LC.Scope>)

  /**
   * The replication state: the bound `PlayerNetworkSync` (by identity, `None`
   * when unbound), the send accumulator and the last sent state.
   */
  datatype Replication = Replication(sync: Option<nat>, sendAccum: int, lastState: CharState)

  /**
   * The client: `queue` is the main-thread FIFO, `events` the events raised
   * so far and `sent` the requests handed to the socket, in order.
   */
  datatype Client = Client(
    conn: Connection,
    user: User,
    loading: Loading,
    repl: Replication,
    queue: seq<QueuedAction>,
    events: seq<Event>,
    sent: seq<Request>)

  /** The client right after `Awake`, with or without a loading overlay in the scene. */
  function Initial(loaderPresent: bool): Client
  {
    Client(Connection(false, false, false, false, false, false), User(0, None, false),
           Loading(loaderPresent, LC.Initial, map[]), Replication(None, 0, EmptyState), [], [], [])
  }

  /**
   * The session invariant that `Disconnect` establishes when it clears the
   * flags together (FixerClient.cs:270-272): a user id or a room only while
   * connected.
   */
  predicate Consistent(c: Client)
  {
    (c.user.localUserId != 0 || c.user.isInRoom) ==> c.conn.isConnected
  }

  // ---------------------------------------------------------------------
  // Sending
  // ---------------------------------------------------------------------

  /** The `SendProtoAsync` gate: a request reaches the socket only while connected with a stream. */
  predicate CanSend(c: Client)
  {
    c.conn.isConnected && c.conn.hasStream
  }

  /**
   * `SendProtoAsync`: appends the request to the outgoing log when the gate
   * is open and silently drops it otherwise; nothing else changes.
   */
  function SendProto(c: Client, req: Request): (r: Client)
    ensures CanSend(c) ==> r.sent == c.sent + [req]
    ensures !CanSend(c) ==> r == c
    ensures r == c.(sent := r.sent)
  {
    if !c.conn.isConnected || !c.conn.hasStream then c else c.(sent := c.sent + [req])
  }

  /** Raises one event synchronously. */
  function Raise(c: Client, e: Event): (r: Client)
    ensures r.events == c.events + [e]
    ensures r == c.(events := r.events)
  {
    c.(events := c.events + [e])
  }

  // ---------------------------------------------------------------------
  // Loading scopes
  // ---------------------------------------------------------------------

  /** The scopes of the map still holding their controller. */
  function OwnedKinds(scopes: map<LC.LoadingType, LC.Scope>): set<LC.LoadingType>
  {
    set k | k in scopes && scopes[k].owned
  }

  /**
   * `EndLoading(kind)`: disposes and forgets the scope of that kind, if any;
   * the scopes of every other kind stay as they were.
   */
  function EndLoading(c: Client, kind: LC.LoadingType): (r: Client)
    ensures r.loading.scopes == c.loading.scopes - {kind}
    ensures kind !in c.loading.scopes ==> r == c
    ensures kind in c.loading.scopes && c.loading.scopes[kind].owned ==>
      r.loading.controller == LC.End(c.loading.controller, c.loading.scopes[kind].id)
    ensures kind in c.loading.scopes && !c.loading.scopes[kind].owned ==>
      r.loading.controller == c.loading.controller
    ensures r.loading.present == c.loading.present
    ensures r == c.(loading := r.loading)
  {
    var l := c.loading;
    if kind in l.scopes then
      var (ctrl, _) := LC.Dispose(l.controller, l.scopes[kind]);
      c.(loading := l.(controller := ctrl, scopes := l.scopes - {kind}))
    else c
  }

  /**
   * `BeginLoading(kind, …)`: ends any scope of that kind first, then opens
   * and records a new one only when a controller exists.
   */
  function BeginLoading(c: Client, kind: LC.LoadingType, title: string,
                        onCancel: Option<LC.CancelAction>, timeoutSec: Option<int>): (r: Client)
    ensures var e := EndLoading(c, kind).loading;
      && (c.loading.present ==>
            && r.loading.scopes.Keys == e.scopes.Keys + {kind}
            && r.loading.scopes[kind].owned
            && r.loading.scopes[kind].id == r.loading.controller.topId
            && r.loading.scopes[kind].id >= e.controller.nextId
            && r.loading.controller.activeCount == e.controller.activeCount + 1
            && r.loading.controller.onCancelTop == onCancel
            && r.loading.controller.timer ==
                 Some(LC.Timer(r.loading.controller.topId, timeoutSec.GetOr(LC.DefaultTimeoutSec))))
      && (!c.loading.present ==> r.loading == e)
    ensures forall k :: k != kind && k in c.loading.scopes ==>
      k in r.loading.scopes && r.loading.scopes[k] == c.loading.scopes[k]
    ensures forall k :: k != kind && k in r.loading.scopes ==> k in c.loading.scopes
    ensures r.loading.present == c.loading.present
    ensures r == c.(loading := r.loading)
  {
    var e := EndLoading(c, kind);
    var l := e.loading;
    if l.present then
      var (ctrl, scope) := LC.Begin(l.controller, kind, title, onCancel, timeoutSec);
      e.(loading := l.(controller := ctrl, scopes := l.scopes[kind := scope]))
    else e
  }

  /**
   * `EndAllLoading`: disposes every recorded scope and empties the map.
   * Each live scope ends once; since ending ignores the scope's id, the
   * order the dictionary is walked in does not matter.
   */
  function EndAllLoading(c: Client): (r: Client)
    ensures r.loading.scopes == map[]
    ensures r.loading.controller == LC.EndTimes(c.loading.controller, |OwnedKinds(c.loading.scopes)|)
    ensures r.loading.present == c.loading.present
    ensures r == c.(loading := r.loading)
  {
    var l := c.loading;
    c.(loading := l.(controller := LC.EndTimes(l.controller, |OwnedKinds(l.scopes)|), scopes := map[]))
  }

  // ---------------------------------------------------------------------
  // Disconnect
  // ---------------------------------------------------------------------

  /** Nothing left to tear down: the early-return condition of `Disconnect`. */
  predicate Released(c: Client)
  {
    && !c.conn.isConnected && !c.conn.hasTcpClient && !c.conn.hasStream && !c.conn.hasCts
    && |c.loading.scopes| == 0
  }

  /**
   * `Disconnect(reason)`: a no-op once everything is released; otherwise
   * clears the connection, room and user id, unbinds the local sync, zeroes
   * the send accumulator, drops the transport handles and every loading
   * scope, and queues the `Disconnected` notification unless this cycle has
   * already queued one. The replication baseline, the user name and the
   * connecting flag are left as they were.
   */
  function Disconnect(c: Client, reason: string): (r: Client)
    ensures Released(c) ==> r == c
    ensures !Released(c) ==>
      && Released(r) && !r.user.isInRoom && r.user.localUserId == 0
      && r.repl.sync.None? && r.repl.sendAccum == 0 && r.conn.disconnectNotified
      && r.loading.controller == LC.EndTimes(c.loading.controller, |OwnedKinds(c.loading.scopes)|)
      && r.queue == c.queue + (if c.conn.disconnectNotified then [] else [NotifyDisconnected(reason)])
    ensures Consistent(c) ==> Consistent(r)
    ensures r.repl.lastState == c.repl.lastState && r.user.localUserName == c.user.localUserName
    ensures r.conn.isConnecting == c.conn.isConnecting && r.loading.present == c.loading.present
    ensures r.events == c.events && r.sent == c.sent
    ensures c.conn.disconnectNotified ==> r.conn.disconnectNotified
  {
    if Released(c) then c
    else
      var torn := c.(conn := c.conn.(isConnected := false, hasCts := false, hasStream := false, hasTcpClient := false),
                     user := c.user.(isInRoom := false, localUserId := 0),
                     repl := c.repl.(sync := None, sendAccum := 0));
      var ended := EndAllLoading(torn);
      if !ended.conn.disconnectNotified then
        ended.(conn := ended.conn.(disconnectNotified := true), queue := ended.queue + [NotifyDisconnected(reason)])
      else ended
  }

  /** `Disconnect` called once per reason, in order, as the read loop, a cancel button and teardown may do. */
  function DisconnectAll(c: Client, reasons: seq<string>): Client
    decreases |reasons|
  {
    if reasons == [] then c else DisconnectAll(Disconnect(c, reasons[0]), reasons[1..])
  }

  lemma {:induction false} DisconnectAllOnReleased(c: Client, reasons: seq<string>)
    requires Released(c)
    ensures DisconnectAll(c, reasons) == c
    decreases |reasons|
  {
    if reasons != [] {
      DisconnectAllOnReleased(c, reasons[1..]);
    }
  }

  /**
   * However many times `Disconnect` runs, the queue gains exactly one
   * `Disconnected` notification, carrying the first caller's reason, when the
   * first call tore something down and the latch was clear, and none otherwise.
   */
  lemma {:induction false} DisconnectNotifiesAtMostOnce(c: Client, reasons: seq<string>)
    ensures DisconnectAll(c, reasons).queue ==
      c.queue + (if reasons != [] && !Released(c) && !c.conn.disconnectNotified
                 then [NotifyDisconnected(reasons[0])] else [])
  {
    if reasons != [] {
      var c1 := Disconnect(c, reasons[0]);
      if Released(c) {
        DisconnectAllOnReleased(c, reasons);
      } else {
        DisconnectAllOnReleased(c1, reasons[1..]);
      }
    }
  }

  /** Disconnecting twice in a row is the same as disconnecting once. */
  lemma DisconnectIdempotent(c: Client, first: string, second: string)
    ensures Disconnect(Disconnect(c, first), second) == Disconnect(c, first)
  {
  }

  // ---------------------------------------------------------------------
  // Results reported by the packet handlers
  // ---------------------------------------------------------------------

  /** `SetLoginResult`: success records the user id; failure keeps the old one. Either way the result is raised. */
  function SetLoginResult(c: Client, success: bool, userId: UInt32, message: string): (r: Client)
    ensures success ==> r.user.localUserId == userId
    ensures !success ==> r.user.localUserId == c.user.localUserId
    ensures r.events == c.events + [LoginResult(success, message)]
    ensures r == c.(user := c.user.(localUserId := r.user.localUserId), events := r.events)
  {
    Raise(if success then c.(user := c.user.(localUserId := userId)) else c, LoginResult(success, message))
  }

  /** `SetEnterRoomResult`: success puts the client in a room; failure changes no state. */
  function SetEnterRoomResult(c: Client, success: bool, message: string): (r: Client)
    ensures r.user.isInRoom == (success || c.user.isInRoom)
    ensures r.events == c.events + [EnterRoomResult(success, message)]
    ensures r == c.(user := c.user.(isInRoom := r.user.isInRoom), events := r.events)
  {
    Raise(if success then c.(user := c.user.(isInRoom := true)) else c, EnterRoomResult(success, message))
  }

  /** `SetLeaveRoomResult`: success takes the client out of the room but leaves it connected. */
  function SetLeaveRoomResult(c: Client, success: bool, message: string): (r: Client)
    ensures r.user.isInRoom == (!success && c.user.isInRoom)
    ensures r.events == c.events + [LeaveRoomResult(success, message)]
    ensures r == c.(user := c.user.(isInRoom := r.user.isInRoom), events := r.events)
  {
    Raise(if success then c.(user := c.user.(isInRoom := false)) else c, LeaveRoomResult(success, message))
  }
}
