/**
 * `FixerPacketHandlers`: routes a received frame by packet id to its
 * handler. Response handlers first end the loading scope of their request,
 * then parse the body; a body the parser rejects throws out of the handler
 * after that point.
 */
module PacketHandlers {
  import opened Wrappers
  import opened Bytes
  import opened Protocol
  import opened Session
  import opened ClientService
  import LC = LoadingController

  /** The client after a handler ran, and whether the handler threw. */
  datatype Handled = Handled(client: Client, faulted: bool)

  /** The packet kind a parsed message belongs to. */
  function KindOf(m: Message): PacketKind
  {
    match m
    case LoginRes(_, _, _) => ResLogin
    case EnterRoomRes(_) => ResEnterRoom
    case LeaveRoomRes(_) => ResLeaveRoom
    case RoomListRes(_) => ResRoomList
    case CreateRoomRes(_) => ResCreateRoom
    case Chat(_, _) => NoticeChat
    case PlayerStates(_) => NoticePlayerState
    case RoomInfo(_) => NoticeRoomInfo
    case Interact(_, _, _) => NoticePlayerInteract
  }

  /** The body parses as the message type its packet id names. */
  predicate Parses(msg: Inbound)
  {
    msg.body.Some? && KindOf(msg.body.value) == msg.kind
  }

  /** The loading scope a response closes, if it is a response. */
  function ScopeOf(kind: PacketKind): Option<LC.LoadingType>
  {
    match kind
    case ResLogin => Some(LC.Login)
    case ResEnterRoom => Some(LC.EnterRoom)
    case ResLeaveRoom => Some(LC.LeaveRoom)
    case ResRoomList => Some(LC.FetchRoomList)
    case ResCreateRoom => Some(LC.CreateRoom)
    case _ => None
  }

  /**
   * What a handler may change: the room flag, the user, the loading scopes,
   * the events and the outgoing log. The connection, the queue, the latches
   * and the replication state are left alone.
   */
  predicate Untouched(c: Client, r: Client)
  {
    r.conn == c.conn && r.repl == c.repl && r.queue == c.queue && r.loading.present == c.loading.present
  }

  /**
   * `OnResLogin`: failure reports `(false, 0)` and changes no state; success
   * records the user name, then the user id, and requests the room list.
   */
  function OnResLogin(c: Client, body: Option<Message>): (h: Handled)
    ensures LC.Login !in h.client.loading.scopes
    ensures Untouched(c, h.client) && h.client.user.isInRoom == c.user.isInRoom
    ensures h.faulted <==> !(body.Some? && body.value.LoginRes?)
    ensures !h.faulted && !body.value.isSuccess ==>
      && h.client.user.localUserId == c.user.localUserId && h.client.user.localUserName == c.user.localUserName
      && h.client.events == c.events + [LoginResult(false, "Login failed")]
      && h.client.sent == c.sent
    ensures !h.faulted && body.value.isSuccess ==>
      && h.client.user.localUserId == body.value.userId
      && h.client.user.localUserName == Some(body.value.userName)
      && h.client.events == c.events + [LoginResult(true, "Login succeeded")]
      && h.client.sent == c.sent + (if CanSend(c) then [ReqRoomList] else [])
  {
    var e := EndLoading(c, LC.Login);
    if !(body.Some? && body.value.LoginRes?) then Handled(e, true)
    else
      var res := body.value;
      if !res.isSuccess then Handled(SetLoginResult(e, false, 0, "Login failed"), false)
      else
        var named := e.(user := e.user.(localUserName := Some(res.userName)));
        Handled(RequestRoomList(SetLoginResult(named, true, res.userId, "Login succeeded")), false)
  }

  /** `OnResEnterRoom`: success puts the client in a room; failure only reports it. */
  function OnResEnterRoom(c: Client, body: Option<Message>): (h: Handled)
    ensures LC.EnterRoom !in h.client.loading.scopes
    ensures Untouched(c, h.client) && h.client.sent == c.sent && h.client.user.localUserId == c.user.localUserId
    ensures h.faulted <==> !(body.Some? && body.value.EnterRoomRes?)
    ensures !h.faulted ==>
      && h.client.user.isInRoom == (body.value.isSuccess || c.user.isInRoom)
      && h.client.events == c.events + [EnterRoomResult(body.value.isSuccess,
           if body.value.isSuccess then "Entered room" else "Enter room failed")]
    ensures h.faulted ==> h.client.user.isInRoom == c.user.isInRoom && h.client.events == c.events
  {
    var e := EndLoading(c, LC.EnterRoom);
    if !(body.Some? && body.value.EnterRoomRes?) then Handled(e, true)
    else if !body.value.isSuccess then Handled(SetEnterRoomResult(e, false, "Enter room failed"), false)
    else Handled(SetEnterRoomResult(e, true, "Entered room"), false)
  }

  /** `OnResLeaveRoom`: success leaves the room but stays connected. */
  function OnResLeaveRoom(c: Client, body: Option<Message>): (h: Handled)
    ensures LC.LeaveRoom !in h.client.loading.scopes
    ensures Untouched(c, h.client) && h.client.sent == c.sent && h.client.user.localUserId == c.user.localUserId
    ensures h.faulted <==> !(body.Some? && body.value.LeaveRoomRes?)
    ensures !h.faulted ==>
      && h.client.user.isInRoom == (!body.value.isSuccess && c.user.isInRoom)
      && h.client.events == c.events + [LeaveRoomResult(body.value.isSuccess,
           if body.value.isSuccess then "Left room" else "Leave room failed")]
    ensures h.faulted ==> h.client.user.isInRoom == c.user.isInRoom && h.client.events == c.events
  {
    var e := EndLoading(c, LC.LeaveRoom);
    if !(body.Some? && body.value.LeaveRoomRes?) then Handled(e, true)
    else if !body.value.isSuccess then Handled(SetLeaveRoomResult(e, false, "Leave room failed"), false)
    else Handled(SetLeaveRoomResult(e, true, "Left room"), false)
  }

  /** `OnResRoomList`: hands the list to the UI. */
  function OnResRoomList(c: Client, body: Option<Message>): (h: Handled)
    ensures LC.FetchRoomList !in h.client.loading.scopes
    ensures Untouched(c, h.client) && h.client.sent == c.sent
    ensures h.client.user.localUserId == c.user.localUserId && h.client.user.isInRoom == c.user.isInRoom
    ensures h.faulted <==> !(body.Some? && body.value.RoomListRes?)
    ensures !h.faulted ==> h.client.events == c.events + [RoomListReceived(body.value.rooms)]
  {
    var e := EndLoading(c, LC.FetchRoomList);
    if !(body.Some? && body.value.RoomListRes?) then Handled(e, true)
    else Handled(Raise(e, RoomListReceived(body.value.rooms)), false)
  }

  /**
   * `OnResCreateRoom`: success reports the creation and then a successful
   * room entry, which puts the client in the room; failure reports only the
   * failed creation.
   */
  function OnResCreateRoom(c: Client, body: Option<Message>): (h: Handled)
    ensures LC.CreateRoom !in h.client.loading.scopes
    ensures Untouched(c, h.client) && h.client.sent == c.sent && h.client.user.localUserId == c.user.localUserId
    ensures h.faulted <==> !(body.Some? && body.value.CreateRoomRes?)
    ensures !h.faulted && body.value.isSuccess ==>
      && h.client.user.isInRoom
      && h.client.events == c.events + [CreateRoomResult(true, "Room created"), EnterRoomResult(true, "Entered room")]
    ensures !h.faulted && !body.value.isSuccess ==>
      && h.client.user.isInRoom == c.user.isInRoom
      && h.client.events == c.events + [CreateRoomResult(false, "Create room failed")]
  {
    var e := EndLoading(c, LC.CreateRoom);
    if !(body.Some? && body.value.CreateRoomRes?) then Handled(e, true)
    else if !body.value.isSuccess then Handled(Raise(e, CreateRoomResult(false, "Create room failed")), false)
    else
      var created := Raise(e, CreateRoomResult(true, "Room created"));
      Handled(SetEnterRoomResult(created, true, "Entered room"), false)
  }

  /** `OnNoticePlayerInteract`: type 1 is an attack, type 2 a parry, anything else is ignored. */
  function OnNoticePlayerInteract(c: Client, interactType: int, triggerUserId: UInt32, targetUserId: UInt32): (r: Client)
    ensures r == c || r == Raise(c, PlayerKnockback(triggerUserId))
    ensures r != c <==> (interactType == 1 || interactType == 2) && targetUserId == c.user.localUserId
  {
    if interactType == 1 then OnInteractAttack(c, triggerUserId, targetUserId)
    else if interactType == 2 then OnInteractPary(c, triggerUserId, targetUserId)
    else c
  }

  /**
   * `Dispatch`: unlisted packet ids are ignored; every listed one goes to its
   * handler, which throws when the body does not parse. Notices forward
   * their content to the client unchanged.
   */
  function Dispatch(c: Client, msg: Inbound): (h: Handled)
    ensures msg.kind == Unlisted ==> h == Handled(c, false)
    ensures h.faulted <==> msg.kind != Unlisted && !Parses(msg)
    ensures ScopeOf(msg.kind).Some? ==> ScopeOf(msg.kind).value !in h.client.loading.scopes
    ensures Untouched(c, h.client)
    ensures Parses(msg) && msg.body.value.Chat? ==>
      h.client == Raise(c, ChatReceived(msg.body.value.senderName, msg.body.value.text))
    ensures Parses(msg) && msg.body.value.PlayerStates? ==>
      h.client == Raise(c, PlayerStatesReceived(msg.body.value.states))
    ensures Parses(msg) && msg.body.value.RoomInfo? ==>
      h.client == Raise(c, RoomInfoReceived(msg.body.value.roster))
    ensures Parses(msg) && msg.body.value.Interact? ==>
      h == Handled(OnNoticePlayerInteract(c, msg.body.value.interactType, msg.body.value.triggerUserId,
                                          msg.body.value.targetUserId), false)
    // the response ids each go to their own handler
    ensures msg.kind == ResLogin ==> h == OnResLogin(c, msg.body)
    ensures msg.kind == ResEnterRoom ==> h == OnResEnterRoom(c, msg.body)
    ensures msg.kind == ResLeaveRoom ==> h == OnResLeaveRoom(c, msg.body)
    ensures msg.kind == ResRoomList ==> h == OnResRoomList(c, msg.body)
    ensures msg.kind == ResCreateRoom ==> h == OnResCreateRoom(c, msg.body)
  {
    match msg.kind
    case ResLogin => OnResLogin(c, msg.body)
    case ResEnterRoom => OnResEnterRoom(c, msg.body)
    case ResLeaveRoom => OnResLeaveRoom(c, msg.body)
    case ResRoomList => OnResRoomList(c, msg.body)
    case ResCreateRoom => OnResCreateRoom(c, msg.body)
    case NoticeChat =>
      if !Parses(msg) then Handled(c, true)
      else Handled(Raise(c, ChatReceived(msg.body.value.senderName, msg.body.value.text)), false)
    case NoticePlayerState =>
      if !Parses(msg) then Handled(c, true)
      else Handled(Raise(c, PlayerStatesReceived(msg.body.value.states)), false)
    case NoticeRoomInfo =>
      if !Parses(msg) then Handled(c, true)
      else Handled(Raise(c, RoomInfoReceived(msg.body.value.roster)), false)
    case NoticePlayerInteract =>
      if !Parses(msg) then Handled(c, true)
      else
        var m := msg.body.value;
        Handled(OnNoticePlayerInteract(c, m.interactType, m.triggerUserId, m.targetUserId), false)
    case Unlisted => Handled(c, false)
  }

  // ---------------------------------------------------------------------
  // Responses dispatched after a disconnect
  // ---------------------------------------------------------------------

  /**
   * As written, a successful room-entry response that is dispatched after
   * the session was torn down (it was queued before the read loop ended)
   * puts a disconnected client in a room.
   */
  lemma EnterRoomAfterDisconnectBreaksConsistency(c: Client)
    requires !c.conn.isConnected
    ensures var h := Dispatch(c, Inbound(ResEnterRoom, Some(EnterRoomRes(true))));
      h.client.user.isInRoom && !h.client.conn.isConnected && !Consistent(h.client)
  {
  }

  /** The same for a login response: a disconnected client acquires a user id. */
  lemma LoginAfterDisconnectBreaksConsistency(c: Client)
    requires !c.conn.isConnected
    ensures var h := Dispatch(c, Inbound(ResLogin, Some(LoginRes(true, 42, "guest"))));
      h.client.user.localUserId == 42 && !Consistent(h.client)
  {
  }

  /** The corrected router: frames left over from a torn-down connection are dropped. */
  function DispatchWhileConnected(c: Client, msg: Inbound): (h: Handled)
    ensures !c.conn.isConnected ==> h == Handled(c, false)
    ensures c.conn.isConnected ==> h == Dispatch(c, msg)
    ensures Consistent(c) ==> Consistent(h.client)
  {
    if !c.conn.isConnected then Handled(c, false) else Dispatch(c, msg)
  }

  /**
   * The router never reads the action queue: dispatching with a different
   * queue gives the same outcome with that queue in place. This is what lets
   * the loop drain a queue one action at a time.
   */
  lemma DispatchIgnoresQueue(c: Client, msg: Inbound, q: seq<QueuedAction>)
    ensures var h := Dispatch(c, msg);
      Dispatch(c.(queue := q), msg) == Handled(h.client.(queue := q), h.faulted)
  {
    match msg.kind
    case ResLogin => ResLoginIgnoresQueue(c, msg.body, q);
    case ResEnterRoom => ResEnterRoomIgnoresQueue(c, msg.body, q);
    case ResLeaveRoom => ResLeaveRoomIgnoresQueue(c, msg.body, q);
    case ResRoomList => ResRoomListIgnoresQueue(c, msg.body, q);
    case ResCreateRoom => ResCreateRoomIgnoresQueue(c, msg.body, q);
    case _ =>
  }

  /** The response handlers do not read the queue either. */
  lemma ResLoginIgnoresQueue(c: Client, body: Option<Message>, q: seq<QueuedAction>)
    ensures var h := OnResLogin(c, body);
      OnResLogin(c.(queue := q), body) == Handled(h.client.(queue := q), h.faulted)
  {
  }

  lemma ResEnterRoomIgnoresQueue(c: Client, body: Option<Message>, q: seq<QueuedAction>)
    ensures var h := OnResEnterRoom(c, body);
      OnResEnterRoom(c.(queue := q), body) == Handled(h.client.(queue := q), h.faulted)
  {
  }

  lemma ResLeaveRoomIgnoresQueue(c: Client, body: Option<Message>, q: seq<QueuedAction>)
    ensures var h := OnResLeaveRoom(c, body);
      OnResLeaveRoom(c.(queue := q), body) == Handled(h.client.(queue := q), h.faulted)
  {
  }

  lemma ResRoomListIgnoresQueue(c: Client, body: Option<Message>, q: seq<QueuedAction>)
    ensures var h := OnResRoomList(c, body);
      OnResRoomList(c.(queue := q), body) == Handled(h.client.(queue := q), h.faulted)
  {
  }

  lemma ResCreateRoomIgnoresQueue(c: Client, body: Option<Message>, q: seq<QueuedAction>)
    ensures var h := OnResCreateRoom(c, body);
      OnResCreateRoom(c.(queue := q), body) == Handled(h.client.(queue := q), h.faulted)
  {
  }

  /** The same for the corrected router. */
  lemma DispatchWhileConnectedIgnoresQueue(c: Client, msg: Inbound, q: seq<QueuedAction>)
    ensures var h := DispatchWhileConnected(c, msg);
      DispatchWhileConnected(c.(queue := q), msg) == Handled(h.client.(queue := q), h.faulted)
  {
    if c.conn.isConnected {
      DispatchIgnoresQueue(c, msg, q);
    }
  }
}
