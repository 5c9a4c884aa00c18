/**
 * `FixerClientService`: the request senders with their preconditions, the
 * guest-login nickname fallback, and the interaction notices that knock the
 * local player back.
 */
module ClientService {
  import opened Wrappers
  import opened Bytes
  import opened Protocol
  import opened Session
  import Decimal
  import LC = LoadingController

  /** The request was sent (and nothing else changed) or the client is untouched. */
  predicate SentOrUnchanged(c: Client, r: Client, req: Request)
  {
    r == c || r == c.(sent := c.sent + [req])
  }

  /** The request went out: the outgoing log grew by exactly this request. */
  predicate Sent(c: Client, r: Client, req: Request)
  {
    r.sent == c.sent + [req]
  }

  /** `Login` (unused by the game): sends only while connected. */
  function Login(c: Client, userId: string, password: string): (r: Client)
    ensures SentOrUnchanged(c, r, ReqLogin(userId, password))
    ensures Sent(c, r, ReqLogin(userId, password)) <==> CanSend(c)
  {
    if !c.conn.isConnected then c else SendProto(c, ReqLogin(userId, password))
  }

  /** `string.IsNullOrEmpty`. */
  predicate IsNullOrEmpty(s: Option<string>)
  {
    s.None? || s.value == ""
  }

  /**
   * The nickname a guest login uses: the platform nickname, or, when that is
   * empty, the random value in [0, 1000000) written as six zero-padded digits.
   */
  function GuestNickname(sdkNickname: Option<string>, randomValue: int): (name: string)
    requires 0 <= randomValue < 1_000_000
    ensures !IsNullOrEmpty(sdkNickname) ==> name == sdkNickname.value
    ensures IsNullOrEmpty(sdkNickname) ==>
      |name| == 6 && Decimal.AllDigits(name) && Decimal.ParseDigits(name) == randomValue
  {
    if IsNullOrEmpty(sdkNickname) then Decimal.FormatD6(randomValue) else sdkNickname.value
  }

  /**
   * `GuestLogin`: sends a guest login under `GuestNickname` while connected.
   * The platform nickname and `Random.Range(0, 1000000)` are given as inputs.
   */
  function GuestLogin(c: Client, sdkNickname: Option<string>, randomValue: int): (r: Client)
    requires 0 <= randomValue < 1_000_000
    ensures SentOrUnchanged(c, r, ReqGuestLogin(GuestNickname(sdkNickname, randomValue)))
    ensures Sent(c, r, ReqGuestLogin(GuestNickname(sdkNickname, randomValue))) <==> CanSend(c)
  {
    if !c.conn.isConnected then c
    else SendProto(c, ReqGuestLogin(GuestNickname(sdkNickname, randomValue)))
  }

  function Logout(c: Client): (r: Client)
    ensures SentOrUnchanged(c, r, ReqLogout)
    ensures Sent(c, r, ReqLogout) <==> CanSend(c)
  {
    if !c.conn.isConnected then c else SendProto(c, ReqLogout)
  }

  /** `EnterRoom`: also needs a logged-in user. */
  function EnterRoom(c: Client, roomId: UInt32, password: string): (r: Client)
    ensures SentOrUnchanged(c, r, ReqEnterRoom(roomId, password))
    ensures Sent(c, r, ReqEnterRoom(roomId, password)) <==> CanSend(c) && c.user.localUserId != 0
  {
    if !c.conn.isConnected then c
    else if c.user.localUserId == 0 then c
    else SendProto(c, ReqEnterRoom(roomId, password))
  }

  /** `LeaveRoom`: also needs to be in a room. */
  function LeaveRoom(c: Client): (r: Client)
    ensures SentOrUnchanged(c, r, ReqLeaveRoom)
    ensures Sent(c, r, ReqLeaveRoom) <==> CanSend(c) && c.user.isInRoom
  {
    if !c.conn.isConnected then c
    else if !c.user.isInRoom then c
    else SendProto(c, ReqLeaveRoom)
  }

  const CreateRoomTimeoutSec: int := 8

  /**
   * `CreateRoom`: while connected, opens a CreateRoom loading scope with an
   * 8-second timeout and no cancel callback, then sends the request.
   */
  function CreateRoom(c: Client, roomName: string, roomPassword: string, isPvp: bool): (r: Client)
    ensures !c.conn.isConnected ==> r == c
    ensures c.conn.isConnected ==>
      var b := BeginLoading(c, LC.CreateRoom, "Creating room...", None, Some(CreateRoomTimeoutSec));
      && r == SendProto(b, ReqCreateRoom(roomName, roomPassword, isPvp))
      && (c.loading.present ==>
            LC.CreateRoom in r.loading.scopes && r.loading.controller.timer == Some(LC.Timer(r.loading.controller.topId, 8))
            && r.loading.controller.onCancelTop.None?)
      && (Sent(c, r, ReqCreateRoom(roomName, roomPassword, isPvp)) <==> CanSend(c))
  {
    if !c.conn.isConnected then c
    else
      var b := BeginLoading(c, LC.CreateRoom, "Creating room...", None, Some(CreateRoomTimeoutSec));
      SendProto(b, ReqCreateRoom(roomName, roomPassword, isPvp))
  }

  function RequestRoomList(c: Client): (r: Client)
    ensures SentOrUnchanged(c, r, ReqRoomList)
    ensures Sent(c, r, ReqRoomList) <==> CanSend(c)
  {
    if !c.conn.isConnected then c else SendProto(c, ReqRoomList)
  }

  /** `char.IsWhiteSpace`: the Unicode White_Space characters. */
  predicate IsWhiteSpace(ch: char)
  {
    || ch == ' ' || ('\t' <= ch <= '\r') || ch == '\U{85}' || ch == '\U{A0}' || ch == '\U{1680}'
    || ('\U{2000}' <= ch <= '\U{200A}') || ch == '\U{2028}' || ch == '\U{2029}'
    || ch == '\U{202F}' || ch == '\U{205F}' || ch == '\U{3000}'
  }

  /** `string.IsNullOrWhiteSpace`. */
  predicate IsNullOrWhiteSpace(s: Option<string>)
  {
    s.None? || forall i :: 0 <= i < |s.value| ==> IsWhiteSpace(s.value[i])
  }

  /** `SendChat`: in a room, and only a message with some non-blank character. */
  function SendChat(c: Client, message: Option<string>): (r: Client)
    ensures message.Some? ==> SentOrUnchanged(c, r, ReqChat(message.value))
    ensures message.None? ==> r == c
    ensures r != c <==>
      (CanSend(c) && c.user.isInRoom && message.Some? &&
       exists i :: 0 <= i < |message.value| && !IsWhiteSpace(message.value[i]))
  {
    if !c.conn.isConnected then c
    else if !c.user.isInRoom then c
    else if IsNullOrWhiteSpace(message) then c
    else SendProto(c, ReqChat(message.value))
  }

  /** `(sbyte)x` in an unchecked context. */
  function ToSByte(x: int): (r: int)
    ensures -128 <= r < 128
    ensures -128 <= x < 128 ==> r == x
  {
    var m := x % 256;
    if m >= 128 then m - 256 else m
  }

  /** `(byte)x` in an unchecked context. */
  function ToByte(x: int): (r: Byte)
    ensures 0 <= x < 256 ==> r == x
  {
    x % 256
  }

  /** The state as `SendPlayerState` puts it on the wire: facing cast to `sbyte`, action to `byte`. */
  function WireState(s: CharState): (w: CharState)
    ensures w.posX == s.posX && w.posY == s.posY
    ensures -128 <= s.facingDir < 128 && 0 <= s.actionState < 256 ==> w == s
  {
    CharState(s.posX, s.posY, ToSByte(s.facingDir), ToByte(s.actionState))
  }

  /** `SendPlayerState`: in a room only. */
  function SendPlayerState(c: Client, s: CharState): (r: Client)
    ensures SentOrUnchanged(c, r, ReqPlayerState(WireState(s)))
    ensures Sent(c, r, ReqPlayerState(WireState(s))) <==> CanSend(c) && c.user.isInRoom
  {
    if !c.conn.isConnected then c
    else if !c.user.isInRoom then c
    else SendProto(c, ReqPlayerState(WireState(s)))
  }

  function SendPlayerInteract(c: Client, interactType: int, triggerUserId: UInt32, targetUserId: UInt32): (r: Client)
    ensures SentOrUnchanged(c, r, ReqPlayerInteract(interactType, triggerUserId, targetUserId))
    ensures Sent(c, r, ReqPlayerInteract(interactType, triggerUserId, targetUserId)) <==> CanSend(c) && c.user.isInRoom
  {
    if !c.conn.isConnected then c
    else if !c.user.isInRoom then c
    else SendProto(c, ReqPlayerInteract(interactType, triggerUserId, targetUserId))
  }

  /** `OnInteractAttack`: knocks the local player back exactly when it is the target. */
  function OnInteractAttack(c: Client, triggerUserId: UInt32, targetUserId: UInt32): (r: Client)
    ensures targetUserId == c.user.localUserId ==> r == Raise(c, PlayerKnockback(triggerUserId))
    ensures targetUserId != c.user.localUserId ==> r == c
  {
    if targetUserId == c.user.localUserId then Raise(c, PlayerKnockback(triggerUserId)) else c
  }

  /** `OnInteractPary`: the same rule for a parry. */
  function OnInteractPary(c: Client, triggerUserId: UInt32, targetUserId: UInt32): (r: Client)
    ensures targetUserId == c.user.localUserId ==> r == Raise(c, PlayerKnockback(triggerUserId))
    ensures targetUserId != c.user.localUserId ==> r == c
  {
    if targetUserId == c.user.localUserId then Raise(c, PlayerKnockback(triggerUserId)) else c
  }

  /** No request goes out while disconnected, whichever sender is called. */
  lemma NothingSentWhileDisconnected(c: Client, s: CharState, msg: Option<string>, id: UInt32, t: int)
    requires !c.conn.isConnected
    ensures Login(c, "", "") == c && Logout(c) == c && EnterRoom(c, id, "") == c
    ensures LeaveRoom(c) == c && CreateRoom(c, "", "", false) == c && RequestRoomList(c) == c
    ensures SendChat(c, msg) == c && SendPlayerState(c, s) == c && SendPlayerInteract(c, t, id, id) == c
  {
  }
}
