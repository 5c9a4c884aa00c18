/**
 * The protobuf messages the session exchanges, as abstract datatypes.
 * Their wire encoding belongs to the generated protobuf code; the framing
 * layer only ever sees their serialized bytes.
 */
module Protocol {
  import opened Wrappers
  import opened Bytes

  /**
   * `CharacterState`: position, facing and action of one player. Positions
   * are floats in the game; here they are integer units compared through an
   * abstract "approximately equal" relation where the source uses
   * `Mathf.Approximately`.
   */
  datatype CharState = CharState(posX: int, posY: int, facingDir: int, actionState: int)

  /** A protobuf `CharacterState` built with `new`: every field zero. */
  const EmptyState := CharState(0, 0, 0, 0)

  /** One player of a `NoticeRoomInfo`. */
  datatype PlayerEntry = PlayerEntry(userId: UInt32, userName: string)

  /** One entry of a `NoticePlayerState`; an unset `State` field reads as `null`. */
  datatype StateEntry = StateEntry(userId: UInt32, state: Option<CharState>)

  /** One room of a `ResRoomList`. */
  datatype RoomSummary = RoomSummary(roomId: UInt32, roomName: Option<string>, playerCount: UInt32)

  /** Client-to-server requests (`Req*`). */
  datatype Request =
    | ReqLogin(userId: string, password: string)
    | ReqGuestLogin(nickname: string)
    | ReqLogout
    | ReqEnterRoom(roomId: UInt32, password: string)
    | ReqLeaveRoom
    | ReqCreateRoom(roomName: string, roomPassword: string, isPvp: bool)
    | ReqRoomList
    | ReqChat(message: string)
    | ReqPlayerState(state: CharState)
    | ReqPlayerInteract(interactType: int, triggerUserId: UInt32, targetUserId: UInt32)

  /** The packet ids the router has a case for; every other id is `Unlisted`. */
  datatype PacketKind =
    | ResLogin | ResEnterRoom | ResLeaveRoom | ResRoomList | ResCreateRoom
    | NoticeChat | NoticePlayerState | NoticeRoomInfo | NoticePlayerInteract
    | Unlisted

  /** Server-to-client messages, as the protobuf parser returns them. */
  datatype Message =
    | LoginRes(isSuccess: bool, userId: UInt32, userName: string)
    | EnterRoomRes(isSuccess: bool)
    | LeaveRoomRes(isSuccess: bool)
    | RoomListRes(rooms: seq<Option<RoomSummary>>)
    | CreateRoomRes(isSuccess: bool)
    | Chat(senderName: string, text: string)
    | PlayerStates(states: seq<StateEntry>)
    | RoomInfo(roster: seq<PlayerEntry>)
    | Interact(interactType: int, triggerUserId: UInt32, targetUserId: UInt32)

  /**
   * A received frame as the router sees it: the kind its packet id names and
   * the parsed body, `None` when `Parser.ParseFrom` throws.
   */
  datatype Inbound = Inbound(kind: PacketKind, body: Option<Message>)

  // ---------------------------------------------------------------------
  // Reading notices
  // ---------------------------------------------------------------------

  /** The user ids a room-info notice lists. */
  function Ids(roster: seq<PlayerEntry>): set<UInt32>
  {
    if roster == [] then {} else Ids(roster[..|roster| - 1]) + {roster[|roster| - 1].userId}
  }

  /** `Ids` holds exactly the ids that occur in the notice. */
  lemma {:induction false} IdsAreListed(roster: seq<PlayerEntry>, k: UInt32)
    ensures k in Ids(roster) <==> exists i :: 0 <= i < |roster| && roster[i].userId == k
  {
    if roster != [] {
      var n := |roster| - 1;
      IdsAreListed(roster[..n], k);
      if k in Ids(roster) && roster[n].userId != k {
        var i :| 0 <= i < n && roster[..n][i].userId == k;
        assert roster[i].userId == k;
      }
      if k !in Ids(roster) {
        forall i | 0 <= i < |roster|
          ensures roster[i].userId != k
        {
          if i < n {
            assert roster[i] == roster[..n][i];
          }
        }
      }
    }
  }

  /** The name the last entry for `k` carries: the name a dictionary update in notice order leaves. */
  function LastName(roster: seq<PlayerEntry>, k: UInt32): (name: Option<string>)
    ensures name.Some? <==> k in Ids(roster)
  {
    if roster == [] then None
    else
      var n := |roster| - 1;
      if roster[n].userId == k then Some(roster[n].userName) else LastName(roster[..n], k)
  }

  /** The name `LastName` finds is carried by an entry for `k` that no later entry for `k` follows. */
  lemma {:induction false} LastNameIsLast(roster: seq<PlayerEntry>, k: UInt32)
    ensures LastName(roster, k).Some? ==>
      exists i :: 0 <= i < |roster| && roster[i].userId == k && roster[i].userName == LastName(roster, k).value
                  && forall j :: i < j < |roster| ==> roster[j].userId != k
    decreases |roster|
  {
    if roster != [] {
      var n := |roster| - 1;
      if roster[n].userId != k && LastName(roster, k).Some? {
        LastNameIsLast(roster[..n], k);
        var i :| 0 <= i < n && roster[..n][i].userId == k && roster[..n][i].userName == LastName(roster[..n], k).value
                 && forall j :: i < j < n ==> roster[..n][j].userId != k;
        assert roster[i] == roster[..n][i];
        assert forall j :: i < j < n ==> roster[j] == roster[..n][j];
      }
    }
  }

  /** The last entry for `k` in a state snapshot, if any. */
  function LastEntry(entries: seq<StateEntry>, k: UInt32): (e: Option<StateEntry>)
    ensures e.Some? ==> e.value in entries && e.value.userId == k
    ensures e.None? ==> forall i :: 0 <= i < |entries| ==> entries[i].userId != k
  {
    if entries == [] then None
    else
      var n := |entries| - 1;
      if entries[n].userId == k then Some(entries[n])
      else
        var e := LastEntry(entries[..n], k);
        assert forall i :: 0 <= i < n ==> entries[i] == entries[..n][i];
        e
  }

  /** The entry `LastEntry` finds is one that no later entry for `k` follows. */
  lemma {:induction false} LastEntryIsLast(entries: seq<StateEntry>, k: UInt32)
    ensures LastEntry(entries, k).Some? ==>
      exists i :: 0 <= i < |entries| && entries[i] == LastEntry(entries, k).value
                  && forall j :: i < j < |entries| ==> entries[j].userId != k
    decreases |entries|
  {
    if entries != [] {
      var n := |entries| - 1;
      if entries[n].userId != k && LastEntry(entries, k).Some? {
        LastEntryIsLast(entries[..n], k);
        var i :| 0 <= i < n && entries[..n][i] == LastEntry(entries[..n], k).value
                 && forall j :: i < j < n ==> entries[..n][j].userId != k;
        assert entries[i] == entries[..n][i];
        assert forall j :: i < j < n ==> entries[j] == entries[..n][j];
      }
    }
  }
}
