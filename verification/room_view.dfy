/**
 * The in-room view: the roster of `NetPlayerManager` and the avatars of
 * `NetPlayerObjectManager`, wired the way their events are. A room-info
 * notice updates the roster and is then forwarded to the avatar layer; a
 * state snapshot updates the roster and then hands the whole roster to the
 * avatar layer; a successful leave or a disconnect clears both.
 */
module RoomView {
  import opened Wrappers
  import opened Bytes
  import opened Protocol
  import NPM = NetPlayerManager
  import NPO = NetPlayerObjects

  datatype View = View(roster: NPM.Roster, objects: NPO.Objects)

  /** Every avatar belongs to a player on the roster. */
  predicate Covered(v: View)
  {
    v.objects.players.Keys <= v.roster.players.Keys
  }

  /** `OnNoticeRoomInfoReceived`: the roster follows the notice, then the avatars follow it too. */
  function OnRoomInfo(v: View, info: seq<PlayerEntry>, localId: UInt32): (r: View)
    ensures r.roster.players.Keys == Ids(info)
    ensures r.roster.lastRoomInfo == Some(info)
    ensures Covered(r)
    ensures localId in r.objects.players ==> localId in v.objects.players
    ensures NPO.Valid(v.objects) ==> NPO.Valid(r.objects)
  {
    View(NPM.UpdatePlayerInfo(v.roster, info), NPO.OnUpdatePlayerInfo(v.objects, Some(info), localId))
  }

  /**
   * `OnPlayerStatesReceived` as written: the roster takes the snapshot, then
   * the avatar layer is handed every roster entry and throws on the first
   * remote avatar whose entry has never carried a state.
   */
  function OnPlayerStatesAsWritten(v: View, entries: seq<StateEntry>, localId: UInt32): (r: Result<View, NPO.StateFault>)
    ensures var roster := NPM.UpdatePlayerState(v.roster, entries);
      r.Failure? <==> exists k :: k in roster.players && NPO.Receives(v.objects, k, localId) && roster.players[k].state.None?
  {
    var roster := NPM.UpdatePlayerState(v.roster, entries);
    match NPO.OnUpdatePlayerStateAsWritten(v.objects, roster.players, localId)
    case Failure(e) => Failure(e)
    case Success(o) => Success(View(roster, o))
  }

  /** `OnPlayerStatesReceived` with the corrected avatar layer, which skips entries without a state. */
  function OnPlayerStates(v: View, entries: seq<StateEntry>, localId: UInt32): (r: View)
    ensures r.roster == NPM.UpdatePlayerState(v.roster, entries)
    ensures r.objects.players.Keys == v.objects.players.Keys
    ensures Covered(v) ==> Covered(r)
    ensures OnPlayerStatesAsWritten(v, entries, localId).Success? ==> OnPlayerStatesAsWritten(v, entries, localId).value == r
  {
    var roster := NPM.UpdatePlayerState(v.roster, entries);
    View(roster, NPO.OnUpdatePlayerState(v.objects, roster.players, localId))
  }

  /** `OnLeaveRoomResult`: a successful leave clears the roster and, through `OnLeaveRoom`, the avatars. */
  function OnLeaveRoomResult(v: View, success: bool): (r: View)
    ensures !success ==> r == v
    ensures success ==> |r.roster.players| == 0 && |r.objects.players| == 0 && Covered(r)
  {
    if !success then v else View(NPM.OnLeaveRoomResult(v.roster, true), NPO.OnLeaveRoom(v.objects))
  }

  /** `OnDisconnected`: the roster and the avatars are cleared whatever the reason. */
  function OnDisconnected(v: View, reason: string): (r: View)
    ensures |r.roster.players| == 0 && |r.objects.players| == 0 && Covered(r)
    ensures r.roster.lastRoomInfo == v.roster.lastRoomInfo
  {
    View(NPM.OnDisconnected(v.roster, reason), NPO.OnLeaveRoom(v.objects))
  }

  /** `OnEnable` of the avatar layer: replays the last notice the roster kept, if any. */
  function Replay(v: View, localId: UInt32): (r: View)
    ensures v.roster.lastRoomInfo.None? ==> r == v
    ensures v.roster.lastRoomInfo.Some? ==> r.objects.players.Keys <= Ids(v.roster.lastRoomInfo.value)
    ensures r.roster == v.roster
  {
    View(v.roster, NPO.OnUpdatePlayerInfo(v.objects, v.roster.lastRoomInfo, localId))
  }

  /**
   * A player who joins and is missing from the next snapshot: the local
   * user 1 and a guest 2 are announced, then a snapshot carries only the
   * local user's state. As written the avatar layer dereferences the
   * guest's missing state.
   */
  lemma JoinBeforeFirstSnapshotThrows(s: CharState)
    ensures var v0 := View(NPM.Empty, NPO.Objects(map[], 0, true, None));
      var v1 := OnRoomInfo(v0, [PlayerEntry(1, "me"), PlayerEntry(2, "guest")], 1);
      var r := OnPlayerStatesAsWritten(v1, [StateEntry(1, Some(s))], 1);
      r.Failure? && r.error.userIds == {2}
  {
    var v0 := View(NPM.Empty, NPO.Objects(map[], 0, true, None));
    var info := [PlayerEntry(1, "me"), PlayerEntry(2, "guest")];
    assert Ids(info) == {1, 2} by {
      assert info[..1] == [PlayerEntry(1, "me")];
      assert [PlayerEntry(1, "me")][..0] == [];
    }
    var v1 := OnRoomInfo(v0, info, 1);
    assert NPO.Live(v1.objects, 2);
    var entries := [StateEntry(1, Some(s))];
    assert LastEntry(entries, 2).None?;
    assert LastEntry(entries, 1).Some?;
    var roster := NPM.UpdatePlayerState(v1.roster, entries);
    assert roster.players.Keys == {1, 2};
    assert roster.players[2].state.None?;
    assert NPO.NullStateTargets(v1.objects, roster.players, 1) == {2};
  }

  /**
   * With the corrected avatar layer a snapshot never throws, and every
   * remote avatar whose player the snapshot covers shows that player's
   * latest state.
   */
  lemma SnapshotReachesAvatars(v: View, entries: seq<StateEntry>, localId: UInt32, k: UInt32)
    requires Covered(v) && NPO.Receives(v.objects, k, localId)
    requires LastEntry(entries, k).Some? && LastEntry(entries, k).value.state.Some?
    ensures var r := OnPlayerStates(v, entries, localId);
      NPO.Live(r.objects, k) && r.objects.players[k].value.netState == LastEntry(entries, k).value.state
  {
  }
}
