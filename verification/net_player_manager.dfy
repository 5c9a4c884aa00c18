/**
 * `NetPlayerManager`: the roster of everyone in the room, the local user
 * included, keyed by user id. Room-info notices reconcile the key set and
 * the names; state snapshots fill in the states of players already on the
 * roster. The events it raises towards the avatar layer are wired in
 * `RoomView`.
 */
module NetPlayerManager {
  import opened Wrappers
  import opened Bytes
  import opened Protocol

  /** `NetPlayerData`; `state` is `None` until a snapshot has carried one (the struct default is null). */
  datatype PlayerData = PlayerData(id: UInt32, name: string, state: Option<CharState>)

  /** The `players` dictionary and the last room-info notice received. */
  datatype Roster = Roster(players: map<UInt32, PlayerData>, lastRoomInfo: Option<seq<PlayerEntry>>)

  const Empty: Roster := Roster(map[], None)

  /** Every entry records the id it is filed under. */
  predicate WellKeyed(players: map<UInt32, PlayerData>)
  {
    forall k :: k in players ==> players[k].id == k
  }

  /**
   * The second loop of `UpdatePlayerInfo`: each listed player, in notice
   * order, is added with no state or has its id and name rewritten, keeping
   * its state.
   */
  function Upsert(players: map<UInt32, PlayerData>, roster: seq<PlayerEntry>): (r: map<UInt32, PlayerData>)
    ensures r.Keys == players.Keys + Ids(roster)
    ensures forall k :: k in Ids(roster) ==>
      r[k] == PlayerData(k, LastName(roster, k).value, if k in players then players[k].state else None)
    ensures forall k :: k in players && k !in Ids(roster) ==> r[k] == players[k]
    decreases |roster|
  {
    if roster == [] then players
    else
      var n := |roster| - 1;
      var before := Upsert(players, roster[..n]);
      var p := roster[n];
      var prior := if p.userId in before then before[p.userId].state else None;
      before[p.userId := PlayerData(p.userId, p.userName, prior)]
  }

  /**
   * `UpdatePlayerInfo`: the roster afterwards holds exactly the listed ids,
   * the local user's among them; each carries its listed name, players who
   * stay keep their state and newcomers have none. The notice is remembered.
   */
  function UpdatePlayerInfo(r: Roster, info: seq<PlayerEntry>): (u: Roster)
    ensures u.players.Keys == Ids(info)
    ensures WellKeyed(u.players)
    ensures forall k :: k in u.players ==> u.players[k].name == LastName(info, k).value
    ensures forall k :: k in u.players ==>
      u.players[k].state == (if k in r.players then r.players[k].state else None)
    ensures u.lastRoomInfo == Some(info)
  {
    var kept := map k | k in r.players && k in Ids(info) :: r.players[k];
    Roster(Upsert(kept, info), Some(info))
  }

  /** Applying the same notice twice leaves the roster as applying it once. */
  lemma UpdatePlayerInfoIdempotent(r: Roster, info: seq<PlayerEntry>)
    ensures UpdatePlayerInfo(UpdatePlayerInfo(r, info), info) == UpdatePlayerInfo(r, info)
  {
    var once := UpdatePlayerInfo(r, info);
    var twice := UpdatePlayerInfo(once, info);
    assert forall k :: k in twice.players ==> twice.players[k] == once.players[k];
  }

  /** The loop of `UpdatePlayerState`: each entry for a tracked id overwrites that player's state. */
  function ApplyStates(players: map<UInt32, PlayerData>, entries: seq<StateEntry>): (q: map<UInt32, PlayerData>)
    ensures q.Keys == players.Keys
    ensures forall k :: k in players ==>
      q[k] == (if LastEntry(entries, k).Some? then players[k].(id := k, state := LastEntry(entries, k).value.state)
               else players[k])
    decreases |entries|
  {
    if entries == [] then players
    else
      var n := |entries| - 1;
      var before := ApplyStates(players, entries[..n]);
      var e := entries[n];
      if e.userId in before then before[e.userId := before[e.userId].(id := e.userId, state := e.state)] else before
  }

  /**
   * `UpdatePlayerState`: tracked players take the state of their last entry
   * in the snapshot; entries for untracked ids are dropped. The key set and
   * the names do not change.
   */
  function UpdatePlayerState(r: Roster, entries: seq<StateEntry>): (u: Roster)
    ensures u.players.Keys == r.players.Keys
    ensures forall k :: k in r.players ==> u.players[k].name == r.players[k].name
    ensures forall k :: k in r.players ==>
      u.players[k].state == (if LastEntry(entries, k).Some? then LastEntry(entries, k).value.state else r.players[k].state)
    ensures WellKeyed(r.players) ==> WellKeyed(u.players)
    ensures u.lastRoomInfo == r.lastRoomInfo
  {
    r.(players := ApplyStates(r.players, entries))
  }

  /** A player listed by the latest notice but missing from every snapshot since has no state. */
  lemma NewcomerWithoutSnapshotHasNoState(r: Roster, info: seq<PlayerEntry>, entries: seq<StateEntry>, k: UInt32)
    requires k in Ids(info) && k !in r.players
    requires forall i :: 0 <= i < |entries| ==> entries[i].userId != k
    ensures var u := UpdatePlayerState(UpdatePlayerInfo(r, info), entries);
      k in u.players && u.players[k].state.None?
  {
    assert LastEntry(entries, k).None?;
  }

  /** `RemovePlayer`: drops that id only. */
  function RemovePlayer(r: Roster, userId: UInt32): (u: Roster)
    ensures u.players.Keys == r.players.Keys - {userId}
    ensures forall k :: k in u.players ==> u.players[k] == r.players[k]
    ensures u.lastRoomInfo == r.lastRoomInfo
  {
    r.(players := r.players - {userId})
  }

  /** `ClearAllRemotePlayers`: empties the roster; the last notice is kept. */
  function ClearAllRemotePlayers(r: Roster): (u: Roster)
    ensures |u.players| == 0 && u.lastRoomInfo == r.lastRoomInfo
  {
    r.(players := map[])
  }

  /** `OnLeaveRoomResult`: a successful leave clears the roster; a failed one changes nothing. */
  function OnLeaveRoomResult(r: Roster, success: bool): (u: Roster)
    ensures success ==> |u.players| == 0 && u.lastRoomInfo == r.lastRoomInfo
    ensures !success ==> u == r
  {
    if !success then r else ClearAllRemotePlayers(r)
  }

  /** `OnDisconnected`: whatever the reason, the roster is cleared. */
  function OnDisconnected(r: Roster, reason: string): (u: Roster)
    ensures |u.players| == 0 && u.lastRoomInfo == r.lastRoomInfo
  {
    ClearAllRemotePlayers(r)
  }
}
