/**
 * `NetPlayerObjectManager`: one avatar per remote player in the room (the
 * local user is never spawned here), kept in a map from user id to the
 * avatar, with an edge-name indicator per spawned avatar. Room-info notices
 * prune and spawn; roster snapshots push states into the avatars.
 */
module NetPlayerObjects {
  import opened Wrappers
  import opened Bytes
  import opened Protocol
  import EI = EdgeIndicators
  import NPM = NetPlayerManager

  /**
   * A spawned `NetPlayer`: its object identity, the user it was initialised
   * for, the name it shows and the last network state applied to it.
   */
  datatype Avatar = Avatar(handle: nat, userId: UInt32, name: string, netState: Option<CharState>)

  /**
   * The `_players` dictionary (a value is `None` once its object has been
   * destroyed behind the manager's back), the identity the next spawned
   * object gets, whether the prefab carries a `NetPlayer`, and the optional
   * indicator manager.
   */
  datatype Objects = Objects(
    players: map<UInt32, Option<Avatar>>,
    nextHandle: nat,
    prefabHasNetPlayer: bool,
    edge: Option<EI.Indicators>)

  /** The id has a live avatar. */
  predicate Live(o: Objects, k: UInt32)
  {
    k in o.players && o.players[k].Some?
  }

  /** Every avatar was initialised for the id it is filed under, identities are below `nextHandle` and pairwise distinct. */
  predicate Valid(o: Objects)
  {
    && (forall k :: Live(o, k) ==> o.players[k].value.userId == k && o.players[k].value.handle < o.nextHandle)
    && (forall k1, k2 :: (Live(o, k1) && Live(o, k2) && k1 != k2) ==>
          o.players[k1].value.handle != o.players[k2].value.handle)
  }

  /** Indicators exist only for ids the manager tracks. */
  predicate Synced(o: Objects)
  {
    o.edge.Some? ==> o.edge.value.entries.Keys <= o.players.Keys
  }

  // ---------------------------------------------------------------------
  // Removal
  // ---------------------------------------------------------------------

  /** `RemovePlayer`: unregisters the indicator and forgets (destroying) that avatar only. */
  function RemovePlayer(o: Objects, userId: UInt32): (r: Objects)
    ensures r.players.Keys == o.players.Keys - {userId}
    ensures forall k :: k in r.players ==> r.players[k] == o.players[k]
    ensures r.edge.Some? <==> o.edge.Some?
    ensures o.edge.Some? ==> r.edge.value.entries.Keys == o.edge.value.entries.Keys - {userId}
    ensures r.nextHandle == o.nextHandle && r.prefabHasNetPlayer == o.prefabHasNetPlayer
    ensures Valid(o) ==> Valid(r)
    ensures Synced(o) ==> Synced(r)
  {
    o.(players := o.players - {userId},
       edge := if o.edge.Some? then Some(EI.Unregister(o.edge.value, userId)) else None)
  }

  /** The first loop of `OnUpdatePlayerInfo`: `RemovePlayer` for every tracked id the notice does not list. */
  function Prune(o: Objects, listed: set<UInt32>): (r: Objects)
    ensures r.players.Keys == o.players.Keys * listed
    ensures forall k :: k in r.players ==> r.players[k] == o.players[k]
    ensures r.edge.Some? <==> o.edge.Some?
    ensures o.edge.Some? ==> r.edge.value.entries.Keys == o.edge.value.entries.Keys - (o.players.Keys - listed)
    ensures r.nextHandle == o.nextHandle && r.prefabHasNetPlayer == o.prefabHasNetPlayer
    ensures Valid(o) ==> Valid(r)
    ensures Synced(o) ==> Synced(r)
  {
    var gone := o.players.Keys - listed;
    o.(players := map k | k in o.players && k in listed :: o.players[k],
       edge := if o.edge.Some? then Some(EI.UnregisterAll(o.edge.value, gone)) else None)
  }

  /** Pruning down to everyone but one tracked player is removing that player. */
  lemma PruneOneIsRemovePlayer(o: Objects, userId: UInt32)
    requires userId in o.players
    ensures Prune(o, o.players.Keys - {userId}) == RemovePlayer(o, userId)
  {
    var a := Prune(o, o.players.Keys - {userId});
    var b := RemovePlayer(o, userId);
    assert a.players == b.players;
    assert o.players.Keys - (o.players.Keys - {userId}) == {userId};
  }

  /** `ClearAllRemotePlayers`: clears the indicators and forgets every avatar. */
  function ClearAllRemotePlayers(o: Objects): (r: Objects)
    ensures |r.players| == 0
    ensures r.edge.Some? <==> o.edge.Some?
    ensures o.edge.Some? ==> |r.edge.value.entries| == 0
    ensures r.nextHandle == o.nextHandle && r.prefabHasNetPlayer == o.prefabHasNetPlayer
    ensures Valid(r) && Synced(r)
  {
    o.(players := map[], edge := if o.edge.Some? then Some(EI.ClearAll(o.edge.value)) else None)
  }

  /** `OnLeaveRoom`: every avatar goes. */
  function OnLeaveRoom(o: Objects): (r: Objects)
    ensures |r.players| == 0 && Valid(r) && Synced(r)
    ensures r.nextHandle == o.nextHandle && r.prefabHasNetPlayer == o.prefabHasNetPlayer
  {
    ClearAllRemotePlayers(o)
  }

  // ---------------------------------------------------------------------
  // Spawning and renaming
  // ---------------------------------------------------------------------

  /**
   * One step of the second loop of `OnUpdatePlayerInfo`: the local user is
   * skipped; a live avatar is renamed; otherwise a new avatar is spawned
   * (unless the prefab lacks a `NetPlayer`, when the spawned object is
   * destroyed and the player skipped) and gets an indicator.
   */
  function Place(o: Objects, p: PlayerEntry, localId: UInt32): (r: Objects)
    ensures p.userId == localId ==> r == o
    ensures p.userId != localId && Live(o, p.userId) ==>
      r.players == o.players[p.userId := Some(o.players[p.userId].value.(name := p.userName))]
    ensures p.userId != localId && !Live(o, p.userId) && o.prefabHasNetPlayer ==>
      r.players == o.players[p.userId := Some(Avatar(o.nextHandle, p.userId, p.userName, None))]
    ensures p.userId != localId && !Live(o, p.userId) && !o.prefabHasNetPlayer ==> r == o
    ensures r.nextHandle == o.nextHandle + (if p.userId != localId && !Live(o, p.userId) && o.prefabHasNetPlayer then 1 else 0)
    ensures r.prefabHasNetPlayer == o.prefabHasNetPlayer
    ensures r.edge.Some? <==> o.edge.Some?
  {
    var k := p.userId;
    if k == localId then o
    else if Live(o, k) then
      o.(players := o.players[k := Some(o.players[k].value.(name := p.userName))],
         edge := if o.edge.Some? then Some(EI.UpdateNickname(o.edge.value, k, p.userName)) else None)
    else if !o.prefabHasNetPlayer then o
    else
      var a := Avatar(o.nextHandle, k, p.userName, None);
      o.(players := o.players[k := Some(a)],
         nextHandle := o.nextHandle + 1,
         edge := if o.edge.Some? then
                   Some(EI.UpdateNickname(EI.Register(o.edge.value, k, Some(a.handle), p.userName), k, p.userName))
                 else None)
  }

  /** One step keeps identities distinct and below the counter. */
  lemma PlaceKeepsValid(o: Objects, p: PlayerEntry, localId: UInt32)
    requires Valid(o)
    ensures Valid(Place(o, p, localId))
  {
  }

  /** One step registers indicators only for ids it tracks. */
  lemma PlaceKeepsSynced(o: Objects, p: PlayerEntry, localId: UInt32)
    requires Synced(o)
    ensures Synced(Place(o, p, localId))
  {
  }

  /** The second loop of `OnUpdatePlayerInfo`: `Place` for each listed player, in notice order. */
  function PlaceAll(o: Objects, roster: seq<PlayerEntry>, localId: UInt32): (r: Objects)
    ensures r.players.Keys == o.players.Keys + (if o.prefabHasNetPlayer then Ids(roster) - {localId} else {})
    ensures r.nextHandle >= o.nextHandle && r.prefabHasNetPlayer == o.prefabHasNetPlayer
    ensures r.edge.Some? <==> o.edge.Some?
    decreases |roster|
  {
    if roster == [] then o
    else
      var n := |roster| - 1;
      Place(PlaceAll(o, roster[..n], localId), roster[n], localId)
  }

  /** Entries the notice does not list, and the local user's entry, are left exactly as they were. */
  lemma {:induction false} PlaceAllLeavesOthers(o: Objects, roster: seq<PlayerEntry>, localId: UInt32)
    ensures var r := PlaceAll(o, roster, localId);
      && (forall k :: k in o.players && k !in Ids(roster) ==> r.players[k] == o.players[k])
      && (localId in o.players ==> r.players[localId] == o.players[localId])
    decreases |roster|
  {
    if roster != [] {
      PlaceAllLeavesOthers(o, roster[..|roster| - 1], localId);
    }
  }

  /** A live avatar stays live with the same identity and state; only its name may change. */
  lemma {:induction false} PlaceAllKeepsLive(o: Objects, roster: seq<PlayerEntry>, localId: UInt32)
    ensures var r := PlaceAll(o, roster, localId);
      forall k :: Live(o, k) ==>
        && Live(r, k)
        && r.players[k].value.handle == o.players[k].value.handle
        && r.players[k].value.netState == o.players[k].value.netState
    decreases |roster|
  {
    if roster != [] {
      var n := |roster| - 1;
      PlaceAllKeepsLive(o, roster[..n], localId);
      var mid := PlaceAll(o, roster[..n], localId);
      var r := Place(mid, roster[n], localId);
      assert r == PlaceAll(o, roster, localId);
      forall k | Live(o, k)
        ensures Live(r, k) && r.players[k].value.handle == o.players[k].value.handle
          && r.players[k].value.netState == o.players[k].value.netState
      {
        assert Live(mid, k);
      }
    }
  }

  /** Every listed remote player ends up live under its last listed name, if it was live or the prefab can spawn. */
  lemma {:induction false} PlaceAllNames(o: Objects, roster: seq<PlayerEntry>, localId: UInt32)
    ensures var r := PlaceAll(o, roster, localId);
      forall k :: k in Ids(roster) && k != localId && (Live(o, k) || o.prefabHasNetPlayer) ==>
        Live(r, k) && r.players[k].value.name == LastName(roster, k).value
    decreases |roster|
  {
    if roster != [] {
      var n := |roster| - 1;
      PlaceAllNames(o, roster[..n], localId);
      PlaceAllKeepsLive(o, roster[..n], localId);
      var mid := PlaceAll(o, roster[..n], localId);
      var p := roster[n];
      var r := Place(mid, p, localId);
      assert r == PlaceAll(o, roster, localId);
      forall k | k in Ids(roster) && k != localId && (Live(o, k) || o.prefabHasNetPlayer)
        ensures Live(r, k) && r.players[k].value.name == LastName(roster, k).value
      {
        if k != p.userId {
          assert k in Ids(roster[..n]);
        }
      }
    }
  }

  /** Avatars that were not live before are new objects, with identities from `nextHandle` on and no state. */
  lemma {:induction false} PlaceAllSpawnsFresh(o: Objects, roster: seq<PlayerEntry>, localId: UInt32)
    ensures var r := PlaceAll(o, roster, localId);
      forall k :: Live(r, k) && !Live(o, k) ==>
        r.players[k].value.handle >= o.nextHandle && r.players[k].value.netState.None?
    decreases |roster|
  {
    if roster != [] {
      var n := |roster| - 1;
      PlaceAllSpawnsFresh(o, roster[..n], localId);
      var mid := PlaceAll(o, roster[..n], localId);
      var r := Place(mid, roster[n], localId);
      assert r == PlaceAll(o, roster, localId);
      forall k | Live(r, k) && !Live(o, k)
        ensures r.players[k].value.handle >= o.nextHandle && r.players[k].value.netState.None?
      {
        if k != roster[n].userId || Live(mid, k) {
          assert Live(mid, k) && r.players[k].value.handle == mid.players[k].value.handle;
        }
      }
    }
  }

  lemma {:induction false} PlaceAllKeepsValid(o: Objects, roster: seq<PlayerEntry>, localId: UInt32)
    ensures Valid(o) ==> Valid(PlaceAll(o, roster, localId))
    decreases |roster|
  {
    if roster != [] {
      var n := |roster| - 1;
      PlaceAllKeepsValid(o, roster[..n], localId);
      if Valid(o) {
        PlaceKeepsValid(PlaceAll(o, roster[..n], localId), roster[n], localId);
      }
    }
  }

  lemma {:induction false} PlaceAllKeepsSynced(o: Objects, roster: seq<PlayerEntry>, localId: UInt32)
    ensures Synced(o) ==> Synced(PlaceAll(o, roster, localId))
    decreases |roster|
  {
    if roster != [] {
      var n := |roster| - 1;
      PlaceAllKeepsSynced(o, roster[..n], localId);
      if Synced(o) {
        PlaceKeepsSynced(PlaceAll(o, roster[..n], localId), roster[n], localId);
      }
    }
  }

  /**
   * `OnUpdatePlayerInfo`: a null notice changes nothing. Otherwise players
   * the notice no longer lists are removed with their indicators, every
   * listed player other than the local user gets an avatar showing its
   * listed name (when the prefab allows), avatars that stay keep their
   * identity and state, and new ones are fresh objects with no state yet.
   */
  function OnUpdatePlayerInfo(o: Objects, info: Option<seq<PlayerEntry>>, localId: UInt32): (r: Objects)
    ensures info.None? ==> r == o
    ensures info.Some? ==>
      && r.players.Keys <= Ids(info.value)
      && (localId in r.players ==> localId in o.players && r.players[localId] == o.players[localId])
      && (forall k :: k in Ids(info.value) && k != localId && (Live(o, k) || o.prefabHasNetPlayer) ==>
            Live(r, k) && r.players[k].value.name == LastName(info.value, k).value)
      && (forall k :: Live(o, k) && k in Ids(info.value) ==>
            && Live(r, k)
            && r.players[k].value.handle == o.players[k].value.handle
            && r.players[k].value.netState == o.players[k].value.netState)
      && (forall k :: Live(r, k) && !Live(o, k) ==>
            r.players[k].value.handle >= o.nextHandle && r.players[k].value.netState.None?)
    ensures Valid(o) ==> Valid(r)
    ensures Synced(o) ==> Synced(r)
    ensures r.prefabHasNetPlayer == o.prefabHasNetPlayer && (r.edge.Some? <==> o.edge.Some?)
  {
    if info.None? then o
    else
      var pruned := Prune(o, Ids(info.value));
      PlaceAllLeavesOthers(pruned, info.value, localId);
      PlaceAllKeepsLive(pruned, info.value, localId);
      PlaceAllNames(pruned, info.value, localId);
      PlaceAllSpawnsFresh(pruned, info.value, localId);
      PlaceAllKeepsValid(pruned, info.value, localId);
      PlaceAllKeepsSynced(pruned, info.value, localId);
      PlaceAll(pruned, info.value, localId)
  }

  /** After a notice, every indicator belongs to a player the notice lists. */
  lemma IndicatorsFollowNotice(o: Objects, info: seq<PlayerEntry>, localId: UInt32)
    requires Synced(o) && o.edge.Some?
    ensures OnUpdatePlayerInfo(o, Some(info), localId).edge.value.entries.Keys <= Ids(info)
  {
  }

  // ---------------------------------------------------------------------
  // Applying states
  // ---------------------------------------------------------------------

  /** `OnUpdatePlayerState` applies a roster entry to this id: a live avatar of a remote player. */
  predicate Receives(o: Objects, k: UInt32, localId: UInt32)
  {
    k != localId && Live(o, k)
  }

  /** The ids whose roster entry has no state yet but whose avatar would be handed it. */
  function NullStateTargets(o: Objects, roster: map<UInt32, NPM.PlayerData>, localId: UInt32): set<UInt32>
  {
    set k | k in roster && Receives(o, k, localId) && roster[k].state.None?
  }

  /**
   * State application that skips entries without a state: every remote live
   * avatar with a roster state takes it; the local id, untracked ids and
   * entries without a state are skipped. The key set, identities and names
   * never change.
   */
  function ApplyStates(o: Objects, roster: map<UInt32, NPM.PlayerData>, localId: UInt32): (r: Objects)
    ensures r.players.Keys == o.players.Keys
    ensures forall k :: k in o.players ==>
      if Receives(o, k, localId) && k in roster && roster[k].state.Some? then
        r.players[k] == Some(o.players[k].value.(netState := roster[k].state))
      else r.players[k] == o.players[k]
    ensures r.nextHandle == o.nextHandle && r.prefabHasNetPlayer == o.prefabHasNetPlayer && r.edge == o.edge
    ensures Valid(o) ==> Valid(r)
    ensures Synced(o) ==> Synced(r)
  {
    o.(players := map k | k in o.players ::
         if Receives(o, k, localId) && k in roster && roster[k].state.Some? then
           Some(o.players[k].value.(netState := roster[k].state))
         else o.players[k])
  }

  /** Why `OnUpdatePlayerState` as written throws: `ApplyNetworkState` dereferenced a null state for these ids. */
  datatype StateFault = NullStateApplied(userIds: set<UInt32>)

  /**
   * `OnUpdatePlayerState` as written: every remote live avatar is handed its
   * roster entry's state, and a missing state is dereferenced, which throws
   * a `NullReferenceException` out of the event.
   */
  function OnUpdatePlayerStateAsWritten(o: Objects, roster: map<UInt32, NPM.PlayerData>, localId: UInt32)
    : (r: Result<Objects, StateFault>)
    ensures r.Failure? <==> exists k :: k in roster && Receives(o, k, localId) && roster[k].state.None?
    ensures r.Failure? ==>
      && r.error.userIds != {}
      && (forall k :: k in r.error.userIds <==> k in roster && Receives(o, k, localId) && roster[k].state.None?)
    ensures r.Success? ==> r.value == ApplyStates(o, roster, localId)
  {
    var bad := NullStateTargets(o, roster, localId);
    if bad != {} then
      var k :| k in bad;
      assert k in roster && Receives(o, k, localId) && roster[k].state.None?;
      Failure(NullStateApplied(bad))
    else
      assert forall k :: k in roster && Receives(o, k, localId) && roster[k].state.None? ==> k in bad;
      Success(ApplyStates(o, roster, localId))
  }

  /** Corrected `OnUpdatePlayerState`: entries without a state are skipped, so it never throws. */
  function OnUpdatePlayerState(o: Objects, roster: map<UInt32, NPM.PlayerData>, localId: UInt32): (r: Objects)
    ensures r.players.Keys == o.players.Keys
    ensures forall k :: Live(o, k) ==>
      (Live(r, k) && r.players[k].value.handle == o.players[k].value.handle
       && r.players[k].value.name == o.players[k].value.name)
    ensures forall k :: Receives(o, k, localId) && k in roster && roster[k].state.Some? ==>
      Live(r, k) && r.players[k].value.netState == roster[k].state
    ensures localId in o.players ==> r.players[localId] == o.players[localId]
    ensures forall k :: k in o.players && !(Receives(o, k, localId) && k in roster && roster[k].state.Some?) ==>
      r.players[k] == o.players[k]
    ensures OnUpdatePlayerStateAsWritten(o, roster, localId).Success? ==>
      OnUpdatePlayerStateAsWritten(o, roster, localId).value == r
  {
    ApplyStates(o, roster, localId)
  }
}
