/**
 * `EdgeNameIndicatorManager`: one nickname label per remote player, kept in
 * a map from user id to the tracked target and its label. Only the map
 * bookkeeping is modelled; placing labels on the screen edge is presentation.
 */
module EdgeIndicators {
  import opened Wrappers
  import opened Bytes

  /** An instantiated label: its identity, the user it was created for and the name it shows. */
  datatype Label = Label(handle: nat, userId: UInt32, name: string)

  /** A map entry: the target transform (by identity) and its label, `None` once the label object is gone. */
  datatype Entry = Entry(target: nat, ui: Option<Label>)

  /**
   * The manager: `configured` says whether the label prefab and the UI root
   * are set; `nextHandle` hands out identities to new labels.
   */
  datatype Indicators = Indicators(entries: map<UInt32, Entry>, configured: bool, nextHandle: nat)

  /** Every label was created for the id it is filed under, with an identity below `nextHandle`, and no two entries share a label. */
  predicate Valid(m: Indicators)
  {
    && (forall k :: k in m.entries && m.entries[k].ui.Some? ==>
          m.entries[k].ui.value.userId == k && m.entries[k].ui.value.handle < m.nextHandle)
    && (forall k1, k2 ::
          (k1 in m.entries && k2 in m.entries && k1 != k2 && m.entries[k1].ui.Some? && m.entries[k2].ui.Some?) ==>
          m.entries[k1].ui.value.handle != m.entries[k2].ui.value.handle)
  }

  /** The label of an entry, renamed if there is one. */
  function Renamed(e: Entry, nickname: string): Entry
  {
    if e.ui.Some? then e.(ui := Some(e.ui.value.(name := nickname))) else e
  }

  /**
   * `Register`: without a target, prefab or root nothing happens. A known id
   * keeps its label, now following the new target and showing the new name;
   * an unknown id gets a freshly created label.
   */
  function Register(m: Indicators, userId: UInt32, target: Option<nat>, nickname: string): (r: Indicators)
    ensures target.None? || !m.configured ==> r == m
    ensures target.Some? && m.configured && userId in m.entries ==>
      && r.entries == m.entries[userId := Entry(target.value, Renamed(m.entries[userId], nickname).ui)]
      && r.nextHandle == m.nextHandle
    ensures target.Some? && m.configured && userId !in m.entries ==>
      && r.entries.Keys == m.entries.Keys + {userId}
      && r.entries[userId] == Entry(target.value, Some(Label(m.nextHandle, userId, nickname)))
      && (forall k :: k in m.entries ==> r.entries[k] == m.entries[k])
    ensures r.configured == m.configured
    ensures Valid(m) ==> Valid(r)
  {
    if target.None? || !m.configured then m
    else if userId in m.entries then
      m.(entries := m.entries[userId := Entry(target.value, Renamed(m.entries[userId], nickname).ui)])
    else
      m.(entries := m.entries[userId := Entry(target.value, Some(Label(m.nextHandle, userId, nickname)))],
         nextHandle := m.nextHandle + 1)
  }

  /** `UpdateNickname`: renames the label of a known id; unknown ids are ignored. */
  function UpdateNickname(m: Indicators, userId: UInt32, nickname: string): (r: Indicators)
    ensures userId !in m.entries ==> r == m
    ensures userId in m.entries ==>
      && r.entries.Keys == m.entries.Keys
      && r.entries[userId].target == m.entries[userId].target
      && (m.entries[userId].ui.Some? ==> r.entries[userId].ui == Some(m.entries[userId].ui.value.(name := nickname)))
      && (m.entries[userId].ui.None? ==> r == m)
      && (forall k :: k in m.entries && k != userId ==> r.entries[k] == m.entries[k])
    ensures r.configured == m.configured && r.nextHandle == m.nextHandle
    ensures Valid(m) ==> Valid(r)
  {
    if userId in m.entries && m.entries[userId].ui.Some? then
      m.(entries := m.entries[userId := Renamed(m.entries[userId], nickname)])
    else m
  }

  /** `Unregister`: drops that id and destroys its label; unknown ids are ignored. */
  function Unregister(m: Indicators, userId: UInt32): (r: Indicators)
    ensures r.entries.Keys == m.entries.Keys - {userId}
    ensures forall k :: k in r.entries ==> r.entries[k] == m.entries[k]
    ensures userId !in m.entries ==> r == m
    ensures r.configured == m.configured && r.nextHandle == m.nextHandle
    ensures Valid(m) ==> Valid(r)
  {
    m.(entries := m.entries - {userId})
  }

  /** Unregistering several ids at once: what a loop of `Unregister` calls leaves, in any order. */
  function UnregisterAll(m: Indicators, userIds: set<UInt32>): (r: Indicators)
    ensures r.entries.Keys == m.entries.Keys - userIds
    ensures forall k :: k in r.entries ==> r.entries[k] == m.entries[k]
    ensures r.configured == m.configured && r.nextHandle == m.nextHandle
    ensures Valid(m) ==> Valid(r)
  {
    m.(entries := m.entries - userIds)
  }

  /** `ClearAll`: destroys every label and empties the map. */
  function ClearAll(m: Indicators): (r: Indicators)
    ensures |r.entries| == 0 && r.configured == m.configured && r.nextHandle == m.nextHandle
  {
    m.(entries := map[])
  }

  /** Registering a new id and unregistering it again restores the map. */
  lemma RegisterThenUnregister(m: Indicators, userId: UInt32, target: nat, nickname: string)
    requires userId !in m.entries
    ensures Unregister(Register(m, userId, Some(target), nickname), userId).entries == m.entries
  {
    var r := Unregister(Register(m, userId, Some(target), nickname), userId);
    assert r.entries.Keys == m.entries.Keys;
  }

  /** Registering the same id again never creates a second label: the first label is kept, renamed and retargeted. */
  lemma ReRegisterKeepsLabel(m: Indicators, userId: UInt32, t1: nat, t2: nat, n1: string, n2: string)
    requires m.configured && userId !in m.entries
    ensures var once := Register(m, userId, Some(t1), n1);
      var twice := Register(once, userId, Some(t2), n2);
      && userId in twice.entries
      && twice.entries[userId].ui.Some?
      && twice.entries[userId].ui.value.handle == once.entries[userId].ui.value.handle
      && twice.entries[userId].ui.value.name == n2
      && twice.entries[userId].target == t2
      && twice.nextHandle == once.nextHandle
  {
  }
}
