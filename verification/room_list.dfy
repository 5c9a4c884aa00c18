/**
 * The lobby's room list: `RoomList` rebuilds one `RoomButton` per listed
 * room whenever a room list arrives, and keeps a single room selected.
 */
module RoomList {
  import opened Wrappers
  import opened Bytes
  import opened Protocol
  import Decimal

  /** The most players a room holds, as the player label shows it. */
  const RoomCapacityLabel: string := "/10)"

  /**
   * A `RoomButton`: the room id it was initiated with, the texts of its
   * selected and not-selected faces, and which of the two roots is active.
   */
  datatype Button = Button(
    roomId: int,
    selectedName: string,
    selectedPlayers: string,
    notSelectedName: string,
    notSelectedPlayers: string,
    selectedShown: bool,
    notSelectedShown: bool)

  /** The list: the selected room id (0 for none) and the buttons, in creation order. */
  datatype Listing = Listing(selectedRoomId: int, buttons: seq<Button>)

  /** The player label of a room: the count, then the capacity, in parentheses. */
  function PlayersLabel(playerCount: int): (s: string)
    ensures |s| >= 6 && s[0] == '(' && s[|s| - 4..] == RoomCapacityLabel
    ensures s[1..|s| - 4] == Decimal.IntToString(playerCount)
  {
    "(" + Decimal.IntToString(playerCount) + RoomCapacityLabel
  }

  /** `Initiate`: records the room id and writes the same name and count on both faces. */
  function Initiate(prefab: Button, roomId: int, roomName: string, playerCount: int): (b: Button)
    ensures b.roomId == roomId
    ensures b.selectedName == roomName && b.notSelectedName == roomName
    ensures b.selectedPlayers == PlayersLabel(playerCount) && b.notSelectedPlayers == b.selectedPlayers
    ensures b.selectedShown == prefab.selectedShown && b.notSelectedShown == prefab.notSelectedShown
  {
    var players := PlayersLabel(playerCount);
    prefab.(roomId := roomId, selectedName := roomName, selectedPlayers := players,
            notSelectedName := roomName, notSelectedPlayers := players)
  }

  /** `ResetButton`: shows the not-selected face. */
  function ResetButton(b: Button): (r: Button)
    ensures !r.selectedShown && r.notSelectedShown
    ensures r.(selectedShown := b.selectedShown, notSelectedShown := b.notSelectedShown) == b
  {
    b.(selectedShown := false, notSelectedShown := true)
  }

  /** The face toggle of `SelectButton`: shows the selected face. */
  function ShowSelected(b: Button): (r: Button)
    ensures r.selectedShown && !r.notSelectedShown
    ensures r.(selectedShown := b.selectedShown, notSelectedShown := b.notSelectedShown) == b
  {
    b.(selectedShown := true, notSelectedShown := false)
  }

  /** The rooms that get a button: not null and with a non-zero id, in list order. */
  function Listed(rooms: seq<Option<RoomSummary>>): (out: seq<RoomSummary>)
    ensures |out| <= |rooms|
    ensures forall i :: 0 <= i < |out| ==> out[i].roomId != 0 && Some(out[i]) in rooms
    ensures forall i :: 0 <= i < |rooms| && rooms[i].Some? && rooms[i].value.roomId != 0 ==> rooms[i].value in out
  {
    if rooms == [] then []
    else
      var n := |rooms| - 1;
      var before := Listed(rooms[..n]);
      assert forall i :: 0 <= i < n ==> rooms[i] == rooms[..n][i];
      if rooms[n].Some? && rooms[n].value.roomId != 0 then before + [rooms[n].value] else before
  }

  /** A single room gets a button exactly when it is not null and its id is not zero. */
  lemma ListedOne(room: Option<RoomSummary>)
    ensures Listed([room]) == if room.Some? && room.value.roomId != 0 then [room.value] else []
  {
  }

  /**
   * Listing distributes over concatenation, so `Listed` keeps the list order
   * and gives each non-null, non-zero room exactly one place of its own.
   */
  lemma {:induction false} ListedConcat(xs: seq<Option<RoomSummary>>, ys: seq<Option<RoomSummary>>)
    ensures Listed(xs + ys) == Listed(xs) + Listed(ys)
    decreases |ys|
  {
    if ys == [] {
      assert xs + ys == xs;
    } else {
      var n := |ys| - 1;
      assert (xs + ys)[..|xs + ys| - 1] == xs + ys[..n];
      assert (xs + ys)[|xs + ys| - 1] == ys[n];
      ListedConcat(xs, ys[..n]);
    }
  }

  /** The button built for a listed room, reset to its not-selected face. */
  function ButtonFor(prefab: Button, room: RoomSummary): Button
  {
    ResetButton(Initiate(prefab, ToInt32(room.roomId), room.roomName.GetOr(""), ToInt32(room.playerCount)))
  }

  /**
   * `UpdateRoomList`: the old buttons go and the selection is cleared in
   * every case. A null or empty list, or a missing prefab, leaves no
   * buttons; otherwise there is one not-selected button per listed room, in
   * order, labelled with its name (empty when null) and player count.
   */
  function UpdateRoomList(l: Listing, rooms: Option<seq<Option<RoomSummary>>>, prefab: Option<Button>): (r: Listing)
    ensures r.selectedRoomId == 0
    ensures rooms.None? || rooms.value == [] || prefab.None? ==> r.buttons == []
    ensures rooms.Some? && prefab.Some? ==> |r.buttons| == |Listed(rooms.value)|
    ensures rooms.Some? && prefab.Some? ==> forall i :: 0 <= i < |r.buttons| ==>
      var room := Listed(rooms.value)[i];
      && r.buttons[i].roomId == ToInt32(room.roomId) && r.buttons[i].roomId != 0
      && r.buttons[i].notSelectedName == room.roomName.GetOr("")
      && r.buttons[i].notSelectedPlayers == PlayersLabel(ToInt32(room.playerCount))
      && !r.buttons[i].selectedShown && r.buttons[i].notSelectedShown
  {
    if rooms.None? || rooms.value == [] || prefab.None? then Listing(0, [])
    else
      var listed := Listed(rooms.value);
      Listing(0, seq(|listed|, i requires 0 <= i < |listed| => ButtonFor(prefab.value, listed[i])))
  }

  /**
   * `SelectedRoom(roomId)`: 0 is ignored; otherwise the id becomes the
   * selection and every button for another room is reset. Buttons for the
   * chosen room keep their face.
   */
  function SelectedRoom(l: Listing, roomId: int): (r: Listing)
    ensures roomId == 0 ==> r == l
    ensures roomId != 0 ==> r.selectedRoomId == roomId && |r.buttons| == |l.buttons|
    ensures roomId != 0 ==> forall i :: 0 <= i < |l.buttons| ==>
      r.buttons[i] == (if l.buttons[i].roomId != roomId then ResetButton(l.buttons[i]) else l.buttons[i])
  {
    if roomId == 0 then l
    else
      Listing(roomId, seq(|l.buttons|, i requires 0 <= i < |l.buttons| =>
        if l.buttons[i].roomId != roomId then ResetButton(l.buttons[i]) else l.buttons[i]))
  }

  /** A click on the not-selected face of button `i`: it shows its selected face and tells the list. */
  function SelectButton(l: Listing, i: nat): (r: Listing)
    requires i < |l.buttons|
    ensures |r.buttons| == |l.buttons|
    ensures l.buttons[i].roomId != 0 ==> r.selectedRoomId == l.buttons[i].roomId
    ensures r.buttons[i].selectedShown && !r.buttons[i].notSelectedShown
    ensures r.buttons[i].roomId == l.buttons[i].roomId
  {
    var clicked := l.buttons[i];
    SelectedRoom(l.(buttons := l.buttons[i := ShowSelected(clicked)]), clicked.roomId)
  }

  /** Every button has a room, and only buttons of the selected room show their selected face. */
  predicate SingleSelection(l: Listing)
  {
    forall i :: 0 <= i < |l.buttons| ==>
      l.buttons[i].roomId != 0 && (l.buttons[i].selectedShown ==> l.buttons[i].roomId == l.selectedRoomId)
  }

  /** A freshly built list has nothing selected and satisfies the single-selection rule. */
  lemma RebuiltListHasSingleSelection(l: Listing, rooms: Option<seq<Option<RoomSummary>>>, prefab: Option<Button>)
    ensures SingleSelection(UpdateRoomList(l, rooms, prefab))
  {
  }

  /** Clicking any button keeps a single selection: the clicked room's. */
  lemma ClickKeepsSingleSelection(l: Listing, i: nat)
    requires i < |l.buttons| && SingleSelection(l)
    ensures var r := SelectButton(l, i);
      SingleSelection(r) && r.selectedRoomId == l.buttons[i].roomId
      && forall j :: 0 <= j < |r.buttons| && r.buttons[j].selectedShown ==> r.buttons[j].roomId == l.buttons[i].roomId
  {
  }
}
