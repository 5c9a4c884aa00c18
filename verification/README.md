# Fixer multiplayer client: session layer in Dafny

This project models the network session layer of the Fixer Unity client.
It covers six parts:

- **Frame codec.** `ProtobufPacket.Build` writes a 4-byte header (a little-endian `ushort` packet id, then a little-endian `ushort` total size) and then the body. The receive side is the header decode and size check of `FixerClient.ReceiveLoop`, plus `ReadExact`.
- **Session state machine.** This is `FixerClient`:
  - the connect attempt, and the idempotent `Disconnect` with its one-shot `Disconnected` latch;
  - the loading-scope map;
  - the `SendProtoAsync` gate;
  - the `Set*Result` transitions;
  - the main-thread queue drained by `Update`.

  The packet router `FixerPacketHandlers` and the request guards of `FixerClientService` drive it.
- **Replication tick.** `TickSendLocalPlayerState` sends the local player's state when it has changed from the last baseline.
- **Roster reconcilers.** `NetPlayerManager` keeps the roster of everyone in the room. `NetPlayerObjectManager` keeps one avatar per remote player, and `EdgeNameIndicatorManager` keeps one nickname label per avatar.
- **Loading-scope counter.** `LoadingController` counts active scopes, saturating at zero, and `Scope.Dispose` releases at most once.
- **Room list.** `RoomList` rebuilds the list, `RoomButton` toggles faces, and together they keep a single room selected.

## Modules, one per file

| file | module | models |
|---|---|---|
| wrappers.dfy | `Wrappers` | `Option` and `Result` |
| bytes.dfy | `Bytes` | `byte`/`ushort`/`uint` ranges, `BitConverter` layout, unchecked casts |
| net_common.dfy | `NetCommon` | header size and frame limit |
| protobuf_packet.dfy | `ProtobufPacket` | `Build` |
| frame_receiver.dfy | `FrameReceiver` | header decode, receive loop as a parser, `ReadExact` |
| decimal.dfy | `Decimal` | `int.ToString()` and `ToString("D6")` |
| protocol.dfy | `Protocol` | the protobuf messages as datatypes; reading notices |
| loading_controller.dfy | `LoadingController` | `Begin`, `End`, `Scope.Dispose`, `TimeoutCo` |
| session.dfy | `Session` | `FixerClient` state, send gate, loading map, `Disconnect`, `Set*Result` |
| client_service.dfy | `ClientService` | `FixerClientService` |
| packet_handlers.dfy | `PacketHandlers` | `FixerPacketHandlers` |
| client_loop.dfy | `ClientLoop` | connect, read loop, `Update` drain, replication tick |
| net_player_manager.dfy | `NetPlayerManager` | the roster |
| edge_indicators.dfy | `EdgeIndicators` | `EdgeNameIndicatorManager` map bookkeeping |
| net_player_objects.dfy | `NetPlayerObjects` | `NetPlayerObjectManager` |
| room_view.dfy | `RoomView` | the roster and avatar layer wired together through their events |
| room_list.dfy | `RoomList` | `RoomList` and `RoomButton` |

## Modelling choices

- **State and results.**
  - Every entity is an immutable datatype, and every operation is a function from the old state to the new one.
  - Exceptions become `Result` failures or a `faulted` flag.
  - A `null` becomes `None`.
- **Bytes.** Bytes, `ushort` and `uint` are subset types of `int`. `BitConverter` runs on a little-endian host, which is the byte order of every target the game ships on. The unchecked casts `(ushort)`, `(sbyte)`, `(byte)` and `(int)` of a `uint` are written out.
- **Message bodies.** Protobuf serialisation is foreign code.
  - Outgoing requests are recorded as `Request` values in the client's `sent` log.
  - A received frame becomes an `Inbound(kind, body)` through a decoder passed in as a function. A body of `None` stands for `Parser.ParseFrom` throwing.
  - Packet ids are not numbers here. They are a `PacketKind`, and `Unlisted` stands for every id the router has no case for.
- **Connect.** The asynchronous connect is split at its `await`:
  - `StartConnect` is the part before it;
  - `FinishConnect` takes the outcome of the await (`Established`, a socket error, a cancel, or another exception);
  - `ConnectAsync` composes the two.
- **Read loop.** It receives the whole byte stream the socket delivers before it closes. `ReadExact` works over the sizes of successive socket reads.
- **Queue.** The main-thread queue is a FIFO sequence of `DispatchFrame` and `NotifyDisconnected` actions. `Update` drains it in order. A frame the router cannot parse throws, which ends the drain, and the exception leaves `Update` before the tick. Exceptions thrown by event subscribers are not faults of the drain (see Left out).
- **Time and floats.** Time is integer units. `Mathf.Approximately` is a relation `approx` passed in. The lemmas that need it to be reflexive say so.
- **Object identity.** Unity object identity (avatars, labels, the bound `PlayerNetworkSync`, tracked transforms) is a natural-number handle. New objects take their handle from a counter.

## Model

| member | source | states |
|---|---|---|
| Bytes.TruncateToUInt16 | ProtobufPacket.cs:19 | the `(ushort)` cast keeps every value that fits in 16 bits |
| Bytes.UInt16RoundTrip | FixerClient.cs:346-347 | reading back the two bytes `GetBytes` wrote for a `ushort` yields that value |
| Bytes.BytesRoundTrip | FixerClient.cs:346-347 | writing the `ushort` read from two bytes reproduces those two bytes |
| Bytes.ToInt32 | RoomList.cs:39-41 | `(int)` of a `uint` is the same 32 bits read as two's complement: values below 2^31 are kept, zero maps exactly to zero, and the result is congruent to the input mod 2^32 |
| NetCommon.MaxBodyIs2044 | NetCommon.cs:5-6 | with a 4-byte header and a 2048-byte frame limit, the largest body is 2044 bytes |
| ProtobufPacket.Build | ProtobufPacket.cs:8-25 | fails, with the computed size, exactly when 4 + body length exceeds 2048. Otherwise the frame is 4 + body length long, bytes 0-1 read back as the id, bytes 2-3 read back as the frame length, and the bytes from offset 4 are the body |
| ProtobufPacket.NullMessageIsBareHeader | ProtobufPacket.cs:10-19 | a null message becomes a 4-byte frame whose size field says 4 |
| ProtobufPacket.SizeLimitBoundary | ProtobufPacket.cs:11-14 | a 2044-byte body fills a 2048-byte frame; a 2045-byte body is refused with size 2049 |
| FrameReceiver.DecodeHeader | FixerClient.cs:346-347 | the id comes from bytes 0-1 and the size from bytes 2-3, exactly where `Build` writes them |
| FrameReceiver.BodyLength | FixerClient.cs:348-351 | a body length exists exactly when 4 <= size <= 2048; it is then size - 4 and at most 2044 |
| FrameReceiver.ReceiveAll | FixerClient.cs:341-359 | every frame the loop queues is one `Build` could produce, and the queued frames re-encode to exactly the prefix of the stream the loop consumed |
| FrameReceiver.EncodeMatchesStream | FixerClient.cs:346-354 | the frame decoded from a valid header and body re-encodes to the bytes it was read from |
| FrameReceiver.HeaderRoundTrip | ProtobufPacket.cs:16-22 | decoding the header of a built frame recovers `(pktId, 4 + body length)`, and the size check accepts it |
| FrameReceiver.ReceiveFrameThenRest | FixerClient.cs:341-359 | one built frame in front of any stream is received as that frame, followed by what the rest of the stream yields |
| FrameReceiver.ReceiveAllEncoded | FixerClient.cs:341-359 | round trip: a stream of built frames is received as exactly those frames, and the loop then stops at end of stream |
| FrameReceiver.BadSizeStopsBeforeBody | FixerClient.cs:350-351 | a size field below 4 or above 2048 ends the loop before any body byte is read, with no frame queued |
| FrameReceiver.OversizeHeaderScenario | FixerClient.cs:350-351 | a header claiming 5000 bytes ends the loop at once |
| FrameReceiver.ReadExact | FixerClient.cs:370-380 | succeeds iff the socket delivers `size` bytes before a read returns nothing. On success exactly `size` bytes are read; on failure, all the bytes delivered. No read asks for more than `size` bytes, and every read asks for at least one |
| Decimal.FormatD6 | FixerClientService.cs:39-40 | `ToString("D6")` of a value in [0, 1000000) is exactly six decimal digits that read back as the value |
| Decimal.IntToString | RoomButton.cs:46 | `int` interpolation: digits that read back as the value, with a leading minus sign for negative values, and no leading zero (zero itself is `0`) |
| Protocol.IdsAreListed | NetPlayerManager.cs:126 | the id set of a notice holds exactly the ids some entry carries |
| Protocol.LastName | NetPlayerManager.cs:136-149 | a name exists for an id exactly when the notice lists it (which name it is: `LastNameIsLast`) |
| Protocol.LastNameIsLast | NetPlayerManager.cs:136-149 | the name found is carried by an entry for the id with no later entry for the id, which is what notice-order dictionary writes leave |
| Protocol.LastEntry | NetPlayerManager.cs:105-112 | a snapshot entry for an id is found iff some entry carries the id, and it carries the id (which one: `LastEntryIsLast`) |
| Protocol.LastEntryIsLast | NetPlayerManager.cs:105-112 | the entry found has no later entry for the same id, which is what in-order writes leave |
| LoadingController.Begin | LoadingController.cs:62-76 | the count goes up by one, the new scope is owned and fresh (not below `nextId`) and is the top scope. Its cancel callback replaces the old one, the overlay shows the title, and the timeout restarts for the new scope with the default of 8 s when none is given |
| LoadingController.End | LoadingController.cs:78-89 | the count drops by one, never below 0. Reaching 0 hides the overlay, stops the timeout and drops the cancel callback; above 0 nothing else changes |
| LoadingController.EndIgnoresId | LoadingController.cs:82-88 | ending the top scope and ending any other scope have the same effect |
| LoadingController.Dispose | LoadingController.cs:144-149 | an owned scope ends once and loses its owner; disposing an unowned scope changes nothing |
| LoadingController.DisposeIdempotent | LoadingController.cs:144-149 | disposing a second time does nothing |
| LoadingController.EndTimes | FixerClient.cs:406-411 | releasing n live scopes lowers the count by n, saturating at 0 |
| LoadingController.TimerElapsed | LoadingController.cs:126-136 | a timeout never changes the count, the top id or the cancel callback. It relabels to "Timeout…" exactly when its scope is still on top and something is active |
| LoadingController.Hide | LoadingController.cs:105-117 | `HideWithMinShow`: the timeout stops, the cancel callback is dropped and the overlay is hidden; nothing else changes |
| LoadingController.BeginGivesFreshIds | LoadingController.cs:64-75 | two scopes begun one after the other get different ids, and the later one is on top |
| Session.SendProto | FixerClient.cs:309-314 | a request is logged as sent exactly when the client is connected with a stream; otherwise the client is unchanged |
| Session.EndLoading | FixerClient.cs:397-404 | removes only that kind's scope and ends it if it was still owned; other kinds are untouched |
| Session.BeginLoading | FixerClient.cs:385-395 | ends any scope of that kind first, then records a fresh top scope with the given cancel and timeout, but only when a controller exists. Other kinds keep their scopes |
| Session.EndAllLoading | FixerClient.cs:406-411 | empties the map and ends each scope that was still owned exactly once |
| Session.Disconnect | FixerClient.cs:262-301 | a no-op once everything is released. Otherwise it leaves the client released, out of the room, with user id 0, no sync and accumulator 0, and queues one `Disconnected(reason)` unless the latch was already set. It keeps the baseline, the user name and the connecting flag, and a consistent session stays consistent |
| Session.DisconnectAllOnReleased | FixerClient.cs:267-268 | on a released client, any number of `Disconnect` calls change nothing |
| Session.DisconnectNotifiesAtMostOnce | FixerClient.cs:290-300 | however many times `Disconnect` runs, at most one notification is queued, carrying the first caller's reason |
| Session.DisconnectIdempotent | FixerClient.cs:262-301 | disconnecting twice is disconnecting once |
| Session.SetLoginResult | FixerClient.cs:416-420 | success records the user id and failure keeps the old one; the result is raised either way |
| Session.SetEnterRoomResult | FixerClient.cs:422-426 | success puts the client in a room and failure changes no state; the result is raised either way |
| Session.SetLeaveRoomResult | FixerClient.cs:428-432 | success leaves the room without touching the connection; failure changes no state |
| ClientService.Login | FixerClientService.cs:16-27 | the request goes out iff the send gate is open; otherwise nothing changes |
| ClientService.GuestNickname | FixerClientService.cs:35-41 | the SDK nickname when it is non-empty; otherwise six zero-padded digits reading back as the random value |
| ClientService.GuestLogin | FixerClientService.cs:30-49 | sends a guest login under that nickname iff the send gate is open |
| ClientService.Logout | FixerClientService.cs:52-58 | sent iff the send gate is open |
| ClientService.EnterRoom | FixerClientService.cs:60-72 | sent iff the send gate is open and a user id is set |
| ClientService.LeaveRoom | FixerClientService.cs:74-81 | sent iff the send gate is open and the client is in a room |
| ClientService.CreateRoom | FixerClientService.cs:83-102 | while connected, opens a CreateRoom scope with an 8 s timeout and no cancel callback, then sends; disconnected, nothing changes |
| ClientService.RequestRoomList | FixerClientService.cs:104-110 | sent iff the send gate is open |
| ClientService.SendChat | FixerClientService.cs:112-124 | the client changes iff the send gate is open, it is in a room, and the message has a non-white-space character; then exactly that message is sent |
| ClientService.ToSByte | FixerClient.cs:167 | `(sbyte)` lands in [-128, 128) and keeps values already in range |
| ClientService.ToByte | FixerClient.cs:167 | `(byte)` keeps values already in [0, 256) |
| ClientService.WireState | FixerClient.cs:167 | the state as sent keeps the position, and equals the sampled state when facing and action fit their wire types |
| ClientService.SendPlayerState | FixerClientService.cs:126-143 | sent iff the send gate is open and the client is in a room |
| ClientService.SendPlayerInteract | FixerClientService.cs:145-158 | sent iff the send gate is open and the client is in a room |
| ClientService.OnInteractAttack | FixerClientService.cs:160-167 | raises knockback with the trigger id exactly when the target is the local user |
| ClientService.OnInteractPary | FixerClientService.cs:169-176 | the same rule for a parry |
| ClientService.NothingSentWhileDisconnected | FixerClientService.cs:16-158 | while disconnected, every request sender leaves the client unchanged |
| PacketHandlers.OnResLogin | FixerPacketHandlers.cs:41-54 | the Login scope is closed whether or not the body parses. Failure reports `(false, …)` and keeps user id, user name and sent log. Success records the name and id, reports success, and requests the room list when the gate is open |
| PacketHandlers.OnResEnterRoom | FixerPacketHandlers.cs:56-69 | closes the EnterRoom scope. Success reports success and puts the client in a room; failure reports it and changes nothing else; an unparsable body throws after the scope is closed |
| PacketHandlers.OnResLeaveRoom | FixerPacketHandlers.cs:71-83 | closes the LeaveRoom scope; success takes the client out of the room, and failure only reports it |
| PacketHandlers.OnResRoomList | FixerPacketHandlers.cs:85-92 | closes the FetchRoomList scope and hands the list on unchanged |
| PacketHandlers.OnResCreateRoom | FixerPacketHandlers.cs:94-108 | closes the CreateRoom scope. Success raises "created" then "entered" and puts the client in the room; failure raises only "create failed" |
| PacketHandlers.OnNoticePlayerInteract | FixerPacketHandlers.cs:134-146 | only types 1 and 2 aimed at the local user change anything, and what they do is raise one knockback |
| PacketHandlers.Dispatch | FixerPacketHandlers.cs:16-39 | unlisted ids change nothing. The router itself throws on a listed id iff its body does not parse as its message type (exceptions thrown by event subscribers are not part of this). Each response id goes to its own handler, so it closes its own scope; chat, state and room-info notices are forwarded unchanged, an interaction notice goes to the interaction handler, and the connection, queue and replication state are never touched |
| PacketHandlers.DispatchIgnoresQueue | FixerPacketHandlers.cs:16-39 | routing does not depend on the main-thread queue: with another queue in place, the outcome is the same with that queue |
| PacketHandlers.DispatchWhileConnectedIgnoresQueue | FixerPacketHandlers.cs:16-39 | the corrected router does not read the queue either |
| PacketHandlers.EnterRoomAfterDisconnectBreaksConsistency | FixerPacketHandlers.cs:56-69 | a successful room-entry response dispatched to a disconnected client puts it in a room while not connected |
| PacketHandlers.LoginAfterDisconnectBreaksConsistency | FixerPacketHandlers.cs:41-54 | a successful login response dispatched to a disconnected client gives it a user id |
| PacketHandlers.DispatchWhileConnected | FixerPacketHandlers.cs:16-39 | corrected router: drops frames that reach a disconnected client, and otherwise routes as `Dispatch`; a consistent session stays consistent |
| ClientLoop.StartConnect | FixerClient.cs:188-221 | connected or already connecting: nothing changes. Otherwise it claims the connecting flag, clears the latch, opens the Connect scope with the cancel callback and a 6 s timeout, and holds a fresh socket with no stream |
| ClientLoop.FinishConnect | FixerClient.cs:223-258 | the connecting flag is always cleared and the Connect scope closed. The client is connected iff the connect succeeded on a socket still held; it then raises `Connected` and sends the guest login. Otherwise it is released with the outcome's reason queued once |
| ClientLoop.ConnectAsync | FixerClient.cs:188-259 | a busy client is untouched. An idle one ends connected, with `Connected` raised and the guest login sent, or released with exactly one `Disconnected(reason)` queued. The baseline is kept |
| ClientLoop.PressCancel | FixerClient.cs:205-209 | with the connect scope on top, the cancel button disconnects with "Connect canceled"; without a callback it does nothing |
| ClientLoop.Destroy | FixerClient.cs:106-110 | teardown leaves the client released. Unless it was already released (the early return of `Disconnect`), it is also unbound, out of the room and has user id 0. A consistent session stays consistent |
| ClientLoop.BindLocalPlayerSync | FixerClient.cs:132-135 | the given sync becomes the bound one and nothing else changes |
| ClientLoop.UnbindLocalPlayerSync | FixerClient.cs:137-141 | unbinds only when the given sync is the bound one; otherwise nothing changes |
| ClientLoop.Enqueued | FixerClient.cs:358 | one queued dispatch per received frame, in arrival order |
| ClientLoop.ReceiveLoop | FixerClient.cs:335-368 | queues every received frame in order, with the frames re-encoding to a prefix of the stream. It then disconnects, queueing "ReceiveLoop ended" unless a notification was already queued in this cycle |
| ClientLoop.Drain | FixerClient.cs:98-101 | runs the queue first-in first-out (see `DrainConcat`). It empties the queue unless the router throws on a frame, which leaves exactly the unrun suffix queued. It never touches the connection or the replication state |
| ClientLoop.DrainConcat | FixerClient.cs:98-101 | first-in first-out: draining `q1 + q2` is draining `q1` and then, from where it left the client, draining `q2`. If an action of `q1` throws, the drain stops at the same point with all of `q2` still queued |
| ClientLoop.NotificationsCarryReasons | FixerClient.cs:290-296 | each queued disconnect notification carries its own reason, and the event it raises carries the same reason in the same position |
| ClientLoop.DrainRaisesInQueueOrder | FixerClient.cs:98-101 | queued notifications raise `Disconnected` in queue order, and none throws |
| ClientLoop.Tick | FixerClient.cs:145-170 | nothing happens unless connected, in a room and bound. The accumulator grows by `dt`, and one interval is subtracted once it is reached. At most one state is sent per tick: the snapshot, when it changed, cast to wire types. A changed snapshot becomes the baseline |
| ClientLoop.BaselineSendsNothing | FixerClient.cs:160-169 | once the baseline equals the snapshot, no number of ticks sends anything |
| ClientLoop.SnapshotSentAtMostOnce | FixerClient.cs:160-169 | a snapshot that does not move is sent at most once, however many ticks pass |
| ClientLoop.ChangeSentExactlyOnce | FixerClient.cs:149-169 | with the gate open and a changed snapshot, any run of frames whose total length fills the interval sends that snapshot exactly once and nothing else. Frames that leave the accumulator short send nothing |
| ClientLoop.BaselineSurvivesReconnect | FixerClient.cs:270-275 | `Disconnect` does not reset the baseline. After reconnecting and re-entering a room, a player standing at the last sent state sends nothing |
| ClientLoop.Update | FixerClient.cs:98-104 | drains the queue, then ticks, unless a queued action threw. With stale frames dropped, a consistent session stays consistent |
| ClientLoop.GuestLoginFlow | FixerClient.cs:226-234 | connect then a successful login response: connected, guest login sent, user recorded, room list requested, Login scope closed, session consistent |
| ClientLoop.ReceiveOneFrame | FixerClient.cs:341-367 | a connection that delivers one frame and closes queues that frame, then the notification |
| ClientLoop.StaleEnterRoomScenario | FixerClient.cs:358-367 | a room-entry response read just before the server closes is dispatched after `Disconnect`: the client ends in a room while not connected |
| ClientLoop.StaleEnterRoomDropped | FixerClient.cs:98-101 | with stale frames dropped, the same arrival leaves the client out of the room and consistent |
| NetPlayerManager.Upsert | NetPlayerManager.cs:136-149 | listed ids are added or rewritten with their last listed name, keeping a prior state; unlisted entries are untouched |
| NetPlayerManager.UpdatePlayerInfo | NetPlayerManager.cs:122-153 | the roster holds exactly the listed ids (the local user's included), each under its last listed name. Those that stay keep their state, newcomers have none, and the notice is remembered |
| NetPlayerManager.UpdatePlayerInfoIdempotent | NetPlayerManager.cs:122-153 | applying the same notice twice is applying it once |
| NetPlayerManager.ApplyStates | NetPlayerManager.cs:105-117 | each tracked id takes the state of its last snapshot entry, and untracked entries are dropped |
| NetPlayerManager.UpdatePlayerState | NetPlayerManager.cs:103-120 | the key set and names do not change; tracked players take the state of their last entry |
| NetPlayerManager.NewcomerWithoutSnapshotHasNoState | NetPlayerManager.cs:140-143 | a newly listed player that no later snapshot mentions still has no state |
| NetPlayerManager.RemovePlayer | NetPlayerManager.cs:155-158 | removes only that id |
| NetPlayerManager.ClearAllRemotePlayers | NetPlayerManager.cs:160-163 | empties the roster |
| NetPlayerManager.OnLeaveRoomResult | NetPlayerManager.cs:88-94 | a successful leave empties the roster; a failed one changes nothing |
| NetPlayerManager.OnDisconnected | NetPlayerManager.cs:96-100 | any disconnect empties the roster |
| EdgeIndicators.Register | EdgeNameIndicatorManager.cs:24-38 | no target, prefab or root: nothing changes. A known id keeps its label, retargeted and renamed. A new id gets exactly one fresh label and nothing else changes. Labels stay filed under their own id with distinct identities |
| EdgeIndicators.UpdateNickname | EdgeNameIndicatorManager.cs:40-44 | renames only an existing label; unknown ids and entries without a label change nothing |
| EdgeIndicators.Unregister | EdgeNameIndicatorManager.cs:46-53 | removes only that id, and unknown ids change nothing |
| EdgeIndicators.UnregisterAll | NetPlayerObjectManager.cs:78-82 | unregistering a set of ids removes exactly those, in any order |
| EdgeIndicators.ClearAll | EdgeNameIndicatorManager.cs:55-63 | empties the map |
| EdgeIndicators.RegisterThenUnregister | EdgeNameIndicatorManager.cs:24-53 | registering a new id, then unregistering it, restores the map |
| EdgeIndicators.ReRegisterKeepsLabel | EdgeNameIndicatorManager.cs:28-33 | registering an id again keeps its first label, retargeted and renamed, and creates no second one |
| NetPlayerObjects.RemovePlayer | NetPlayerObjectManager.cs:137-148 | drops only that avatar and its indicator |
| NetPlayerObjects.Prune | NetPlayerObjectManager.cs:77-82 | keeps exactly the tracked ids the notice lists, unchanged, and drops the indicators of the rest |
| NetPlayerObjects.PruneOneIsRemovePlayer | NetPlayerObjectManager.cs:78-82 | pruning away one tracked id is `RemovePlayer` of that id |
| NetPlayerObjects.ClearAllRemotePlayers | NetPlayerObjectManager.cs:150-161 | no avatars and no indicators remain |
| NetPlayerObjects.OnLeaveRoom | NetPlayerObjectManager.cs:63-66 | leaving the room removes every avatar |
| NetPlayerObjects.Place | NetPlayerObjectManager.cs:85-113 | the local user is skipped and a live avatar is renamed. Otherwise an avatar is spawned with the next identity and no state, unless the prefab lacks a `NetPlayer`, when nothing changes |
| NetPlayerObjects.PlaceKeepsValid | NetPlayerObjectManager.cs:90-102 | one step keeps avatar identities distinct and filed under their own id |
| NetPlayerObjects.PlaceKeepsSynced | NetPlayerObjectManager.cs:104-106 | one step registers indicators only for tracked ids |
| NetPlayerObjects.PlaceAll | NetPlayerObjectManager.cs:85-113 | the tracked ids grow by every listed non-local id when the prefab can spawn, and by none otherwise |
| NetPlayerObjects.PlaceAllLeavesOthers | NetPlayerObjectManager.cs:85-88 | unlisted entries and the local user's entry are left exactly as they were |
| NetPlayerObjects.PlaceAllKeepsLive | NetPlayerObjectManager.cs:90 | a live avatar is reused: same identity, same state |
| NetPlayerObjects.PlaceAllNames | NetPlayerObjectManager.cs:109-112 | every listed remote player that was live, or that the prefab can spawn, is live under its last listed name |
| NetPlayerObjects.PlaceAllSpawnsFresh | NetPlayerObjectManager.cs:90-102 | avatars that were not live before are new objects with no state |
| NetPlayerObjects.PlaceAllKeepsValid | NetPlayerObjectManager.cs:85-113 | the placement loop keeps identities distinct |
| NetPlayerObjects.PlaceAllKeepsSynced | NetPlayerObjectManager.cs:85-113 | the placement loop keeps indicators within the tracked ids |
| NetPlayerObjects.OnUpdatePlayerInfo | NetPlayerObjectManager.cs:69-114 | a null notice changes nothing. Otherwise only listed ids stay, and the local user is never added. Listed remote players are live under their listed name when the prefab allows; survivors keep identity and state, and newcomers are fresh with no state |
| NetPlayerObjects.IndicatorsFollowNotice | NetPlayerObjectManager.cs:77-113 | after a notice, every indicator belongs to a listed player |
| NetPlayerObjects.ApplyStates | NetPlayerObjectManager.cs:117-135 | every remote live avatar whose roster entry has a state takes it. The local id, untracked ids and entries without a state are skipped, and the key set never changes |
| NetPlayerObjects.OnUpdatePlayerStateAsWritten | NetPlayerObjectManager.cs:130-133 | as written, throws exactly when some remote live avatar's roster entry has no state. The fault names exactly those ids. Otherwise the result is `ApplyStates` |
| NetPlayerObjects.OnUpdatePlayerState | NetPlayerObjectManager.cs:117-135 | corrected: never throws; keys, identities and names unchanged, every remote live avatar with a roster state shows it, the local entry and every entry without a roster state untouched, and the same result as written whenever that does not throw |
| RoomView.OnRoomInfo | NetPlayerManager.cs:122-153 | the roster holds exactly the listed ids, and the avatars follow, never adding the local user; every avatar belongs to a roster player |
| RoomView.OnPlayerStatesAsWritten | NetPlayerObjectManager.cs:117-135 | the snapshot reaching the avatars throws exactly when a remote live avatar's roster entry has no state |
| RoomView.OnPlayerStates | NetPlayerManager.cs:103-120 | corrected wiring: the roster takes the snapshot, the avatar set is unchanged, and the result agrees with the as-written wiring whenever that does not throw |
| RoomView.OnLeaveRoomResult | NetPlayerManager.cs:88-94 | a successful leave empties roster and avatars; a failed one changes nothing |
| RoomView.OnDisconnected | NetPlayerManager.cs:96-100 | a disconnect empties roster and avatars and keeps the last notice |
| RoomView.Replay | NetPlayerObjectManager.cs:22-31 | re-enabling the avatar layer replays the last notice, if there is one |
| RoomView.JoinBeforeFirstSnapshotThrows | NetPlayerObjectManager.cs:130-133 | local user 1 and guest 2 are announced, then a snapshot carries only user 1: as written the guest's missing state is dereferenced |
| RoomView.SnapshotReachesAvatars | NetPlayerObjectManager.cs:130-133 | corrected: a remote avatar whose player the snapshot covers shows that player's latest state |
| RoomList.PlayersLabel | RoomButton.cs:46 | "(", the count in decimal, then "/10)" |
| RoomList.Initiate | RoomButton.cs:24-53 | records the room id and writes the same name and player label on both faces |
| RoomList.ResetButton | RoomButton.cs:64-68 | shows the not-selected face and changes nothing else |
| RoomList.ShowSelected | RoomButton.cs:57-58 | shows the selected face and changes nothing else |
| RoomList.Listed | RoomList.cs:34-37 | every kept room is non-null with a non-zero id and comes from the list, and every such room of the list is kept |
| RoomList.ListedOne | RoomList.cs:34-37 | a single room gets a button iff it is non-null with a non-zero id |
| RoomList.ListedConcat | RoomList.cs:34-48 | listing distributes over concatenation, so the rooms keep list order and each one gets exactly one place |
| RoomList.UpdateRoomList | RoomList.cs:15-49 | the selection is cleared in every case. A null or empty list, or no prefab, gives no buttons. Otherwise there is one not-selected button per listed room, in order, with its id, its name (empty if null) and its player label |
| RoomList.SelectedRoom | RoomList.cs:52-68 | id 0 is ignored; any other id is selected and every button of another room is reset |
| RoomList.SelectButton | RoomButton.cs:55-62 | the clicked button shows its selected face and its room becomes the selection |
| RoomList.RebuiltListHasSingleSelection | RoomList.cs:15-49 | a rebuilt list selects nothing, and every button has a room |
| RoomList.ClickKeepsSingleSelection | RoomList.cs:52-68 | after any click, only buttons of the clicked room show their selected face |

## Left out

- **Sockets and asynchrony.** This covers `TcpClient`, `NetworkStream`, `async`/`await`, `CancellationTokenSource` (`_cts`, `_connectCts`), the `SemaphoreSlim` send lock and the thread-safety of the concurrent queue. The read loop gets the whole delivered stream at once. The main-thread queue is a sequence, and interleavings of the read thread with `Update` are not modelled.
- **Request body size.** Outgoing requests are abstract values, so the size check of `Build` is not applied to them. `Build` itself is modelled on byte bodies.
- **Protobuf serialisation and packet id numbers.** Both belong to generated code that is not part of this model.
- **Floats.** `Time.deltaTime`, `1f / Mathf.Max(1f, playerStateSendHz)` and `Mathf.Approximately` are replaced by integer durations, an integer interval and a given relation.
- **External calls.** `SceneManager.LoadScene`, the STOVE SDK nickname and `Random.Range` are inputs or are left out. The nickname and the random value are parameters of `GuestLogin`.
- **Overlay timing.** The minimum-show delay and the coroutine scheduling of `LoadingController` are left out. `Hide` hides at once, and a timeout is one `TimerElapsed` step.
- **Presentation code.**
  - Screen-edge clamping in `EdgeNameIndicatorManager.LateUpdate`.
  - `NetPlayer` interpolation and animation; an applied state is only recorded on the avatar.
  - `PlayerList`, the lobby and chat UI, and logging.
- **Lifecycle plumbing.** `Awake` singletons, event subscription, and the `Bind*`/`Unbind*` of UI references. The event wiring between the roster and the avatars is written out in `RoomView`.
- **Message texts.** The result texts are English renderings of the client's Korean messages.
- **Null UI references.**
  - The `RoomButton` face roots are assumed set, and a destroyed button in the list is not modelled.
  - The player list reference that `OnUpdatePlayerInfo` writes to is presentation.
- NetPlayerObjects.OnUpdatePlayerStateAsWritten: the as-written member reports the throw but not the avatars updated before it. Those depend on dictionary enumeration order, which .NET does not specify.
- PacketHandlers.Dispatch: an exception thrown by a subscriber of a forwarded event also leaves `Update` (the `Raise*` methods invoke their subscribers directly, FixerClient.cs:449-451). `Dispatch` and `ClientLoop.Drain` fault only on the router's own parse failure. The subscriber throw of the second finding is shown on the avatar layer by `RoomView.JoinBeforeFirstSnapshotThrows`, not as a fault of the drain.
- ClientLoop.Tick: `TickSendLocalPlayerState` also returns when `Service` is null. `Service` is set in `Awake` and never cleared, so the model has no such state.

### Behaviour of the code worth knowing

- The replication baseline `lastState` is never reset. `Disconnect` clears the accumulator and the bound sync but not `lastState` (FixerClient.cs:144, 270-275), and nothing but the tick's own update (FixerClient.cs:168) assigns it. `ClientLoop.BaselineSurvivesReconnect` states what follows from this.
- The baseline is updated whenever the snapshot changed, even when `SendPlayerState` drops the request (FixerClient.cs:165-169). Whether the request went out does not matter while the client is connected with a stream, which is the only way the tick's gate can open in practice.
- A send is due once the accumulated time is at least the interval (FixerClient.cs:152).
- `Disconnect` leaves `LocalUserName` set (FixerClient.cs:270-286).

## Findings

| source | as written | input that shows it | evidently intended | confidence | as-written member | corrected member |
|---|---|---|---|---|---|---|
| FixerClient.cs:358-367 | Frames the read loop queued before it calls `Disconnect` are still dispatched by the next `Update`. A queued successful room-entry or login response then sets `IsInRoom` or `LocalUserId` on a disconnected client | a connected client receives one `ResEnterRoom` frame with success, then the server closes the socket before the next `Update` | responses that arrive after the session was torn down are dropped, so a room or user id exists only while connected | not executed | ClientLoop.StaleEnterRoomScenario | ClientLoop.StaleEnterRoomDropped |
| NetPlayerObjectManager.cs:130-133 | `OnUpdatePlayerState` hands every remote live avatar the roster entry's `state`. A player announced by room info but absent from every snapshot since has the struct default, a null state, and `NetPlayer.ApplyNetworkState` dereferences it (NetPlayer.cs:76-82) | room info lists local user 1 and guest 2, then a snapshot carries only user 1's state | players without a state yet are skipped until a snapshot covers them | not executed | NetPlayerObjects.OnUpdatePlayerStateAsWritten | NetPlayerObjects.OnUpdatePlayerState |

`PacketHandlers.EnterRoomAfterDisconnectBreaksConsistency` and `PacketHandlers.LoginAfterDisconnectBreaksConsistency` show the first finding at the router. `PacketHandlers.DispatchWhileConnected` is the corrected router that `ClientLoop.Update` uses when stale frames are dropped. `RoomView.JoinBeforeFirstSnapshotThrows` shows the second finding through the event wiring, and `RoomView.OnPlayerStates` uses the corrected avatar layer.
