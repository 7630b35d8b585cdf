# Room broker and session host: a verified model

This project models the core of a two-service multiplayer match coordinator written in Go.

- The **room broker** (`mainserver`) keeps an in-memory table from room ID to `Room`. It allocates room IDs from a process-wide counter that wraps to 0 at 100000. It serves `CreateRoom`, `JoinRoom`, `GetRoomState` and `StartGame`.
- The **session host** (`subgameserver`) keeps a table from game-instance ID to `GameInstance`.
  - `CreateGameWithInstance` fills an entry once, from the member list the broker reports.
  - After that, clients read the session with `GetGameState` and write one player's record with `PostGameState`.
  - Reads and writes are confined to alternating time windows. Within each 40-second cycle after the session's start time, writes are allowed for the first 30 seconds and reads for the last 10.

Each Go file of the core is one Dafny module:

| Dafny file | Go source |
|---|---|
| `users.dfy` | mainserver/user.go |
| `rooms.dfy` | mainserver/room.go |
| `mainserver.dfy` | mainserver/mainserver.go |
| `players.dfy` | subgameserver/player.go |
| `gameinstances.dfy` | subgameserver/GameInstance.go |
| `subgameserver.dfy` | subgameserver/SubGameServer.go |

Helper modules:
- `goints.dfy`: Go's `int32` and `int64`, int64 wrap-around, and Go's truncating `%`.
- `strconv.dfy`: `strconv.Itoa`, with a proof that it is injective.
- `wrappers.dfy`: `Option`.
- `protocol.dfy`: the wire messages, reduced to the fields the servers touch.
- `handoff.dfy`: lemmas that connect the two services.

Both servers have the same shape.
- Each is a `class` that holds its table: `MainServer.roomlist`, `SubGameServer.gameInstanceMap`. The broker also holds a reference to the `RoomIndexGenerator` counter object.
- Every handler that changes state is a method. Its contract ties the new table and the response to a pure transition of the old state: `CreateRoomOp`, `JoinRoomOp`, `StartGameOp`, `CreateGameOp`, `PostOp`. Each transition's own `ensures` states what the handler promises.
- The read-only handlers `GetRoomState` and `GetGameState` keep the source's loops. They are proved directly against the predicates `ListsMembers` and `ListsRoster`: exactly one entry per member or player, in unspecified order.

External inputs become parameters:
- The wall-clock time `time.Now().Unix()` is the `now: int64` parameter.
- The cross-service `GetRoomState` call in `GetGameInfoFromMainServer` becomes an injected `fetched: Option<seq<string>>`. `None` stands for a dial error, an RPC error (which includes an unknown room) or `Ret == false`. `Some(ids)` holds the user IDs in response order.

## Where the code departs from the intended behaviour; the model follows the code

The intended behaviour is that a start by a non-owner, or on an unknown room, is refused with an error. The code does otherwise:

- **`StartGame` never returns on failure.** The unknown-room and not-owner branches only set `Message`.
  - The call always ends with `Ret = true` and always rewrites the table entry, as Loading.
  - A non-owner therefore still starts the game (`NonOwnerStartStillLoads`).
  - An unknown ID gets a new entry with no members and owner `""` (`StartOnUnknownRoomCreatesMemberlessEntry`). So the owner is not always a member.
  - The rewritten `Room` drops its `ID` field.
  - For an unknown room and a non-empty user ID, the permission message overwrites the unknown-room message.
- **`CreateRoom` ignores the requested map ID.** It always stores `"000"`.
- **Room IDs are reused.** After start-up, the 100000th room gets "0" and the 100001st gets "1" again, the ID of the first room (`IdsRepeatAfterWrap`).
- **`GetGameState` on an unknown ID does not fail.** The intended answer is a not-found error, but it reads the zero instance: Loading, start time 0, nil roster. Inside the read window it answers `Ret = true` with no players.
- **`PostGameState` never sets `Ret`.** A successful post therefore answers `Ret = false` with an empty message.
- **A failed hydration leaves its placeholder in the table.** Because of `CreateIsOneShot`, that session ID can never be created again.
- **Reads are closed before the start time.** Go's `%` truncates toward zero, so when `now` is before the start time the elapsed value is never positive and reads stay closed (`BeforeStartOnlyWrites`). A Euclidean remainder would open reads 10 seconds early.

Representation choices:
- **Enums.** `UserState`, `RoomState` and `GameState` are datatypes; the code only ever produces their named constants. Go's `playerState` is a newtype over int32, because `ConverteProtocal2PlayerState` casts any wire integer into it.
- **Nil maps.**
  - A nil member map reads as empty. That is what `StartGame` stores for an unknown room, and no code path writes to it later: `JoinRoom` only writes to Waiting rooms, and only `CreateRoom` makes those, always with a non-nil map.
  - A nil roster is `None`, because writing to it panics.
- **Integer widths.** Go `int` fields are 64 bits wide (`int64`), so the `int`/`int64` conversions in the handlers are identities. `now - StartTime` wraps modulo 2^64 (`Sub64`).

## Model

| member | source | states |
|---|---|---|
| `GoInts.Wrap64` | subgameserver/SubGameServer.go:104 | int64 arithmetic: a value in range is kept; otherwise the result differs from it by a multiple of 2^64 |
| `GoInts.Sub64` | subgameserver/SubGameServer.go:104 | `now - StartTime` equals the mathematical difference whenever that difference fits in int64, and is congruent to it modulo 2^64 always |
| `GoInts.Rem` | subgameserver/SubGameServer.go:104 | Go's `%` by a positive divisor: the result's magnitude is below the divisor and its sign follows the dividend |
| `GoInts.RemOfNonNegative` | subgameserver/SubGameServer.go:104 | for a non-negative dividend, Go's remainder equals the Euclidean one |
| `GoInts.RemIsOdd` | subgameserver/SubGameServer.go:143 | truncation: negating the dividend negates the remainder |
| `GoInts.RemByCycleIsRemainder` | subgameserver/SubGameServer.go:143 | `a - Rem(a, 40)` is a multiple of 40, so Rem is a true remainder |
| `GoInts.RemOfNegativeDiffers` | subgameserver/SubGameServer.go:104 | -5 % 40 is -5 in Go but 35 under Euclidean division |
| `Strconv.Digits` | mainserver/mainserver.go:41 | at least one decimal digit, and a leading '0' exactly for 0 |
| `Strconv.Itoa` | mainserver/mainserver.go:41 | non-negative numbers render as digits only; negative ones start with '-' |
| `Strconv.DigitsRoundTrip` | mainserver/mainserver.go:41 | reading the digits back gives the number |
| `Strconv.ItoaRoundTrip` | mainserver/mainserver.go:41 | parsing Itoa's output gives the number back |
| `Strconv.ItoaInjective` | mainserver/mainserver.go:41 | two room indices give the same room ID exactly when they are equal |
| `Users.UserStateValues` | mainserver/user.go:5-11 | the five user states are 0..4 and pairwise distinct; UnReady is exactly the zero value |
| `Rooms.RoomStateValues` | mainserver/room.go:7-11 | Waiting, Loading and InGame are 0..2 and distinct; Waiting is the zero value |
| `Rooms.RoomIndexGenerator.constructor` | mainserver/room.go:25 | the package counter starts at 0 |
| `Rooms.RoomIndexGenerator.Generate` | mainserver/room.go:28-33 | GenerateRoomIndex raises the counter by exactly one and returns the new value |
| `Rooms.RoomIndexGenerator.Clear` | mainserver/room.go:35-39 | ClearRoomIndex sets the counter to 0, so the next Generate returns 1 |
| `MainServer.ConverteProtocalState2UserState` | mainserver/mainserver.go:100-103 | a user state goes on the wire as its own integer in 0..4; 0 means UnReady |
| `MainServer.WireUserStateInjective` | mainserver/mainserver.go:100-103 | distinct user states get distinct wire integers |
| `MainServer.NextRoomIndex` | mainserver/mainserver.go:33-37 | from a non-negative counter the allocated index is in 0..99999: the counter plus one, or 0 once that reaches 100000 |
| `MainServer.CounterAfter` | mainserver/mainserver.go:33-37 | the counter after k CreateRoom calls from a non-negative counter is never negative and never more than k above where it started |
| `MainServer.CounterAfterIsModular` | mainserver/mainserver.go:33-37 | from a valid counter, k CreateRoom calls leave it at (counter + k) mod 100000 |
| `MainServer.CounterAfterInRange` | mainserver/mainserver.go:33-37 | after any number of CreateRoom calls from a valid counter, the counter and every issued index stay in 0..99999 |
| `MainServer.CounterAfterWithoutWrap` | mainserver/room.go:28-33 | up to the ceiling, the k-th CreateRoom issues counter + k |
| `MainServer.IssuedIdsDistinct` | mainserver/mainserver.go:33-41 | within one wrap-around epoch, issued indices strictly increase and their room IDs are distinct |
| `MainServer.IdsRepeatAfterWrap` | mainserver/mainserver.go:33-41 | after start-up, the 1st room gets "1", the 100000th gets "0", and the 100001st gets "1" again |
| `MainServer.LookupRoom` | mainserver/mainserver.go:107 | Go's map read: a stored room is returned as is; an absent key yields the zero Room (no members, owner "", Waiting, capacity 0, no IDs) |
| `MainServer.GetSubServerDir` | mainserver/mainserver.go:137-139 | every session is placed on 192.168.0.199, port 8333 |
| `MainServer.NewRoom` | mainserver/mainserver.go:39-49 | the room CreateRoom stores: the owner is its only member, UnReady; Waiting, MapID "000", capacity 8; no session ID, server IP or port yet |
| `MainServer.CreateRoomOp` | mainserver/mainserver.go:31-54 | always Ret = true; RoomID is the decimal form of the new counter value; the new room has the owner as its only member (UnReady), MapID "000", capacity 8, state Waiting, and no session ID, server IP or port yet; any room already under that ID is replaced; no other entry changes |
| `MainServer.JoinRoomOp` | mainserver/mainserver.go:56-79 | success iff the room exists, is Waiting and lacks the user; the three failures, checked in that order, carry their own messages and change nothing; success adds exactly that user as UnReady and changes nothing else |
| `MainServer.StartGameOp` | mainserver/mainserver.go:105-135 | always Ret = true, session ID roomID + "_GID", IP 192.168.0.199, port 8333; the message is empty iff the room exists and the requester owns it; the entry becomes Loading with ID "", keeping members, capacity, owner and map (all zero for an unknown room); no other entry changes |
| `MainServer.TransitionsKeepUnReadyAndNoInGame` | mainserver/mainserver.go:39-128 | start-up and all three transitions keep every member UnReady and no room InGame |
| `MainServer.FirstRoomAfterInit` | mainserver/mainserver.go:19-21 | after start-up, the first room created is "1", and its owner is its only member |
| `MainServer.JoinAfterStartFails` | mainserver/mainserver.go:64-68 | once StartGame has run on a room, every JoinRoom on it fails with "already started" and changes nothing |
| `MainServer.NonOwnerStartStillLoads` | mainserver/mainserver.go:112-128 | StartGame by a non-owner answers with the permission message, yet Ret = true and the room moves to Loading |
| `MainServer.StartOnUnknownRoomCreatesMemberlessEntry` | mainserver/mainserver.go:107-128 | StartGame on an unknown ID creates an entry with no members, owner "", capacity 0 and map "" |
| `MainServer.MainServer.constructor` | mainserver/mainserver.go:19-21 | a new server has an empty table and a cleared counter |
| `MainServer.MainServer.InitServer` | mainserver/mainserver.go:19-29 | clears the counter and empties the table |
| `MainServer.MainServer.CreateRoom` | mainserver/mainserver.go:31-54 | performs CreateRoomOp in place through the counter object; keeps the counter in 0..99999 |
| `MainServer.MainServer.JoinRoom` | mainserver/mainserver.go:56-79 | performs JoinRoomOp, writing the updated room back into the table |
| `MainServer.MainServer.GetRoomState` | mainserver/mainserver.go:81-98 | read-only; unknown ID: Ret = false, zero fields, error "Undefined RoomID …"; otherwise Ret = true, the room's map, capacity, session ID, IP and port, and exactly one User per member with its wire state |
| `MainServer.MainServer.StartGame` | mainserver/mainserver.go:105-135 | performs StartGameOp in place |
| `Players.PlayerStateConstants` | subgameserver/player.go:5-8 | Alive = 0 (the zero value) and Dead = 1, distinct |
| `GameInstances.GameStateValues` | subgameserver/GameInstance.go:5-8 | Loading = 0 (the zero value) and Playing = 1, distinct |
| `GameInstances.ZeroInstanceShape` | subgameserver/GameInstance.go:10-15 | the instance an unknown ID yields is Loading, starts at 0 and has a nil (empty) roster |
| `SubGameServer.ConvertePlayerState2Protocol` | subgameserver/SubGameServer.go:128-130 | the wire value has the same integer as the internal state |
| `SubGameServer.ConverteProtocal2PlayerState` | subgameserver/SubGameServer.go:132-134 | any wire integer is kept unchanged as the internal state |
| `SubGameServer.ConvertGameState2Protocol` | subgameserver/SubGameServer.go:136-138 | Loading goes on the wire as 0 and Playing as 1 |
| `SubGameServer.ToInfo` | subgameserver/SubGameServer.go:113-122 | the PlayerInfo GetGameState reports for a player, from which the stored player can be rebuilt exactly |
| `SubGameServer.FromInfo` | subgameserver/SubGameServer.go:150-159 | the player PostGameState stores: it is keyed by the posted userid, keeps health and item list, and keeps the state's integer |
| `SubGameServer.PlayerStateRoundTrip` | subgameserver/SubGameServer.go:128-134 | the two player-state casts invert each other, in both directions |
| `SubGameServer.InfoRoundTrip` | subgameserver/SubGameServer.go:113-159 | writing a PlayerInfo into a Player and reading it back gives the same record, and the other way round |
| `SubGameServer.Elapsed` | subgameserver/SubGameServer.go:104 | the window position, computed as in Go, lies strictly between -40 and 40 |
| `SubGameServer.GetPermitted` | subgameserver/SubGameServer.go:104-109 | a read is permitted only in the last 10 seconds, [30, 40), of a cycle |
| `SubGameServer.PostPermitted` | subgameserver/SubGameServer.go:143-148 | a post is permitted exactly when a read is not |
| `SubGameServer.WindowsPartitionTime` | subgameserver/SubGameServer.go:104-148 | at every instant, exactly one of GetGameState and PostGameState is permitted |
| `SubGameServer.ReadWindowAfterStart` | subgameserver/SubGameServer.go:104-109 | after the start, without overflow, reads are permitted iff (now - start) mod 40 >= 30, and writes iff it is < 30 |
| `SubGameServer.WindowsRepeatEachCycle` | subgameserver/SubGameServer.go:104 | after the start, permissions 40 seconds later are the same |
| `SubGameServer.BeforeStartOnlyWrites` | subgameserver/SubGameServer.go:143-148 | before the start only posts are permitted; a Euclidean remainder would have allowed reads in the last 10 seconds before the start |
| `SubGameServer.WindowInFirstCycle` | subgameserver/SubGameServer.go:104-148 | in the first cycle, posts are permitted for elapsed < 30 and reads for 30..39 |
| `SubGameServer.WindowExamples` | subgameserver/SubGameServer.go:104-148 | elapsed 15 permits only a post; elapsed 35 permits only a read |
| `SubGameServer.LookupInstance` | subgameserver/SubGameServer.go:103 | Go's map read: a stored session is returned as is; an absent key yields the zero instance (nil roster, Loading, start time 0, room "") |
| `SubGameServer.Placeholder` | subgameserver/SubGameServer.go:33-37 | the entry stored before the fetch: Loading, the request's room ID, start time 0, a nil (empty, trivially keyed) roster |
| `SubGameServer.FreshPlayer` | subgameserver/SubGameServer.go:79-88 | a newly hydrated player is keyed by its user ID, and a read reports it as health 100, no items, "zhanshi", (0,0), "StartAction", Alive |
| `SubGameServer.HydratedInstance` | subgameserver/SubGameServer.go:77-96 | the hydrated session is Playing, keeps the room ID, starts at now, and holds exactly one default player (health 100, "zhanshi", (0,0), "StartAction", Alive, no items) per distinct user ID, keyed by that ID |
| `SubGameServer.CreateGameOp` | subgameserver/SubGameServer.go:24-50 | Ret iff the ID is new and the fetch succeeded; an existing ID: "Game already Created" and nothing changes; a failed fetch leaves the Loading placeholder with "Fail to get Info From MainServer"; success stores the hydrated session with "success"; other entries are untouched |
| `SubGameServer.PostOp` | subgameserver/SubGameServer.go:140-162 | Ret is always false; outside the write window: "Present PostMsg is forbidden", nothing changes; inside it, the whole record under the posted userid is replaced (item list included), other players, the session's other fields and other sessions stay as they were |
| `SubGameServer.TransitionsKeepRostersKeyed` | subgameserver/SubGameServer.go:77-159 | creation and posting keep every roster key equal to its player's UserID |
| `SubGameServer.CreateIsOneShot` | subgameserver/SubGameServer.go:26-31 | a second create for the same ID is refused and changes nothing, whatever its room, fetch result or time |
| `SubGameServer.PostThenGetReturnsPosted` | subgameserver/SubGameServer.go:111-159 | after a permitted post, any GetGameState listing of the roster contains the posted PlayerInfo exactly, and it is the only entry for that user (an empty item list clears the items) |
| `SubGameServer.SubGameServer.constructor` | subgameserver/SubGameServer.go:19-22 | a new session host has an empty table |
| `SubGameServer.SubGameServer.CreateGameWithInstance` | subgameserver/SubGameServer.go:24-50 | performs CreateGameOp in place (placeholder first, then the hydrated session) and keeps rosters keyed |
| `SubGameServer.SubGameServer.GetGameInfoFromMainServer` | subgameserver/SubGameServer.go:77-96 | the roster loop builds exactly the hydrated session from a successful fetch, and nothing from a failed one |
| `SubGameServer.SubGameServer.GetGameState` | subgameserver/SubGameServer.go:101-126 | read-only; outside the read window: Ret = false, "Present GetMsg is forbidden", no players; inside it: Ret = true, the session's state, and one PlayerInfo per roster entry, each copying every field |
| `SubGameServer.SubGameServer.PostGameState` | subgameserver/SubGameServer.go:140-162 | performs PostOp, writing the roster back into the table; keeps rosters keyed |
| `Handoff.UserIds` | subgameserver/SubGameServer.go:78-80 | the i-th ID hydration reads is the ID of the i-th reported user |
| `Handoff.ListedIdsAreMembers` | mainserver/mainserver.go:94-96 | the IDs in a GetRoomState member listing are exactly the room's members |
| `Handoff.HandoffKeepsMembership` | subgameserver/SubGameServer.go:77-96 | StartGame then CreateGameWithInstance, for the session ID handed out and fed with the room's listing, succeeds; the session roster holds exactly the lobby's members, each with a fresh record |
| `Handoff.LobbyScenario` | mainserver/mainserver.go:31-135 | from start-up, CreateRoom by A gives "1", B's join succeeds, and StartGame by A gives "1_GID" with an empty message; room "1" is Loading with members {A, B} |
| `Handoff.SessionScenario` | subgameserver/SubGameServer.go:24-162 | hydrating "1_GID" from {A, B} at t succeeds with both at health 100; a read at t+32 is permitted; A's post of health 60 at t+5 is permitted, makes A's record exactly the one built from the posted PlayerInfo, and leaves B's |

## Left out

- The gRPC transport, server registration and TCP listener are not modelled: mainserver/main.go, and the `Unimplemented…Server` embeddings.
- The dial, the 10-second call timeout and the RPC call in `GetGameInfoFromMainServer` (subgameserver/SubGameServer.go:53-75) are not modelled. Their outcome is the injected `fetched` parameter.
- `util.GetLocalIP`, `log.Fatalf` and the `serverIP` field in `InitServer` are not modelled. The field is written there and read by no core handler.
- All `fmt.Printf` output is left out.
- `time.Now()` is the `now` parameter.
- The mutex on the room counter and the unsynchronised map accesses are left out. They matter only under concurrency, and the model is sequential.
- Go's map iteration order is not modelled. `GetRoomState` and `GetGameState` pick keys in an unspecified order; their contracts fix the listed entries, each exactly once, but not the order.
- The Go panic on writing into a nil roster in `PostGameState` is a precondition (`PostIsSafe`), not behaviour. It applies to the placeholder and to unknown IDs inside the write window.
- A request whose nested `User` (CreateRoom, JoinRoom: mainserver/mainserver.go:40, 46, 69, 72, 75) or `PlayerInfo` (PostGameState: subgameserver/SubGameServer.go:150-158) is missing makes Go dereference nil and panic. The model takes the user ID and the player record as plain parameters, so it assumes they are always present and does not model that crash.
- The `error` value returned with `GetRoomState` is modelled only as present (`Some` message) or absent. How gRPC then drops the response is part of the transport.
- The `gameserver/protocol` package is not part of this model. Its messages are reduced to the fields the core sets or reads, and its enums are `int32` values.
- The command-line client (cli/main.go) and the file and flag utilities (util/) are not part of this model.
- `Rooms.RoomIndexGenerator.Generate`: the counter is an unbounded integer, so Go's int overflow is not modelled. Through `CreateRoom` the counter never gets past 100000.
