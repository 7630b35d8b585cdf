/**
 * The room broker (mainserver/mainserver.go): a table from room ID to Room and
 * the four handlers that change or read it. Each state-changing handler of the
 * MainServer class is proved against a pure transition on `Broker` (table and
 * counter), and the lemmas further down are stated about those transitions.
 */
module MainServer {
  import opened GoInts
  import opened Wrappers
  import opened Strconv
  import Users
  import opened Rooms
  import opened Protocol

  /** CreateRoom clears the counter once it would issue an index this large. */
  const RoomIndexCeiling: int := 100000

  const DefaultMapID: string := "000"
  const DefaultCapacity: int64 := 8
  const GameInstanceSuffix: string := "_GID"
  const SubServerIP: string := "192.168.0.199"
  const SubServerPort: int64 := 8333

  const MsgAlreadyStarted: string := "The room has already started game"
  const MsgUnknownRoomOnStart: string := "Undifined Room ID, Please recreate your room"
  const MsgNoStartPermission: string := "The user requesting does not have START-GAME permission"

  function MsgUndefinedRoom(roomId: string): string {
    "Undefined RoomID " + roomId
  }

  function MsgAlreadyMember(userId: string, roomId: string): string {
    "Player " + userId + " is already in the room " + roomId
  }

  /** The broker's state: the room table and the value of the package counter. */
  datatype Broker = Broker(rooms: map<string, Room>, counter: int)

  /** What InitServer leaves: an empty table and a cleared counter. */
  const InitialBroker: Broker := Broker(map[], 0)

  /** Go's `m[k]` on the room table: the stored room, or the zero Room for an absent key. */
  function LookupRoom(rooms: map<string, Room>, roomId: string): (r: Room)
    ensures roomId in rooms ==> r == rooms[roomId]
    ensures roomId !in rooms ==>
      && r.userState == map[] && r.ownerID == "" && r.roomState == Waiting
      && r.id == "" && r.mapID == "" && r.capacity == 0 && r.gameInstance == ""
  {
    if roomId in rooms then rooms[roomId] else ZeroRoom
  }

  /** GetSubServerDir: the fixed placement of every game session. */
  function GetSubServerDir(): (dir: (string, int64))
    ensures dir.0 == "192.168.0.199" && dir.1 == 8333
  {
    (SubServerIP, SubServerPort)
  }

  /** ConverteProtocalState2UserState: a cast, so each state keeps its integer. */
  function ConverteProtocalState2UserState(s: Users.UserState): (w: int32)
    ensures 0 <= w <= 4
    ensures w == 0 <==> s == Users.UnReady
  {
    s.Value()
  }

  /** The wire conversion loses nothing: distinct states stay distinct on the wire. */
  lemma WireUserStateInjective(s: Users.UserState, t: Users.UserState)
    ensures ConverteProtocalState2UserState(s) == ConverteProtocalState2UserState(t) <==> s == t
  {
    Users.UserStateValues(s, t);
  }

  // ---------------------------------------------------------------- room IDs

  /**
   * The index CreateRoom allocates from counter value `counter`; it is also the
   * counter's value afterwards (GenerateRoomIndex, then ClearRoomIndex on overflow).
   */
  function NextRoomIndex(counter: int): (r: int)
    ensures 0 <= counter ==> 0 <= r < RoomIndexCeiling
    ensures counter + 1 < RoomIndexCeiling ==> r == counter + 1
    ensures counter + 1 >= RoomIndexCeiling ==> r == 0
  {
    var generated := counter + 1;
    if generated >= RoomIndexCeiling then 0 else generated
  }

  /** The counter after `k` successive CreateRoom calls starting from `counter`. */
  function CounterAfter(counter: int, k: nat): (r: int)
    ensures 0 <= counter ==> 0 <= r <= counter + k
    decreases k
  {
    if k == 0 then counter else NextRoomIndex(CounterAfter(counter, k - 1))
  }

  /** Every index CreateRoom issues from a valid counter lies in 0..99999. */
  lemma {:induction false} CounterAfterInRange(counter: int, k: nat)
    requires 0 <= counter < RoomIndexCeiling
    ensures 0 <= CounterAfter(counter, k) < RoomIndexCeiling
    decreases k
  {
    if k > 0 {
      CounterAfterInRange(counter, k - 1);
    }
  }

  /** From a valid counter, k CreateRoom calls advance it by k modulo 100000. */
  lemma {:induction false} CounterAfterIsModular(counter: int, k: nat)
    requires 0 <= counter < RoomIndexCeiling
    ensures CounterAfter(counter, k) == (counter + k) % RoomIndexCeiling
    decreases k
  {
    if k > 0 {
      CounterAfterIsModular(counter, k - 1);
      var prev := (counter + k - 1) % RoomIndexCeiling;
      var q := (counter + k - 1) / RoomIndexCeiling;
      assert counter + k - 1 == q * RoomIndexCeiling + prev;
      if prev + 1 == RoomIndexCeiling {
        assert counter + k == (q + 1) * RoomIndexCeiling;
      } else {
        assert counter + k == q * RoomIndexCeiling + (prev + 1);
      }
    }
  }

  /** Until the ceiling is reached, the k-th CreateRoom issues counter + k. */
  lemma {:induction false} CounterAfterWithoutWrap(counter: int, k: nat)
    requires 0 <= counter && counter + k < RoomIndexCeiling
    ensures CounterAfter(counter, k) == counter + k
    decreases k
  {
    if k > 0 {
      CounterAfterWithoutWrap(counter, k - 1);
    }
  }

  /** Within one wrap-around epoch, the issued indices strictly increase and the room IDs are distinct. */
  lemma IssuedIdsDistinct(counter: int, i: nat, j: nat)
    requires 0 <= counter && 0 < i < j && counter + j < RoomIndexCeiling
    ensures CounterAfter(counter, i) < CounterAfter(counter, j)
    ensures Itoa(CounterAfter(counter, i)) != Itoa(CounterAfter(counter, j))
  {
    CounterAfterWithoutWrap(counter, i);
    CounterAfterWithoutWrap(counter, j);
    ItoaInjective(CounterAfter(counter, i), CounterAfter(counter, j));
  }

  /**
   * After start-up, the 100000th room gets ID "0" and the 100001st gets "1" again,
   * the ID the first room received: IDs are reused across the wrap.
   */
  lemma IdsRepeatAfterWrap()
    ensures Itoa(CounterAfter(0, 1)) == "1"
    ensures Itoa(CounterAfter(0, RoomIndexCeiling)) == "0"
    ensures Itoa(CounterAfter(0, RoomIndexCeiling + 1)) == Itoa(CounterAfter(0, 1))
  {
    CounterAfterWithoutWrap(0, RoomIndexCeiling - 1);
    assert CounterAfter(0, RoomIndexCeiling) == 0;
    assert Digits(1) == "1";
    assert Digits(0) == "0";
  }

  // -------------------------------------------------------- the transitions

  /** The room literal CreateRoom stores. */
  function NewRoom(roomId: string, ownerId: string): (room: Room)
    ensures room.userState.Keys == {ownerId} && room.userState[ownerId] == Users.UnReady
    ensures room.roomState == Waiting && room.id == roomId && room.ownerID == ownerId
    ensures room.mapID == "000" && room.capacity == 8
    ensures room.gameServerIP == "" && room.gameServerPort == 0 && room.gameInstance == ""
  {
    Room(Waiting, roomId, DefaultMapID, DefaultCapacity, ownerId,
         map[ownerId := Users.UnReady], "", 0, "")
  }

  /**
   * CreateRoom. It always succeeds, answers with the decimal form of the allocated
   * index, ignores the requested map ID and overwrites any room already under that ID.
   */
  function CreateRoomOp(b: Broker, ownerId: string, mapId: string): (r: (Broker, CreateRoomResponse))
    ensures r.1.ret
    ensures r.0.counter == NextRoomIndex(b.counter)
    ensures r.1.roomID == Itoa(r.0.counter)
    ensures r.0.rooms.Keys == b.rooms.Keys + {r.1.roomID}
    ensures forall id :: id in b.rooms && id != r.1.roomID ==> r.0.rooms[id] == b.rooms[id]
    ensures var room := r.0.rooms[r.1.roomID];
      && room.id == r.1.roomID
      && room.ownerID == ownerId
      && room.userState == map[ownerId := Users.UnReady]
      && room.mapID == DefaultMapID && room.capacity == DefaultCapacity
      && room.roomState == Waiting
      && room.gameServerIP == "" && room.gameServerPort == 0 && room.gameInstance == ""
  {
    var index := NextRoomIndex(b.counter);
    var roomId := Itoa(index);
    (Broker(b.rooms[roomId := NewRoom(roomId, ownerId)], index), CreateRoomResponse(true, roomId))
  }

  /**
   * JoinRoom. It fails, leaving the broker as it was, on an unknown ID, then on a room
   * that is not Waiting, then on a user who is already a member; otherwise it adds
   * exactly that user, as UnReady, to that room.
   */
  function JoinRoomOp(b: Broker, roomId: string, userId: string): (r: (Broker, JoinRoomResponse))
    ensures r.1.ret <==>
      roomId in b.rooms && b.rooms[roomId].roomState == Waiting && userId !in b.rooms[roomId].userState
    ensures !r.1.ret ==> r.0 == b
    ensures roomId !in b.rooms ==> r.1.message == MsgUndefinedRoom(roomId)
    ensures roomId in b.rooms && b.rooms[roomId].roomState != Waiting ==> r.1.message == MsgAlreadyStarted
    ensures roomId in b.rooms && b.rooms[roomId].roomState == Waiting && userId in b.rooms[roomId].userState ==>
      r.1.message == MsgAlreadyMember(userId, roomId)
    ensures r.1.ret ==>
      && r.1.message == ""
      && r.0.counter == b.counter
      && r.0.rooms.Keys == b.rooms.Keys
      && (forall id :: id in b.rooms && id != roomId ==> r.0.rooms[id] == b.rooms[id])
      && r.0.rooms[roomId].(userState := map[]) == b.rooms[roomId].(userState := map[])
      && r.0.rooms[roomId].userState.Keys == b.rooms[roomId].userState.Keys + {userId}
      && r.0.rooms[roomId].userState[userId] == Users.UnReady
      && (forall u :: u in b.rooms[roomId].userState ==>
            r.0.rooms[roomId].userState[u] == b.rooms[roomId].userState[u])
  {
    if roomId !in b.rooms then
      (b, JoinRoomResponse(false, MsgUndefinedRoom(roomId)))
    else
      var room := b.rooms[roomId];
      if room.roomState != Waiting then
        (b, JoinRoomResponse(false, MsgAlreadyStarted))
      else if userId in room.userState then
        (b, JoinRoomResponse(false, MsgAlreadyMember(userId, roomId)))
      else
        var joined := room.(userState := room.userState[userId := Users.UnReady]);
        (b.(rooms := b.rooms[roomId := joined]), JoinRoomResponse(true, ""))
  }

  /**
   * StartGame as written: the failure branches set a message but fall through, so the
   * call always answers Ret = true and always rewrites the entry, as Loading, without
   * its ID, keeping members, capacity, owner and map of whatever the lookup gave
   * (the zero Room for an unknown ID).
   */
  function StartGameOp(b: Broker, roomId: string, userId: string): (r: (Broker, StartGameResponse))
    ensures r.1.ret
    ensures r.1.gameinstanceID == roomId + GameInstanceSuffix
    ensures r.1.gameserverIP == SubServerIP && r.1.gameserverPort == SubServerPort
    ensures r.1.message == "" <==> roomId in b.rooms && userId == b.rooms[roomId].ownerID
    ensures userId != LookupRoom(b.rooms, roomId).ownerID ==> r.1.message == MsgNoStartPermission
    ensures roomId !in b.rooms && userId == "" ==> r.1.message == MsgUnknownRoomOnStart
    ensures r.0.counter == b.counter
    ensures r.0.rooms.Keys == b.rooms.Keys + {roomId}
    ensures forall id :: id in b.rooms && id != roomId ==> r.0.rooms[id] == b.rooms[id]
    ensures var room, pre := r.0.rooms[roomId], LookupRoom(b.rooms, roomId);
      && room.roomState == Loading
      && room.id == ""
      && room.userState == pre.userState
      && room.capacity == pre.capacity && room.ownerID == pre.ownerID && room.mapID == pre.mapID
      && room.gameInstance == roomId + GameInstanceSuffix
      && room.gameServerIP == SubServerIP && room.gameServerPort == SubServerPort
  {
    var preroom := LookupRoom(b.rooms, roomId);
    var message :=
      if userId != preroom.ownerID then MsgNoStartPermission
      else if roomId !in b.rooms then MsgUnknownRoomOnStart
      else "";
    var (serverIP, serverPort) := GetSubServerDir();
    var started := Room(Loading, "", preroom.mapID, preroom.capacity, preroom.ownerID,
                        preroom.userState, serverIP, serverPort, roomId + GameInstanceSuffix);
    (b.(rooms := b.rooms[roomId := started]),
     StartGameResponse(true, message, roomId + GameInstanceSuffix, serverIP, serverPort))
  }

  /**
   * `users` is what GetRoomState reports for the member map `members`: exactly one
   * entry per member, carrying the member's state as its wire integer, in some order.
   */
  predicate ListsMembers(users: seq<User>, members: map<string, Users.UserState>) {
    && |users| == |members|
    && (forall i :: 0 <= i < |users| ==>
          users[i].id in members && users[i].state == ConverteProtocalState2UserState(members[users[i].id]))
    && (forall i, j :: 0 <= i < j < |users| ==> users[i].id != users[j].id)
    && (forall id :: id in members ==> exists i :: 0 <= i < |users| && users[i].id == id)
  }

  // ------------------------------------------------------ properties of them

  /** Every member of every room is UnReady. */
  predicate AllMembersUnReady(rooms: map<string, Room>) {
    forall id, u :: id in rooms && u in rooms[id].userState ==> rooms[id].userState[u] == Users.UnReady
  }

  /** No room is InGame. */
  predicate NoRoomInGame(rooms: map<string, Room>) {
    forall id :: id in rooms ==> rooms[id].roomState != InGame
  }

  /**
   * No handler moves a member out of UnReady or a room into InGame: both hold of
   * the initial broker and every transition keeps them.
   */
  lemma TransitionsKeepUnReadyAndNoInGame(b: Broker, roomId: string, userId: string, mapId: string)
    requires AllMembersUnReady(b.rooms) && NoRoomInGame(b.rooms)
    ensures AllMembersUnReady(InitialBroker.rooms) && NoRoomInGame(InitialBroker.rooms)
    ensures var c := CreateRoomOp(b, userId, mapId).0; AllMembersUnReady(c.rooms) && NoRoomInGame(c.rooms)
    ensures var j := JoinRoomOp(b, roomId, userId).0; AllMembersUnReady(j.rooms) && NoRoomInGame(j.rooms)
    ensures var s := StartGameOp(b, roomId, userId).0; AllMembersUnReady(s.rooms) && NoRoomInGame(s.rooms)
  {
    var c := CreateRoomOp(b, userId, mapId).0;
    forall id, u | id in c.rooms && u in c.rooms[id].userState
      ensures c.rooms[id].userState[u] == Users.UnReady
    {
      if id != CreateRoomOp(b, userId, mapId).1.roomID {
        assert c.rooms[id] == b.rooms[id];
      }
    }
    var j := JoinRoomOp(b, roomId, userId);
    if j.1.ret {
      forall id, u | id in j.0.rooms && u in j.0.rooms[id].userState
        ensures j.0.rooms[id].userState[u] == Users.UnReady
      {
        if id == roomId && u in b.rooms[roomId].userState {
          assert j.0.rooms[id].userState[u] == b.rooms[roomId].userState[u];
        }
      }
    }
    var s := StartGameOp(b, roomId, userId).0;
    forall id, u | id in s.rooms && u in s.rooms[id].userState
      ensures s.rooms[id].userState[u] == Users.UnReady
    {
      if id != roomId {
        assert s.rooms[id] == b.rooms[id];
      } else {
        assert s.rooms[id].userState == LookupRoom(b.rooms, roomId).userState;
      }
    }
  }

  /** Start-up followed by one CreateRoom yields room "1", whose only member is its owner. */
  lemma FirstRoomAfterInit(ownerId: string, mapId: string)
    ensures var (b, resp) := CreateRoomOp(InitialBroker, ownerId, mapId);
      resp.roomID == "1" && b.rooms.Keys == {"1"} && b.rooms["1"].userState.Keys == {ownerId}
  {
    assert Digits(1) == "1";
  }

  /** Once StartGame has run on a room, every later JoinRoom on it fails with "already started". */
  lemma JoinAfterStartFails(b: Broker, roomId: string, ownerId: string, userId: string)
    ensures var started := StartGameOp(b, roomId, ownerId).0;
      JoinRoomOp(started, roomId, userId) == (started, JoinRoomResponse(false, MsgAlreadyStarted))
  {
  }

  /**
   * StartGame by someone other than the owner still moves a Waiting room to Loading:
   * the permission check is not enforced.
   */
  lemma NonOwnerStartStillLoads(b: Broker, roomId: string, userId: string)
    requires roomId in b.rooms && b.rooms[roomId].roomState == Waiting && userId != b.rooms[roomId].ownerID
    ensures var (after, resp) := StartGameOp(b, roomId, userId);
      resp.ret && resp.message == MsgNoStartPermission && after.rooms[roomId].roomState == Loading
  {
  }

  /**
   * StartGame on an unknown ID creates an entry with no members whose owner is "",
   * so the owner of a room is not always one of its members.
   */
  lemma StartOnUnknownRoomCreatesMemberlessEntry(b: Broker, roomId: string, userId: string)
    requires roomId !in b.rooms
    ensures var room := StartGameOp(b, roomId, userId).0.rooms[roomId];
      room.userState == map[] && room.ownerID == "" && room.ownerID !in room.userState
      && room.capacity == 0 && room.mapID == ""
  {
  }

  // ------------------------------------------------------------- the server

  /** MainServer: the room table, and the package counter it allocates room IDs from. */
  class MainServer {
    var roomlist: map<string, Room>
    const indexer: RoomIndexGenerator

    /** The counter never leaves 0..99999: CreateRoom clears it before it gets higher. */
    ghost predicate Valid()
      reads this, indexer
    {
      0 <= indexer.index < RoomIndexCeiling
    }

    ghost function State(): Broker
      reads this, indexer
    {
      Broker(roomlist, indexer.index)
    }

    /** The server as InitServer leaves it. */
    constructor ()
      ensures Valid() && State() == InitialBroker
    {
      roomlist := map[];
      indexer := new RoomIndexGenerator();
    }

    /** InitServer, without the local-address lookup: clears the counter and empties the table. */
    method InitServer()
      modifies this, indexer
      ensures Valid() && State() == InitialBroker
    {
      indexer.Clear();
      roomlist := map[];
    }

    method CreateRoom(ownerId: string, mapId: string) returns (resp: CreateRoomResponse)
      requires Valid()
      modifies this, indexer
      ensures Valid()
      ensures (State(), resp) == CreateRoomOp(old(State()), ownerId, mapId)
    {
      var roomIndex := indexer.Generate();
      if roomIndex >= RoomIndexCeiling {
        indexer.Clear();
        roomIndex := 0;
      }
      var roomId := Itoa(roomIndex);
      roomlist := roomlist[roomId := NewRoom(roomId, ownerId)];
      resp := CreateRoomResponse(true, roomId);
    }

    /** The member is added to the room value and the room is written back into the table. */
    method JoinRoom(roomId: string, userId: string) returns (resp: JoinRoomResponse)
      requires Valid()
      modifies this
      ensures Valid()
      ensures (State(), resp) == JoinRoomOp(old(State()), roomId, userId)
    {
      if roomId !in roomlist {
        resp := JoinRoomResponse(false, MsgUndefinedRoom(roomId));
        return;
      }
      var room := roomlist[roomId];
      if room.roomState != Waiting {
        resp := JoinRoomResponse(false, MsgAlreadyStarted);
        return;
      }
      if userId in roomlist[roomId].userState {
        resp := JoinRoomResponse(false, MsgAlreadyMember(userId, roomId));
        return;
      }
      room := room.(userState := room.userState[userId := Users.UnReady]);
      roomlist := roomlist[roomId := room];
      resp := JoinRoomResponse(true, "");
    }

    /**
     * GetRoomState: read-only. An unknown ID gives Ret = false and an error;
     * otherwise the room's fields and one User entry per member.
     */
    method GetRoomState(roomId: string) returns (resp: GetRoomStateResponse, err: Option<string>)
      ensures roomId !in roomlist ==>
        resp == GetRoomStateResponse(false, "", 0, "", "", 0, []) && err == Some(MsgUndefinedRoom(roomId))
      ensures roomId in roomlist ==>
        var room := roomlist[roomId];
        && err == None
        && resp.ret
        && resp.mapid == room.mapID && resp.capacity == room.capacity
        && resp.gameInstanceID == room.gameInstance
        && resp.gameserverIP == room.gameServerIP && resp.gameserverPort == room.gameServerPort
        && ListsMembers(resp.user, room.userState)
    {
      if roomId !in roomlist {
        resp := GetRoomStateResponse(false, "", 0, "", "", 0, []);
        err := Some(MsgUndefinedRoom(roomId));
        return;
      }
      var room := roomlist[roomId];
      var members := room.userState;
      var users: seq<User> := [];
      var pending := members.Keys;
      while pending != {}
        invariant pending <= members.Keys
        invariant |users| + |pending| == |members.Keys|
        invariant forall i :: 0 <= i < |users| ==>
          users[i].id in members && users[i].id !in pending
          && users[i].state == ConverteProtocalState2UserState(members[users[i].id])
        invariant forall i, j :: 0 <= i < j < |users| ==> users[i].id != users[j].id
        invariant forall id :: id in members && id !in pending ==> exists i :: 0 <= i < |users| && users[i].id == id
        decreases pending
      {
        var id :| id in pending;
        ghost var before := users;
        users := users + [User(id, ConverteProtocalState2UserState(members[id]))];
        forall x | x in members && x !in pending - {id}
          ensures exists i :: 0 <= i < |users| && users[i].id == x
        {
          if x == id {
            assert users[|before|].id == x;
          } else {
            var i :| 0 <= i < |before| && before[i].id == x;
            assert users[i].id == x;
          }
        }
        pending := pending - {id};
      }
      resp := GetRoomStateResponse(true, room.mapID, room.capacity, room.gameInstance,
                                   room.gameServerIP, room.gameServerPort, users);
      err := None;
    }

    /** StartGame as written: see StartGameOp. */
    method StartGame(roomId: string, userId: string) returns (resp: StartGameResponse)
      requires Valid()
      modifies this
      ensures Valid()
      ensures (State(), resp) == StartGameOp(old(State()), roomId, userId)
    {
      var message := "";
      var preroom := LookupRoom(roomlist, roomId);
      if roomId !in roomlist {
        message := MsgUnknownRoomOnStart;
      }
      if userId != preroom.ownerID {
        message := MsgNoStartPermission;
      }
      var (serverIP, serverPort) := GetSubServerDir();
      roomlist := roomlist[roomId := Room(Loading, "", preroom.mapID, preroom.capacity, preroom.ownerID,
                                          preroom.userState, serverIP, serverPort, roomId + GameInstanceSuffix)];
      resp := StartGameResponse(true, message, roomId + GameInstanceSuffix, serverIP, serverPort);
    }
  }
}
