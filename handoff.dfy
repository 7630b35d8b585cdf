/**
 * The handoff between the two services: the session host hydrates a new session
 * from the member list that the room broker's GetRoomState reports. The lemmas here
 * connect the two models; the scenarios walk through one match: create a room,
 * join, start, hydrate, then read and write in their windows.
 */
module Handoff {
  import opened GoInts
  import opened Wrappers
  import opened Protocol
  import Users
  import Rooms
  import MS = MainServer
  import SG = SubGameServer
  import GI = GameInstances

  /** The user IDs of a GetRoomState answer, in its order: what hydration reads from `response.User`. */
  function UserIds(users: seq<User>): (ids: seq<string>)
    ensures |ids| == |users|
    ensures forall i :: 0 <= i < |users| ==> ids[i] == users[i].id
  {
    if users == [] then [] else [users[0].id] + UserIds(users[1..])
  }

  /** The IDs of a member listing are exactly the members. */
  lemma ListedIdsAreMembers(users: seq<User>, members: map<string, Users.UserState>)
    requires MS.ListsMembers(users, members)
    ensures (set u | u in UserIds(users)) == members.Keys
  {
    var ids := UserIds(users);
    forall u | u in members ensures u in ids {
      var i :| 0 <= i < |users| && users[i].id == u;
      assert ids[i] == u;
    }
  }

  /**
   * StartGame followed by CreateGameWithInstance for the session ID it hands out,
   * fed with the member listing of the started room, gives a session whose roster
   * holds exactly the lobby's members, one fresh record each, and nobody else.
   */
  lemma HandoffKeepsMembership(b: MS.Broker, roomId: string, ownerId: string, users: seq<User>,
                               m: map<string, GI.GameInstance>, now: int64)
    requires MS.ListsMembers(users, MS.StartGameOp(b, roomId, ownerId).0.rooms[roomId].userState)
    requires MS.StartGameOp(b, roomId, ownerId).1.gameinstanceID !in m
    ensures var gid := MS.StartGameOp(b, roomId, ownerId).1.gameinstanceID;
      var (after, resp) := SG.CreateGameOp(m, gid, roomId, Some(UserIds(users)), now);
      && resp.ret
      && after[gid].state == GI.Playing && after[gid].roomID == roomId
      && GI.Roster(after[gid]).Keys == MS.LookupRoom(b.rooms, roomId).userState.Keys
      && |GI.Roster(after[gid])| == |MS.LookupRoom(b.rooms, roomId).userState|
      && forall u :: u in GI.Roster(after[gid]) ==> GI.Roster(after[gid])[u] == SG.FreshPlayer(u)
  {
    var members := MS.StartGameOp(b, roomId, ownerId).0.rooms[roomId].userState;
    ListedIdsAreMembers(users, members);
    assert |members| == |members.Keys|;
  }

  /** The lobby half of the walk-through, as the broker holds it after StartGame. */
  function ScenarioLobby(): MS.Broker {
    var b1 := MS.CreateRoomOp(MS.InitialBroker, "A", "000").0;
    var b2 := MS.JoinRoomOp(b1, "1", "B").0;
    MS.StartGameOp(b2, "1", "A").0
  }

  /** The broker answers of the walk-through: room "1", a successful join, session "1_GID". */
  lemma LobbyScenario()
    ensures var (b1, created) := MS.CreateRoomOp(MS.InitialBroker, "A", "000");
      var (b2, joined) := MS.JoinRoomOp(b1, "1", "B");
      var (b3, started) := MS.StartGameOp(b2, "1", "A");
      && created.roomID == "1"
      && joined.ret
      && started.ret && started.message == "" && started.gameinstanceID == "1_GID"
      && b3 == ScenarioLobby()
      && "1" in b3.rooms && b3.rooms["1"].userState.Keys == {"A", "B"}
      && b3.rooms["1"].roomState == Rooms.Loading
  {
    MS.FirstRoomAfterInit("A", "000");
  }

  /**
   * The session half: hydrating "1_GID" at time t from a listing of room "1"'s
   * members, A and B (LobbyScenario), gives
   * players A and B with health 100; at t + 32 a read is allowed; at t + 5 A posts
   * health 60, which replaces A's record and leaves B's as it was.
   */
  lemma SessionScenario(members: map<string, Users.UserState>, users: seq<User>, t: int64, at5: int64, at32: int64)
    requires members.Keys == {"A", "B"} && MS.ListsMembers(users, members)
    requires at5 as int == t as int + 5 && at32 as int == t as int + 32
    ensures var (m1, created) := SG.CreateGameOp(map[], "1_GID", "1", Some(UserIds(users)), t);
      var posted := PlayerInfo("A", 60, [], "zhanshi", 0, 0, "StartAction", 0);
      && created.ret
      && GI.Roster(m1["1_GID"]).Keys == {"A", "B"}
      && GI.Roster(m1["1_GID"])["A"].health == 100 && GI.Roster(m1["1_GID"])["B"].health == 100
      && SG.GetPermitted(m1["1_GID"], at32)
      && SG.PostIsSafe(m1, "1_GID", at5) && SG.PostPermitted(m1["1_GID"], at5)
      && var m2 := SG.PostOp(m1, "1_GID", posted, at5).0;
         && GI.Roster(m2["1_GID"])["A"] == SG.FromInfo(posted)
         && GI.Roster(m2["1_GID"])["A"].health == 60
         && GI.Roster(m2["1_GID"])["B"] == GI.Roster(m1["1_GID"])["B"]
         && SG.GetPermitted(m2["1_GID"], at32)
  {
    ListedIdsAreMembers(users, members);
    var ids := UserIds(users);
    var g1 := SG.HydratedInstance("1", ids, t);
    assert GI.Roster(g1).Keys == {"A", "B"};
    var (m1, created) := SG.CreateGameOp(map[], "1_GID", "1", Some(ids), t);
    assert m1["1_GID"] == g1;
    SG.WindowInFirstCycle(g1, at5);
    SG.WindowInFirstCycle(g1, at32);
    assert SG.PostPermitted(m1["1_GID"], at5);
    var posted := PlayerInfo("A", 60, [], "zhanshi", 0, 0, "StartAction", 0);
    var g2 := SG.PostOp(m1, "1_GID", posted, at5).0["1_GID"];
    assert g2.startTime == g1.startTime by {
      assert g2.(playerlist := None) == g1.(playerlist := None);
    }
    SG.WindowInFirstCycle(g2, at32);
  }
}
