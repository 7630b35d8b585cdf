/**
 * The session host (subgameserver/SubGameServer.go): a table from game-instance ID
 * to GameInstance, filled once per ID from the room broker's member list and then
 * read and written by clients inside alternating time windows. As on the broker
 * side, the state-changing handlers are proved against pure transitions on the
 * table, and the lemmas are stated about those.
 */
module SubGameServer {
  import opened GoInts
  import opened Wrappers
  import opened Protocol
  import opened Players
  import opened GameInstances

  /** Access windows: within each 40-second cycle after StartTime, writes come first, then reads. */
  const CycleLength: int := 40
  const ReadWindowStart: int := 30

  const DefaultHealth: int64 := 100
  const DefaultProfession: string := "zhanshi"
  const DefaultAction: string := "StartAction"

  const MsgAlreadyCreated: string := "Game already Created"
  const MsgFetchFailed: string := "Fail to get Info From MainServer"
  const MsgSuccess: string := "success"
  const MsgGetForbidden: string := "Present GetMsg is forbidden"
  const MsgPostForbidden: string := "Present PostMsg is forbidden"

  // ------------------------------------------------------- state conversions

  /** ConvertePlayerState2Protocol: a cast between two int32 types. */
  function ConvertePlayerState2Protocol(s: PlayerState): (w: PlyerState)
    ensures w as int == s as int
  {
    s as int32 as PlyerState
  }

  /** ConverteProtocal2PlayerState: the reverse cast; it accepts any wire integer. */
  function ConverteProtocal2PlayerState(w: PlyerState): (s: PlayerState)
    ensures s as int == w as int
  {
    w as int32 as PlayerState
  }

  /** ConvertGameState2Protocol: Loading travels as 0, Playing as 1. */
  function ConvertGameState2Protocol(s: GameState): (w: int32)
    ensures w == 0 <==> s == Loading
    ensures w == 1 <==> s == Playing
  {
    s.Value()
  }

  /** The two player-state casts are inverse to each other. */
  lemma PlayerStateRoundTrip(s: PlayerState, w: PlyerState)
    ensures ConverteProtocal2PlayerState(ConvertePlayerState2Protocol(s)) == s
    ensures ConvertePlayerState2Protocol(ConverteProtocal2PlayerState(w)) == w
  {
  }

  /** A stored player as GetGameState reports it: every field copied. */
  function ToInfo(p: Player): (info: PlayerInfo)
    ensures FromInfo(info) == p
  {
    PlayerInfo(p.userID, p.health, p.itemsid, p.professionid, p.positionX, p.positionY,
               p.action, ConvertePlayerState2Protocol(p.playerState))
  }

  /** A posted record as PostGameState stores it: every field copied. */
  function FromInfo(i: PlayerInfo): (p: Player)
    ensures p.userID == i.userid && p.health == i.health && p.itemsid == i.itemsid
    ensures p.playerState as int == i.playerState as int
  {
    Player(i.userid, i.health, i.itemsid, i.professionid, i.positionX, i.positionY,
           i.action, ConverteProtocal2PlayerState(i.playerState))
  }

  /** Posting and reading copy every field both ways, so a record survives the round trip. */
  lemma InfoRoundTrip(i: PlayerInfo, p: Player)
    ensures ToInfo(FromInfo(i)) == i
    ensures FromInfo(ToInfo(p)) == p
  {
    PlayerStateRoundTrip(p.playerState, i.playerState);
  }

  // --------------------------------------------------------- access windows

  /** `(now - StartTime) % 40` with Go's int64 subtraction and truncating remainder. */
  function Elapsed(g: GameInstance, now: int64): (r: int)
    ensures -CycleLength < r < CycleLength
  {
    Rem(Sub64(now, g.startTime) as int, CycleLength)
  }

  /** GetGameState answers only when the elapsed time is at least 30. */
  predicate GetPermitted(g: GameInstance, now: int64)
    ensures GetPermitted(g, now) ==> ReadWindowStart <= Elapsed(g, now) < CycleLength
  {
    Elapsed(g, now) >= ReadWindowStart
  }

  /** PostGameState writes only when the elapsed time is below 30. */
  predicate PostPermitted(g: GameInstance, now: int64)
    ensures PostPermitted(g, now) <==> !GetPermitted(g, now)
  {
    Elapsed(g, now) < ReadWindowStart
  }

  /** At every instant exactly one of reading and writing is permitted. */
  lemma WindowsPartitionTime(g: GameInstance, now: int64)
    ensures GetPermitted(g, now) != PostPermitted(g, now)
  {
  }

  /**
   * Once the session has started (and the subtraction does not wrap), reads are
   * permitted exactly in the last 10 seconds [30, 40) of each 40-second cycle.
   */
  lemma ReadWindowAfterStart(g: GameInstance, now: int64)
    requires 0 <= now as int - g.startTime as int <= INT64_MAX
    ensures GetPermitted(g, now) <==> (now as int - g.startTime as int) % CycleLength >= ReadWindowStart
    ensures PostPermitted(g, now) <==> (now as int - g.startTime as int) % CycleLength < ReadWindowStart
  {
    RemOfNonNegative(now as int - g.startTime as int, CycleLength);
  }

  /** After the start the windows repeat every 40 seconds. */
  lemma WindowsRepeatEachCycle(g: GameInstance, now: int64, later: int64)
    requires 0 <= now as int - g.startTime as int
    requires later as int == now as int + CycleLength
    requires later as int - g.startTime as int <= INT64_MAX
    ensures GetPermitted(g, later) == GetPermitted(g, now)
    ensures PostPermitted(g, later) == PostPermitted(g, now)
  {
    var d := now as int - g.startTime as int;
    assert Sub64(later, g.startTime) as int == d + CycleLength;
    assert Sub64(now, g.startTime) as int == d;
    assert (d + CycleLength) % CycleLength == d % CycleLength;
  }

  /**
   * Before the start the truncated remainder is never positive, so only writes are
   * permitted; a Euclidean remainder would have opened reads 10 seconds early.
   */
  lemma BeforeStartOnlyWrites(g: GameInstance, now: int64)
    requires INT64_MIN <= now as int - g.startTime as int < 0
    ensures PostPermitted(g, now) && !GetPermitted(g, now)
    ensures now as int - g.startTime as int >= -10 ==>
      (now as int - g.startTime as int) % CycleLength >= ReadWindowStart
  {
  }

  /** In the first cycle after the start, writes are open for 30 seconds, then reads for 10. */
  lemma WindowInFirstCycle(g: GameInstance, now: int64)
    requires 0 <= now as int - g.startTime as int < CycleLength
    ensures PostPermitted(g, now) <==> now as int - g.startTime as int < ReadWindowStart
    ensures GetPermitted(g, now) <==> now as int - g.startTime as int >= ReadWindowStart
  {
  }

  /** Two sample instants: elapsed 15 allows only a post, elapsed 35 only a read. */
  lemma WindowExamples(g: GameInstance, at15: int64, at35: int64)
    requires at15 as int == g.startTime as int + 15
    requires at35 as int == g.startTime as int + 35
    ensures PostPermitted(g, at15) && !GetPermitted(g, at15)
    ensures GetPermitted(g, at35) && !PostPermitted(g, at35)
  {
  }

  // -------------------------------------------------------------- hydration

  /** The record hydration gives every member of the room. */
  function FreshPlayer(userId: string): (p: Player)
    ensures p.userID == userId
    ensures ToInfo(p) == PlayerInfo(userId, 100, [], "zhanshi", 0, 0, "StartAction", 0)
  {
    Player(userId, DefaultHealth, [], DefaultProfession, 0, 0, DefaultAction, PlayerAlive)
  }

  /** The placeholder CreateGameWithInstance stores before it asks the room broker. */
  function Placeholder(roomId: string): (g: GameInstance)
    ensures g.state == Loading && g.roomID == roomId && g.startTime == 0
    ensures g.playerlist.None? && Roster(g) == map[] && Keyed(g)
  {
    GameInstance(None, Loading, roomId, 0)
  }

  /** The session built from the broker's member list at time `now`. */
  function HydratedInstance(roomId: string, users: seq<string>, now: int64): (g: GameInstance)
    ensures g.state == Playing && g.roomID == roomId && g.startTime == now && g.playerlist.Some?
    ensures Roster(g).Keys == set u | u in users
    ensures |Roster(g)| == |set u | u in users|
    ensures forall u :: u in Roster(g) ==> Roster(g)[u] == FreshPlayer(u)
    ensures Keyed(g)
  {
    GameInstance(Some(map u | u in users :: FreshPlayer(u)), Playing, roomId, now)
  }

  // ------------------------------------------------------------ transitions

  /** Go's `m[k]` on the session table: the stored instance or the zero instance. */
  function LookupInstance(m: map<string, GameInstance>, gid: string): (g: GameInstance)
    ensures gid in m ==> g == m[gid]
    ensures gid !in m ==> g.playerlist.None? && g.state == Loading && g.startTime == 0 && g.roomID == ""
  {
    if gid in m then m[gid] else ZeroInstance
  }

  /** Every roster of the table is keyed by its players' UserIDs. */
  predicate AllKeyed(m: map<string, GameInstance>) {
    forall gid :: gid in m ==> Keyed(m[gid])
  }

  /**
   * CreateGameWithInstance, with the broker's answer injected as `fetched` (None when
   * the call fails or the room is unknown). One-shot per ID; a failed fetch leaves the
   * placeholder in the table; a successful one replaces it by the hydrated session.
   */
  function CreateGameOp(m: map<string, GameInstance>, gid: string, roomId: string,
                        fetched: Option<seq<string>>, now: int64)
    : (r: (map<string, GameInstance>, CreateGameWithInstanceResponse))
    ensures r.1.ret <==> gid !in m && fetched.Some?
    ensures gid in m ==> r == (m, CreateGameWithInstanceResponse(false, MsgAlreadyCreated))
    ensures gid !in m ==>
      && r.0.Keys == m.Keys + {gid}
      && (forall k :: k in m ==> r.0[k] == m[k])
    ensures gid !in m && fetched.None? ==>
      r.0[gid] == Placeholder(roomId) && r.1 == CreateGameWithInstanceResponse(false, MsgFetchFailed)
    ensures gid !in m && fetched.Some? ==>
      r.0[gid] == HydratedInstance(roomId, fetched.value, now) && r.1 == CreateGameWithInstanceResponse(true, MsgSuccess)
  {
    if gid in m then
      (m, CreateGameWithInstanceResponse(false, MsgAlreadyCreated))
    else
      var withPlaceholder := m[gid := Placeholder(roomId)];
      match fetched
      case None => (withPlaceholder, CreateGameWithInstanceResponse(false, MsgFetchFailed))
      case Some(users) =>
        (withPlaceholder[gid := HydratedInstance(roomId, users, now)],
         CreateGameWithInstanceResponse(true, MsgSuccess))
  }

  /** PostGameState panics on a nil roster inside the write window; that is excluded. */
  predicate PostIsSafe(m: map<string, GameInstance>, gid: string, now: int64) {
    PostPermitted(LookupInstance(m, gid), now) ==> LookupInstance(m, gid).playerlist.Some?
  }

  /**
   * PostGameState. Inside the write window it replaces the whole record stored under
   * the posted userid (item list included), touching no other player and no other
   * session. It never sets Ret, so it answers Ret = false in both outcomes.
   */
  function PostOp(m: map<string, GameInstance>, gid: string, info: PlayerInfo, now: int64)
    : (r: (map<string, GameInstance>, PostGameStateResponse))
    requires PostIsSafe(m, gid, now)
    ensures !r.1.ret
    ensures !PostPermitted(LookupInstance(m, gid), now) ==>
      r == (m, PostGameStateResponse(false, MsgPostForbidden))
    ensures PostPermitted(LookupInstance(m, gid), now) ==>
      && gid in m
      && r.1.message == ""
      && r.0.Keys == m.Keys
      && (forall k :: k in m && k != gid ==> r.0[k] == m[k])
      && r.0[gid].(playerlist := None) == m[gid].(playerlist := None)
      && r.0[gid].playerlist.Some?
      && Roster(r.0[gid]).Keys == Roster(m[gid]).Keys + {info.userid}
      && Roster(r.0[gid])[info.userid] == FromInfo(info)
      && (forall u :: u in Roster(m[gid]) && u != info.userid ==> Roster(r.0[gid])[u] == Roster(m[gid])[u])
  {
    var g := LookupInstance(m, gid);
    if !PostPermitted(g, now) then
      (m, PostGameStateResponse(false, MsgPostForbidden))
    else
      var roster := g.playerlist.value[info.userid := FromInfo(info)];
      (m[gid := g.(playerlist := Some(roster))], PostGameStateResponse(false, ""))
  }

  /**
   * `infos` is what GetGameState reports for `roster`: one PlayerInfo per roster entry,
   * each a copy of the stored record, in some order.
   */
  predicate ListsRoster(infos: seq<PlayerInfo>, roster: map<string, Player>) {
    && |infos| == |roster|
    && (forall i :: 0 <= i < |infos| ==> infos[i].userid in roster && infos[i] == ToInfo(roster[infos[i].userid]))
    && (forall i, j :: 0 <= i < j < |infos| ==> infos[i].userid != infos[j].userid)
    && (forall k :: k in roster ==> exists i :: 0 <= i < |infos| && infos[i].userid == k)
  }

  // ---------------------------------------------------- properties of them

  /** Both transitions keep every roster keyed by its players' UserIDs. */
  lemma TransitionsKeepRostersKeyed(m: map<string, GameInstance>, gid: string, roomId: string,
                                    fetched: Option<seq<string>>, info: PlayerInfo, now: int64)
    requires AllKeyed(m)
    ensures AllKeyed(CreateGameOp(m, gid, roomId, fetched, now).0)
    ensures PostIsSafe(m, gid, now) ==> AllKeyed(PostOp(m, gid, info, now).0)
  {
    var c := CreateGameOp(m, gid, roomId, fetched, now).0;
    forall k | k in c ensures Keyed(c[k]) {
      if k != gid || gid in m {
        assert c[k] == m[k];
      }
    }
    if PostIsSafe(m, gid, now) && PostPermitted(LookupInstance(m, gid), now) {
      var p := PostOp(m, gid, info, now).0;
      forall k | k in p ensures Keyed(p[k]) {
        if k != gid {
          assert p[k] == m[k];
        } else {
          forall u | u in Roster(p[gid]) ensures Roster(p[gid])[u].userID == u {
            if u != info.userid {
              assert Roster(p[gid])[u] == Roster(m[gid])[u];
            }
          }
        }
      }
    }
  }

  /** A second CreateGameWithInstance for the same ID changes nothing and is refused. */
  lemma CreateIsOneShot(m: map<string, GameInstance>, gid: string, roomId: string, roomId2: string,
                        fetched: Option<seq<string>>, fetched2: Option<seq<string>>, now: int64, now2: int64)
    ensures var m1 := CreateGameOp(m, gid, roomId, fetched, now).0;
      CreateGameOp(m1, gid, roomId2, fetched2, now2) == (m1, CreateGameWithInstanceResponse(false, MsgAlreadyCreated))
  {
  }

  /**
   * A posted record is read back unchanged: whatever listing GetGameState gives of the
   * updated roster contains exactly the posted PlayerInfo. Posting an empty item list
   * therefore clears the player's items.
   */
  lemma PostThenGetReturnsPosted(m: map<string, GameInstance>, gid: string, info: PlayerInfo, now: int64,
                                 infos: seq<PlayerInfo>)
    requires PostIsSafe(m, gid, now) && PostPermitted(LookupInstance(m, gid), now)
    requires ListsRoster(infos, Roster(PostOp(m, gid, info, now).0[gid]))
    ensures info in infos
    ensures forall i :: 0 <= i < |infos| && infos[i].userid == info.userid ==> infos[i] == info
  {
    var roster := Roster(PostOp(m, gid, info, now).0[gid]);
    InfoRoundTrip(info, roster[info.userid]);
    var i :| 0 <= i < |infos| && infos[i].userid == info.userid;
    assert infos[i] == info;
  }

  // ------------------------------------------------------------- the server

  /** SubGameServer: the session table. */
  class SubGameServer {
    var gameInstanceMap: map<string, GameInstance>

    ghost predicate Valid()
      reads this
    {
      AllKeyed(gameInstanceMap)
    }

    /** The server as InitServer leaves it: an empty table. */
    constructor ()
      ensures Valid() && gameInstanceMap == map[]
    {
      gameInstanceMap := map[];
    }

    method CreateGameWithInstance(gid: string, roomId: string, fetched: Option<seq<string>>, now: int64)
      returns (resp: CreateGameWithInstanceResponse)
      requires Valid()
      modifies this
      ensures Valid()
      ensures (gameInstanceMap, resp) == CreateGameOp(old(gameInstanceMap), gid, roomId, fetched, now)
    {
      if gid in gameInstanceMap {
        resp := CreateGameWithInstanceResponse(false, MsgAlreadyCreated);
        return;
      }
      gameInstanceMap := gameInstanceMap[gid := Placeholder(roomId)];
      var gameinfo := GetGameInfoFromMainServer(roomId, fetched, now);
      if gameinfo.None? {
        resp := CreateGameWithInstanceResponse(false, MsgFetchFailed);
        return;
      }
      gameInstanceMap := gameInstanceMap[gid := gameinfo.value];
      resp := CreateGameWithInstanceResponse(true, MsgSuccess);
    }

    /**
     * The roster-building part of GetGameInfoFromMainServer: one Player with the default
     * record per user ID of the broker's list (a repeated ID overwrites its own entry).
     */
    method GetGameInfoFromMainServer(roomId: string, fetched: Option<seq<string>>, now: int64)
      returns (gameinfo: Option<GameInstance>)
      ensures fetched.None? ==> gameinfo == None
      ensures fetched.Some? ==> gameinfo == Some(HydratedInstance(roomId, fetched.value, now))
    {
      if fetched.None? {
        return None;
      }
      var users := fetched.value;
      var playerlist: map<string, Player> := map[];
      for i := 0 to |users|
        invariant playerlist == map u | u in users[..i] :: FreshPlayer(u)
      {
        assert users[..i + 1] == users[..i] + [users[i]];
        playerlist := playerlist[users[i] := FreshPlayer(users[i])];
      }
      assert users[..|users|] == users;
      gameinfo := Some(GameInstance(Some(playerlist), Playing, roomId, now));
    }

    /**
     * GetGameState: read-only. Outside the read window it refuses; inside it answers
     * with the session state and one PlayerInfo per roster entry. An unknown ID reads
     * as the zero instance: Loading, with no players.
     */
    method GetGameState(gid: string, now: int64) returns (resp: GetGameStateResponse)
      requires Valid()
      ensures var g := LookupInstance(gameInstanceMap, gid);
        && (!GetPermitted(g, now) ==> resp == GetGameStateResponse(false, MsgGetForbidden, 0, []))
        && (GetPermitted(g, now) ==>
              && resp.ret && resp.message == ""
              && resp.gamestate == ConvertGameState2Protocol(g.state)
              && ListsRoster(resp.playerlist, Roster(g)))
    {
      var g := LookupInstance(gameInstanceMap, gid);
      if Elapsed(g, now) < ReadWindowStart {
        resp := GetGameStateResponse(false, MsgGetForbidden, 0, []);
        return;
      }
      var roster := Roster(g);
      assert Keyed(g);
      var infos: seq<PlayerInfo> := [];
      var pending := roster.Keys;
      while pending != {}
        invariant pending <= roster.Keys
        invariant |infos| + |pending| == |roster.Keys|
        invariant forall i :: 0 <= i < |infos| ==>
          infos[i].userid in roster && infos[i].userid !in pending && infos[i] == ToInfo(roster[infos[i].userid])
        invariant forall i, j :: 0 <= i < j < |infos| ==> infos[i].userid != infos[j].userid
        invariant forall k :: k in roster && k !in pending ==> exists i :: 0 <= i < |infos| && infos[i].userid == k
        decreases pending
      {
        var k :| k in pending;
        ghost var before := infos;
        infos := infos + [ToInfo(roster[k])];
        forall x | x in roster && x !in pending - {k}
          ensures exists i :: 0 <= i < |infos| && infos[i].userid == x
        {
          if x == k {
            assert infos[|before|].userid == x;
          } else {
            var i :| 0 <= i < |before| && before[i].userid == x;
            assert infos[i].userid == x;
          }
        }
        pending := pending - {k};
      }
      resp := GetGameStateResponse(true, "", ConvertGameState2Protocol(g.state), infos);
    }

    /** PostGameState; the roster is written in place, so the table entry changes with it. */
    method PostGameState(gid: string, info: PlayerInfo, now: int64) returns (resp: PostGameStateResponse)
      requires Valid() && PostIsSafe(gameInstanceMap, gid, now)
      modifies this
      ensures Valid()
      ensures (gameInstanceMap, resp) == PostOp(old(gameInstanceMap), gid, info, now)
    {
      TransitionsKeepRostersKeyed(gameInstanceMap, gid, "", None, info, now);
      var g := LookupInstance(gameInstanceMap, gid);
      if Elapsed(g, now) >= ReadWindowStart {
        resp := PostGameStateResponse(false, MsgPostForbidden);
        return;
      }
      var roster := g.playerlist.value[info.userid := FromInfo(info)];
      gameInstanceMap := gameInstanceMap[gid := g.(playerlist := Some(roster))];
      resp := PostGameStateResponse(false, "");
    }
  }
}
