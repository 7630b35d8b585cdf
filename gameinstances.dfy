/** A live game session (subgameserver/GameInstance.go). */
module GameInstances {
  import opened GoInts
  import opened Wrappers
  import opened Players

  /** GameState: Game_Loading = 0, Game_Playing = 1. */
  datatype GameState = Loading | Playing {

    function Value(): int32 {
      match this
      case Loading => 0
      case Playing => 1
    }
  }

  /**
   * A session: its roster keyed by user ID (None is Go's nil map), its state, the
   * room it came from and its start time in Unix seconds.
   */
  datatype GameInstance = GameInstance(
    playerlist: Option<map<string, Player>>,
    state: GameState,
    roomID: string,
    startTime: int64)

  /** The zero GameInstance, which indexing the session table with an absent key yields. */
  const ZeroInstance: GameInstance := GameInstance(None, Loading, "", 0)

  /** The roster as a reader sees it: a nil map reads as empty. */
  function Roster(g: GameInstance): map<string, Player> {
    g.playerlist.GetOr(map[])
  }

  /** Every roster key is the UserID of the player stored under it. */
  predicate Keyed(g: GameInstance) {
    forall k :: k in Roster(g) ==> Roster(g)[k].userID == k
  }

  lemma GameStateValues(s: GameState, t: GameState)
    ensures 0 <= s.Value() <= 1
    ensures s.Value() == t.Value() <==> s == t
    ensures s.Value() == 0 <==> s == Loading
  {
  }

  /** The zero instance is Loading, started at 0, with a nil roster. */
  lemma ZeroInstanceShape()
    ensures ZeroInstance.state.Value() == 0 && ZeroInstance.startTime == 0
    ensures ZeroInstance.playerlist.None? && Roster(ZeroInstance) == map[] && Keyed(ZeroInstance)
  {
  }
}
