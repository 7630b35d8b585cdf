/** A player of a live session (subgameserver/player.go). */
module Players {
  import opened GoInts

  /**
   * playerState: an int32 type with two named constants. It is a newtype, not a
   * two-valued datatype, because the session host casts any wire integer into it.
   */
  newtype PlayerState = int32

  const PlayerAlive: PlayerState := 0
  const PlayerDead: PlayerState := 1

  /** One player's record; Go's `int` fields are 64 bits wide. */
  datatype Player = Player(
    userID: string,
    health: int64,
    itemsid: seq<string>,
    professionid: string,
    positionX: int64,
    positionY: int64,
    action: string,
    playerState: PlayerState)

  /** The two constants are distinct, and Alive is the zero value. */
  lemma PlayerStateConstants()
    ensures PlayerAlive != PlayerDead
    ensures PlayerAlive as int == 0 && PlayerDead as int == 1
  {
  }
}
