/** Rooms and the process-wide room-index counter (mainserver/room.go). */
module Rooms {
  import opened GoInts
  import Users

  /** RoomState: Waiting = 0, Loading = 1, InGame = 2. */
  datatype RoomState = Waiting | Loading | InGame {

    function Value(): int32 {
      match this
      case Waiting => 0
      case Loading => 1
      case InGame => 2
    }
  }

  /** A lobby. Go's `int` fields are 64 bits wide on the platforms the servers target. */
  datatype Room = Room(
    roomState: RoomState,
    id: string,
    mapID: string,
    capacity: int64,
    ownerID: string,
    userState: map<string, Users.UserState>,
    gameServerIP: string,
    gameServerPort: int64,
    gameInstance: string)

  /**
   * The zero Room, which is what indexing the room table with an absent key yields.
   * Its nil member map reads as empty.
   */
  const ZeroRoom: Room := Room(Waiting, "", "", 0, "", map[], "", 0, "")

  lemma RoomStateValues(s: RoomState, t: RoomState)
    ensures 0 <= s.Value() <= 2
    ensures s.Value() == t.Value() <==> s == t
    ensures s.Value() == 0 <==> s == Waiting
  {
  }

  /** The package-level counter RoomIndexGenerater with its two operations. */
  class RoomIndexGenerator {
    var index: int

    /** A package variable starts at Go's zero value. */
    constructor ()
      ensures index == 0
    {
      index := 0;
    }

    /** GenerateRoomIndex: increment, then return the new value. */
    method Generate() returns (r: int)
      modifies this
      ensures index == old(index) + 1
      ensures r == index
    {
      index := index + 1;
      r := index;
    }

    /** ClearRoomIndex: back to zero, so that the next Generate returns 1. */
    method Clear()
      modifies this
      ensures index == 0
    {
      index := 0;
    }
  }
}
