/**
 * The wire messages exchanged by the two services, reduced to the fields the
 * servers read or write. Go gives every field of a freshly allocated response its
 * zero value ("" / 0 / false / nil), which is what the constructors below are
 * called with for fields a handler leaves unset.
 */
module Protocol {
  import opened GoInts

  /** protocol.PlyerState, an int32-valued protobuf enum. */
  newtype PlyerState = int32

  /** protocol.User: one room member as GetRoomState reports it. */
  datatype User = User(id: string, state: int32)

  datatype CreateRoomResponse = CreateRoomResponse(ret: bool, roomID: string)

  datatype JoinRoomResponse = JoinRoomResponse(ret: bool, message: string)

  datatype GetRoomStateResponse = GetRoomStateResponse(
    ret: bool,
    mapid: string,
    capacity: int64,
    gameInstanceID: string,
    gameserverIP: string,
    gameserverPort: int64,
    user: seq<User>)

  datatype StartGameResponse = StartGameResponse(
    ret: bool,
    message: string,
    gameinstanceID: string,
    gameserverIP: string,
    gameserverPort: int64)

  /** protocol.PlayerInfo: one player record as it travels in either direction. */
  datatype PlayerInfo = PlayerInfo(
    userid: string,
    health: int64,
    itemsid: seq<string>,
    professionid: string,
    positionX: int64,
    positionY: int64,
    action: string,
    playerState: PlyerState)

  datatype CreateGameWithInstanceResponse = CreateGameWithInstanceResponse(ret: bool, message: string)

  datatype GetGameStateResponse = GetGameStateResponse(
    ret: bool,
    message: string,
    gamestate: int32,
    playerlist: seq<PlayerInfo>)

  datatype PostGameStateResponse = PostGameStateResponse(ret: bool, message: string)
}
