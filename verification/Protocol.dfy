/** The packets FriendViewer peers exchange, seen after protobuf parsing. */
module Protocol {

  newtype byte = x: int | 0 <= x < 256

  datatype Option<+T> = None | Some(value: T)

  type Name = string

  /** A Netty channel, named by a number; what was written to it is kept in an outbox. */
  type Chan = nat

  datatype Params = Params(width: int, height: int, ppsSps: seq<byte>, rateNum: int, rateDen: int)

  datatype Verdict = Success | NameTaken | UserNotFound | SessionStarting | UserAlreadyInSession

  /** An FvPacket together with its parsed inner packet. */
  datatype Packet =
    | Unspecified
    | Handshake(magic: int)
    | ServerMessage(verdict: Verdict, success: bool)
    | NewUser(username: Name)
    | UserList(users: set<Name>)
    | SessionRequest(name: Name)
    | SessionClose(reason: Option<string>)
    | Heartbeat(utcTime: int)
    | VideoParams(params: Params)
    | Data(pts: int, dts: int, frame: seq<byte>)
    | ControlInput(input: seq<byte>)

  const TWO_64: int := 0x1_0000_0000_0000_0000

  /** The number a daemon opens with, and the server's answer as the signed 64-bit value the field holds. */
  const CLIENT_MAGIC: int := 0x12341234ABCDABCD
  const SERVER_MAGIC: int := 0xABCDABCABA123456 - TWO_64
}
