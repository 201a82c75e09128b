/** Value types of the RFB client core (RFC 6143): wire integers, errors,
    server-to-client messages and the abstract input stream. */
module VncTypes {

  /** The Go `uint8` and `uint16` of the wire format. */
  type uint8 = x: int | 0 <= x < 0x100
  type uint16 = x: int | 0 <= x < 0x1_0000

  datatype Option<+T> = None | Some(value: T)

  /** An error value carrying its message text (what NewVNCError builds). */
  datatype VncError = VncError(message: string)

  /** The kinds of server-to-client message: the four of section 7.6 of
      RFC 6143, and any further message type a caller registers. */
  datatype MessageKind =
    | FramebufferUpdate
    | SetColorMapEntries
    | Bell
    | ServerCutText
    | Extension(code: uint8, name: string)

  /** A server message. The entries of a configuration are empty prototypes;
      a decoder returns a message of the same shape with its payload filled. */
  datatype ServerMessage = ServerMessage(kind: MessageKind, payload: seq<uint8>)
  {
    /** The message-type byte that introduces this message on the wire
        (section 7.6 of RFC 6143 numbers the four standard ones 0 to 3). */
    function Type(): uint8
    {
      match kind
      case FramebufferUpdate => 0
      case SetColorMapEntries => 1
      case Bell => 2
      case ServerCutText => 3
      case Extension(code, _) => code
    }
  }

  /** A message decoder (`ServerMessage.Read`): given the registered
      prototype and the bytes that follow the type byte, the decoded
      message, or None when decoding fails. */
  type MessageReader = (ServerMessage, seq<uint8>) -> Option<ServerMessage>

  /** What one read of the message-type byte meets on the connection:
      a message (its type byte and the bytes its decoder consumes), or an
      I/O error. The end of the input is a read failure too. */
  datatype Event =
    | Frame(msgType: uint8, body: seq<uint8>)
    | ReadError
}
