/** What three rings hold for a host: what happened, what to write, and what the wire carried. */
module Events {
  import opened Bytes
  import opened Message

  const WORD: nat := 0x1_0000_0000

  /** The next value of an unsigned 32-bit counter. */
  function Inc32(n: nat): nat {
    (n + 1) % WORD
  }

  const TIME_UNKNOWN: int := -0x8000_0000_0000_0000
  const TIME_NEVER: int := 0x7fff_ffff_ffff_ffff
  const NO_SHOT: int := -0x8000_0000_0000_0000

  const CONN_NONE: nat := 0
  const CONN_ALL: nat := 0xffff_ffff

  const CHUNK_MAX: nat := 512
  const SNIPPET_MAX: nat := 32
  const META_MAX: nat := 255

  datatype Info = Info(
    conn: nat,
    identified: bool,
    ready: bool,
    ballDetected: bool,
    openedUs: int,
    lastMessageUs: int,
    messages: nat,
    shots: nat,
    protocolErrors: nat,
    consecutiveErrors: nat,
    lastShot: int,
    peer: seq<Byte>,
    deviceId: seq<Byte>)

  const NO_INFO: Info := Info(0, false, false, false, 0, 0, 0, 0, 0, 0, 0, [], [])

  datatype CloseCause = CauseUnknown | RemoteClosed | LocalRequest | TransportError | ServerClosed

  datatype ErrorReason = LeadingGarbage | BadJson | TooLarge

  datatype WarningCode = EventsDropped | WireDropped | WriteRingFull | DeviceIdChanged

  datatype PlayerReason = Changed | OnConnect | Explicit

  datatype Session = SessionNone | SessionActive | SessionEnded

  datatype Failure = Failure(reason: ErrorReason, discarded: nat, consecutive: nat, snippet: seq<Byte>)

  /** `Heard` stands for the three message events; which of them it is, its message's kind tells. */
  datatype Body =
    | ConnectionOpened(info: Info)
    | ConnectionClosed(info: Info, cause: CloseCause)
    | Identified(info: Info)
    | ClientState(ready: bool, ballDetected: bool, previousReady: bool, previousBallDetected: bool)
    | ClientIdle
    | ClientActive
    | Heard(message: Message, number: nat)
    | ProtocolError(failure: Failure)
    | CloseRequested(failure: Failure)
    | PlayerSent(player: PlayerInfo, why: PlayerReason)
    | SessionSent(state: Session, why: PlayerReason)
    | Warning(code: WarningCode, value: nat)

  datatype Event = Event(sequence: nat, conn: nat, at: int, body: Body)

  datatype WriteKind = Ack | Failed | Player | Ready | RoundEnded

  datatype Write = Write(conn: nat, kind: WriteKind, data: seq<Byte>)

  datatype Direction = ClientToServer | ServerToClient | Meta

  datatype Chunk = Chunk(at: int, conn: nat, sequence: nat, direction: Direction,
                         redacted: bool, lost: bool, continues: bool, data: seq<Byte>)

  /** Whether an overflow has been complained about: not needed, owed, done. */
  datatype Warned = Quiet | Owed | Said

  function Warn(w: Warned): Warned {
    if w == Quiet then Owed else Said
  }
}
