/**
 * What the connections of a server share: its clock and configuration, the event log, the write
 * ring and the wire log.
 */
module Hub {
  import opened Bytes
  import opened Numbers
  import opened Message
  import opened Protocol
  import opened Encode
  import opened Redact
  import opened Events
  import opened Rings
  import opened EventLog
  import opened WireLog

  /** The C library's numbers, and the event formatter, which the wire log's lines come from. */
  datatype World = World(lib: NumLib, describe: (Event, bool) -> seq<Byte>)

  datatype Policy = Policy(
    idleAlarm: int,
    closeThreshold: nat,
    writeSpacing: int,
    rejectIncomplete: bool,
    announcePlayer: bool,
    announceReady: bool,
    recordIdentifiers: bool,
    ackText: seq<Byte>)

  datatype Config = Config(maxConnections: nat, eventRing: nat, writeRing: nat, wireRing: nat, maxMessage: nat,
                           policy: Policy)

  /** The size of the C field that `ackText` stands for, its terminator included. */
  const ACK_TEXT_MAX: nat := 64

  /** The smallest bound on a message that a server accepts. */
  const LEAST_MESSAGE: nat := 256

  /** History: a write queued when `seen` events had been emitted, a write polled, a connection closed. */
  datatype Step = Queued(write: Write, seen: nat) | Polled(write: Write, at: int) | Left(conn: nat)

  datatype Env = Env(
    cfg: Config,
    now: int,
    log: Log,
    writes: seq<Write>,
    wire: Wire,
    player: PlayerInfo,
    playerSet: bool,
    session: Session,
    closed: bool,
    number: nat,
    trace: seq<Step>)

  function Say(e: Env, conn: nat, at: int, body: Body): Env {
    e.(log := Emit(e.log, conn, at, body, e.now))
  }

  // --------------------------------------------------------------------------------------
  // The wire log
  // --------------------------------------------------------------------------------------

  /** A run of bytes in chunks of at most 512; an empty run is one empty chunk. */
  function ChunksOf(conn: nat, direction: Direction, cells: seq<Cell>, at: int, withheld: bool): seq<Chunk>
    decreases |cells|
  {
    var n := Least(|cells|, CHUNK_MAX);
    var c := Chunk(at, conn, 0, direction, withheld || AnyHidden(cells[..n]), false, n < |cells|, CellBytes(cells[..n]));
    if n < |cells| then [c] + ChunksOf(conn, direction, cells[n..], at, withheld) else [c]
  }

  /** One chunk into the ring, and once per overflow run a warning. */
  function WireOne(e: Env, chunk: Chunk): Env {
    var e1 := e.(wire := Push(e.wire, chunk));
    if e1.wire.warned == Owed then
      Say(e1.(wire := e1.wire.(warned := Said)), CONN_NONE, e1.now, Warning(WireDropped, e1.wire.dropped))
    else e1
  }

  function WireAll(e: Env, chunks: seq<Chunk>): Env
    decreases |chunks|
  {
    if chunks == [] then e else WireAll(WireOne(e, chunks[0]), chunks[1..])
  }

  function WireBytes(e: Env, conn: nat, direction: Direction, cells: seq<Cell>, at: int, withheld: bool): Env {
    if e.cfg.wireRing == 0 then e else WireAll(e, ChunksOf(conn, direction, cells, at, withheld))
  }

  /** What came in from a client, taken down as policy says: device ids masked, or every byte as it was. */
  function WireClient(e: Env, conn: nat, data: seq<Byte>, at: int): Env {
    if data == [] then e
    else WireBytes(e, conn, ClientToServer, if e.cfg.policy.recordIdentifiers then Clear(data) else Paint(data), at, false)
  }

  function Upto(s: seq<Byte>, max: nat): (r: seq<Byte>)
    ensures |r| <= max && r <= s
  {
    if |s| <= max then s else s[..max]
  }

  /** An event about a connection; its opening and its closing are also lines of the wire log. */
  function SayConnection(w: World, e: Env, conn: nat, body: Body, at: int): Env {
    var e1 := Say(e, conn, at, body);
    if body.ConnectionOpened? || body.ConnectionClosed? then
      var line := Upto(w.describe(Event(e.log.sequence, conn, at, body), e.cfg.policy.recordIdentifiers), META_MAX);
      WireBytes(e1, conn, Meta, Clear(line), at, !e.cfg.policy.recordIdentifiers)
    else e1
  }

  // --------------------------------------------------------------------------------------
  // The write ring
  // --------------------------------------------------------------------------------------

  predicate WritesFull(e: Env) {
    |e.writes| >= e.cfg.writeRing
  }

  /** Refused when the ring is full or the response does not fit a request. */
  predicate Queues(w: World, e: Env, code: int, text: seq<Byte>, player: Option<PlayerInfo>) {
    !WritesFull(e) && EncodeStatus(w.lib, code, Some(text), player, WRITE_MAX) == Ok
  }

  function QueueWrite(w: World, e: Env, conn: nat, kind: WriteKind, code: int, text: seq<Byte>,
                      player: Option<PlayerInfo>): Env
  {
    if Queues(w, e, code, text, player) then
      var x := Write(conn, kind, ResponseText(w.lib, code, Some(text), player));
      e.(writes := e.writes + [x], trace := e.trace + [Queued(x, |e.log.emitted|)])
    else e
  }

  /** Writes that are not addressed to `conn`. */
  function NotFor(conn: nat): Write -> bool {
    (x: Write) => x.conn != conn
  }

  function DropWritesFor(e: Env, conn: nat): Env {
    e.(writes := Kept(e.writes, NotFor(conn)), trace := e.trace + [Left(conn)])
  }

  function SendPlayer(w: World, e: Env, conn: nat, p: PlayerInfo, why: PlayerReason, at: int): Env {
    if Queues(w, e, CODE_PLAYER_INFO, TEXT_PLAYER_INFO, Some(p)) then
      Say(QueueWrite(w, e, conn, Player, CODE_PLAYER_INFO, TEXT_PLAYER_INFO, Some(p)), conn, at, PlayerSent(p, why))
    else e
  }

  function SendSession(w: World, e: Env, conn: nat, state: Session, why: PlayerReason, at: int): Env {
    match state
    case SessionNone => e
    case SessionActive =>
      if Queues(w, e, CODE_READY, TEXT_READY, None) then
        Say(QueueWrite(w, e, conn, Ready, CODE_READY, TEXT_READY, None), conn, at, SessionSent(state, why))
      else e
    case SessionEnded =>
      if Queues(w, e, CODE_ROUND_ENDED, TEXT_ROUND_ENDED, None) then
        Say(QueueWrite(w, e, conn, RoundEnded, CODE_ROUND_ENDED, TEXT_ROUND_ENDED, None), conn, at, SessionSent(state, why))
      else e
  }
}
