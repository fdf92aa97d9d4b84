/** The server's shared state in place: its rings and counters, and what is done to them. */
module Core {
  import opened Bytes
  import opened Numbers
  import opened Message
  import opened Protocol
  import opened Encode
  import opened Redact
  import opened Events
  import opened Rings
  import opened EventLog
  import opened WireLog
  import opened Hub

  class Core {
    const cfg: Config
    const log: EventRing
    const writes: Ring<Write>
    const wire: WireRing?
    var now: int
    var player: PlayerInfo
    var playerSet: bool
    var session: Session
    var closed: bool
    var number: nat
    ghost var trace: seq<Step>

    ghost function Parts(): set<object> {
      {this, log, log.ring, log.ring.slots, writes, writes.slots}
      + if wire == null then {} else {wire, wire.ring, wire.ring.slots}
    }

    ghost predicate Valid()
      reads Parts()
    {
      && log.Valid() && writes.Valid() && writes.slots.Length == cfg.writeRing
      && (wire == null <==> cfg.wireRing == 0)
      && (wire != null ==> wire.Valid())
    }

    ghost function Abs(): Env
      requires Valid()
      reads Parts()
    {
      Env(cfg, now, log.Abs(), writes.View(), if wire == null then NewWire(0) else wire.Abs(), player, playerSet, session,
          closed, number, trace)
    }

    constructor (cfg: Config)
      requires cfg.eventRing > 0 && cfg.writeRing > 0
      ensures Valid() && fresh(Parts()) && this.cfg == cfg
      ensures Abs() == Env(cfg, 0, NewLog(cfg.eventRing), [], NewWire(cfg.wireRing), NO_PLAYER, false, SessionNone, false, 0, [])
    {
      this.cfg := cfg;
      log := new EventRing(cfg.eventRing);
      writes := new Ring(cfg.writeRing);
      var w: WireRing? := null;
      if cfg.wireRing > 0 {
        w := new WireRing(cfg.wireRing);
      }
      wire := w;
      now, player, playerSet, session, closed, number := 0, NO_PLAYER, false, SessionNone, false, 0;
      trace := [];
    }

    method SayIn(conn: nat, at: int, body: Body)
      requires Valid()
      modifies Parts()
      ensures Valid() && Abs() == Say(old(Abs()), conn, at, body)
    {
      hide Emit;
      log.EmitIn(conn, at, body, now);
    }

    // ------------------------------------------------------------------------------------
    // The wire log
    // ------------------------------------------------------------------------------------

    method WireOneIn(chunk: Chunk)
      requires Valid() && wire != null
      modifies Parts()
      ensures Valid() && Abs() == WireOne(old(Abs()), chunk)
    {
      hide Push, Emit;
      wire.PushIn(chunk);
      if wire.warned == Owed {
        wire.warned := Said;
        SayIn(CONN_NONE, now, Warning(WireDropped, wire.dropped));
      }
    }

    method WireBytesIn(conn: nat, direction: Direction, data: seq<Byte>, redact: bool, at: int, withheld: bool)
      requires Valid()
      modifies Parts()
      ensures Valid()
      ensures Abs() == WireBytes(old(Abs()), conn, direction, CellsOf(data, redact), at, withheld)
    {
      hide WireAll, ChunksOf, CellsOf;
      if wire != null {
        WireRun(conn, direction, data, redact, at, withheld);
      }
    }

    /** Cuts `data` into chunks and masks each, the redactor being carried from one to the next. */
    method WireRun(conn: nat, direction: Direction, data: seq<Byte>, redact: bool, at: int, withheld: bool)
      requires Valid() && wire != null
      modifies Parts()
      ensures Valid()
      ensures Abs() == WireAll(old(Abs()), ChunksOf(conn, direction, CellsOf(data, redact), at, withheld))
    {
      hide WireOne, WireAll, ChunksOf, CellsOf, FirstChunk, Abs, Valid, Remaining, Paint;
      SizeOf(data, redact);
      ghost var cells := CellsOf(data, redact);
      ghost var goal := WireAll(Abs(), ChunksOf(conn, direction, cells, at, withheld));
      var r := new Redactor(data);
      var off: nat := 0;
      WireAllStart(Abs(), conn, direction, cells, at, withheld);
      var more := true;
      while more
        invariant Valid() && fresh(r) && r.buf == data
        invariant off <= |data| && (redact ==> r.Ready(off))
        invariant Remaining(Abs(), conn, direction, cells, if more then Some(off) else None, at, withheld) == goal
        decreases more, |data| - off
      {
        WireAllStep(Abs(), conn, direction, cells, off, at, withheld);
        off := WirePiece(r, conn, direction, off, redact, at, withheld);
        more := off < |data|;
      }
      WireAllStop(Abs(), conn, direction, cells, at, withheld);
    }

    /** Puts the chunk at `off` into the ring. */
    method WirePiece(r: Redactor, conn: nat, direction: Direction, off: nat, redact: bool, at: int, withheld: bool)
      returns (upTo: nat)
      requires Valid() && wire != null && r !in Parts() && off <= |r.buf| && (redact ==> r.Ready(off))
      modifies Parts(), r
      ensures Valid() && upTo == off + Least(|r.buf| - off, CHUNK_MAX) && (redact ==> r.Ready(upTo))
      ensures Abs() == WireOne(old(Abs()), FirstChunk(conn, direction, CellsOf(r.buf, redact)[off..], at, withheld))
    {
      hide WireOne, CellsOf, FirstChunk, Abs, Valid;
      var n := Least(|r.buf| - off, CHUNK_MAX);
      upTo := off + n;
      var chunk, any := Piece(r, r.buf, off, n, redact);
      PieceIsFirst(r.buf, redact, off, n, chunk, any, conn, direction, at, withheld);
      WireOneIn(Chunk(at, conn, 0, direction, withheld || any, false, upTo < |r.buf|, chunk));
    }

    /** One chunk's bytes, masked as they must be. */
    static method Piece(r: Redactor, data: seq<Byte>, off: nat, n: nat, redact: bool) returns (out: seq<Byte>, any: bool)
      requires off + n <= |data| && r.buf == data && (redact ==> r.Ready(off))
      modifies r
      ensures redact ==> r.Ready(off + n)
      ensures IsPiece(data, redact, off, n, out, any)
    {
      hide Paint, AnyHidden;
      var dst := new Byte[n](k requires 0 <= k < n => data[off + k]);
      assert dst[..n] == data[off..off + n];
      any := false;
      if redact {
        any := r.Apply(dst, off, n);
      }
      out := dst[..];
      assert out == dst[..n];
    }

    /** Bytes a client sent. */
    method WireClientIn(conn: nat, data: seq<Byte>, at: int)
      requires Valid()
      modifies Parts()
      ensures Valid() && Abs() == WireClient(old(Abs()), conn, data, at)
    {
      hide WireBytes, Paint;
      if data == [] {
        return;
      }
      WireBytesIn(conn, ClientToServer, data, !cfg.policy.recordIdentifiers, at, false);
    }

    method SayConnectionIn(w: World, conn: nat, body: Body, at: int)
      requires Valid()
      modifies Parts()
      ensures Valid() && Abs() == SayConnection(w, old(Abs()), conn, body, at)
    {
      hide WireBytes, Say, Paint;
      var ev := Event(log.sequence, conn, at, body);
      SayIn(conn, at, body);
      assert old(Abs()).log.sequence == old(log.sequence) && old(Abs()).cfg == cfg;
      if body.ConnectionOpened? || body.ConnectionClosed? {
        var line := Upto(w.describe(ev, cfg.policy.recordIdentifiers), META_MAX);
        WireBytesIn(conn, Meta, line, false, at, !cfg.policy.recordIdentifiers);
      }
    }

    // ------------------------------------------------------------------------------------
    // The write ring
    // ------------------------------------------------------------------------------------

    predicate WriteRingFull()
      requires Valid()
      reads Parts()
      ensures WriteRingFull() == WritesFull(Abs())
    {
      writes.count >= writes.slots.Length
    }

    /** The response's bytes, if they fit a request. */
    static method Encoded(w: World, code: int, text: seq<Byte>, player: Option<PlayerInfo>) returns (r: Option<seq<Byte>>)
      ensures r.Some? <==> EncodeStatus(w.lib, code, Some(text), player, WRITE_MAX) == Ok
      ensures r.Some? ==> r.value == ResponseText(w.lib, code, Some(text), player)
    {
      hide ResponseText;
      var data := new Byte[WRITE_MAX];
      var status, written := ResponseEncode(w.lib, code, Some(text), player, data);
      if status != Ok {
        return None;
      }
      assert data[..written] == ResponseText(w.lib, code, Some(text), player);
      return Some(data[..written]);
    }

    method QueueWriteIn(w: World, conn: nat, kind: WriteKind, code: int, text: seq<Byte>, player: Option<PlayerInfo>)
      returns (ok: bool)
      requires Valid()
      modifies Parts()
      ensures Valid() && Abs() == QueueWrite(w, old(Abs()), conn, kind, code, text, player)
      ensures ok == Queues(w, old(Abs()), code, text, player)
    {
      hide ResponseText, EncodeStatus;
      assert |writes.View()| == writes.count;
      if writes.count >= cfg.writeRing {
        return false;
      }
      var data := Encoded(w, code, text, player);
      if data == None {
        return false;
      }
      var x := Write(conn, kind, data.value);
      trace := trace + [Queued(x, |log.emitted|)];
      writes.Push(x);
      return true;
    }

    method DropWritesForIn(conn: nat)
      requires Valid()
      modifies Parts()
      ensures Valid() && Abs() == DropWritesFor(old(Abs()), conn)
    {
      hide Kept;
      writes.Filter(NotFor(conn));
      trace := trace + [Left(conn)];
    }

    method SendPlayerIn(w: World, conn: nat, p: PlayerInfo, why: PlayerReason, at: int)
      requires Valid()
      modifies Parts()
      ensures Valid() && Abs() == SendPlayer(w, old(Abs()), conn, p, why, at)
    {
      hide QueueWrite, Queues, Say;
      var ok := QueueWriteIn(w, conn, Player, CODE_PLAYER_INFO, TEXT_PLAYER_INFO, Some(p));
      if ok {
        SayIn(conn, at, PlayerSent(p, why));
      } else {
        NotQueued(w, old(Abs()), conn, Player, CODE_PLAYER_INFO, TEXT_PLAYER_INFO, Some(p));
      }
    }

    method SendSessionIn(w: World, conn: nat, state: Session, why: PlayerReason, at: int)
      requires Valid()
      modifies Parts()
      ensures Valid() && Abs() == SendSession(w, old(Abs()), conn, state, why, at)
    {
      hide QueueWrite, Queues, Say;
      var kind, code, text;
      match state {
        case SessionNone => return;
        case SessionActive => kind, code, text := Ready, CODE_READY, TEXT_READY;
        case SessionEnded => kind, code, text := RoundEnded, CODE_ROUND_ENDED, TEXT_ROUND_ENDED;
      }
      var ok := QueueWriteIn(w, conn, kind, code, text, None);
      if ok {
        SayIn(conn, at, SessionSent(state, why));
      } else {
        NotQueued(w, old(Abs()), conn, kind, code, text, None);
      }
    }
  }

  /** The bytes and the finding for the cells from `off` on. */
  predicate IsPiece(data: seq<Byte>, redact: bool, off: nat, n: nat, out: seq<Byte>, any: bool)
    requires off + n <= |data|
  {
    if redact then out == CellBytes(Paint(data)[off..off + n]) && (any <==> AnyHidden(Paint(data)[off..off + n]))
    else out == data[off..off + n] && !any
  }

  lemma PieceIsFirst(data: seq<Byte>, redact: bool, off: nat, n: nat, out: seq<Byte>, any: bool,
                     conn: nat, direction: Direction, at: int, withheld: bool)
    requires off <= |data| && n == Least(|data| - off, CHUNK_MAX) && IsPiece(data, redact, off, n, out, any)
    ensures Chunk(at, conn, 0, direction, withheld || any, false, off + n < |data|, out)
         == FirstChunk(conn, direction, CellsOf(data, redact)[off..], at, withheld)
  {
    hide Paint;
    var cells := CellsOf(data, redact);
    assert cells[off..][..n] == cells[off..off + n];
    if !redact {
      ClearPiece(data, off, n);
    }
  }

  lemma ClearPiece(data: seq<Byte>, off: nat, n: nat)
    requires off + n <= |data|
    ensures CellBytes(Clear(data)[off..off + n]) == data[off..off + n] && !AnyHidden(Clear(data)[off..off + n])
  {
  }

  function CellsOf(data: seq<Byte>, redact: bool): (r: seq<Cell>)
    ensures |r| == |data|
  {
    if redact then Paint(data) else Clear(data)
  }

  lemma SizeOf(data: seq<Byte>, redact: bool)
    ensures |CellsOf(data, redact)| == |data|
  {
  }

  function FirstChunk(conn: nat, direction: Direction, cells: seq<Cell>, at: int, withheld: bool): Chunk {
    var n := Least(|cells|, CHUNK_MAX);
    Chunk(at, conn, 0, direction, withheld || AnyHidden(cells[..n]), false, n < |cells|, CellBytes(cells[..n]))
  }

  /** What pushing the rest of a run, from `off` on, makes of `e`. */
  function Remaining(e: Env, conn: nat, direction: Direction, cells: seq<Cell>, off: Option<nat>, at: int, withheld: bool): Env
    requires off.Some? ==> off.value <= |cells|
  {
    if off == None then e else WireAll(e, ChunksOf(conn, direction, cells[off.value..], at, withheld))
  }

  lemma WireAllStart(e: Env, conn: nat, direction: Direction, cells: seq<Cell>, at: int, withheld: bool)
    ensures Remaining(e, conn, direction, cells, Some(0), at, withheld)
         == WireAll(e, ChunksOf(conn, direction, cells, at, withheld))
  {
    assert cells[0..] == cells;
  }

  lemma WireAllStop(e: Env, conn: nat, direction: Direction, cells: seq<Cell>, at: int, withheld: bool)
    ensures Remaining(e, conn, direction, cells, None, at, withheld) == e
  {
  }

  lemma WireAllStep(e: Env, conn: nat, direction: Direction, cells: seq<Cell>, off: nat, at: int, withheld: bool)
    requires off <= |cells|
    ensures var n := Least(|cells| - off, CHUNK_MAX);
            var f := WireOne(e, FirstChunk(conn, direction, cells[off..], at, withheld));
            && off + n <= |cells| && (off < |cells| ==> n > 0)
            && Remaining(e, conn, direction, cells, Some(off), at, withheld)
               == Remaining(f, conn, direction, cells, if off + n < |cells| then Some(off + n) else None, at, withheld)
  {
    hide WireOne, AnyHidden, FirstChunk, ChunksOf, WireAll;
    ChunksStep(conn, direction, cells[off..], at, withheld);
    var n, rest := Least(|cells| - off, CHUNK_MAX), cells[off..];
    WireAllFirst(e, ChunksOf(conn, direction, rest, at, withheld));
    if n < |rest| {
      assert rest[n..] == cells[off + n..];
    } else {
      WireAllNone(WireOne(e, FirstChunk(conn, direction, rest, at, withheld)));
    }
  }

  lemma ChunksStep(conn: nat, direction: Direction, cells: seq<Cell>, at: int, withheld: bool)
    ensures var n, cs := Least(|cells|, CHUNK_MAX), ChunksOf(conn, direction, cells, at, withheld);
            && cs != [] && cs[0] == FirstChunk(conn, direction, cells, at, withheld)
            && cs[1..] == if n < |cells| then ChunksOf(conn, direction, cells[n..], at, withheld) else []
  {
    hide AnyHidden;
  }

  lemma WireAllFirst(e: Env, cs: seq<Chunk>)
    requires cs != []
    ensures WireAll(e, cs) == WireAll(WireOne(e, cs[0]), cs[1..])
  {
    hide WireOne;
  }

  lemma WireAllNone(e: Env)
    ensures WireAll(e, []) == e
  {
  }

  lemma NotQueued(w: World, e: Env, conn: nat, kind: WriteKind, code: int, text: seq<Byte>, player: Option<PlayerInfo>)
    requires !Queues(w, e, code, text, player)
    ensures QueueWrite(w, e, conn, kind, code, text, player) == e
  {
  }
}
