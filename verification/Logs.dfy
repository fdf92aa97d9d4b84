/** What the event log and the wire log keep through everything a server does. */
module Logs {
  import opened Bytes
  import opened Message
  import opened Redact
  import opened Events
  import opened EventLog
  import opened WireLog
  import opened Hub

  /** At most one complaint about the wire ring since a poll last left it empty, and only if it overflowed. */
  predicate WireComplained(l: Log, wire: Wire) {
    && wire.warned != Owed && wire.mark <= |l.emitted|
    && Complaints(l.emitted[wire.mark..], WireDropped) == (if wire.warned == Quiet then 0 else 1)
  }

  predicate Logged(e: Env) {
    && Accounted(e.log)
    && if e.cfg.wireRing == 0 then e.wire == NewWire(0) else Traced(e.wire) && WireComplained(e.log, e.wire)
  }

  /** Not one of the two complaints, which only the logs themselves make. */
  predicate Plain(body: Body) {
    !(body.Warning? && (body.code == EventsDropped || body.code == WireDropped))
  }

  lemma ComplaintsOf(l: Log, conn: nat, at: int, body: Body, now: int, from: nat)
    requires Accounted(l) && from <= |l.emitted| && !(body.Warning? && body.code == EventsDropped)
    ensures from <= |Emit(l, conn, at, body, now).emitted|
    ensures Complaints(Emit(l, conn, at, body, now).emitted[from..], WireDropped)
         == Complaints(l.emitted[from..], WireDropped) + if body.Warning? && body.code == WireDropped then 1 else 0
  {
    hide Accounted, Emit, Complaints;
    EmitIsAccounted(l, conn, at, body, now);
    var m := Emit(l, conn, at, body, now);
    var e := Event(|l.emitted| % WORD, conn, at, body);
    ComplaintsSnoc(l.emitted, e, from, WireDropped);
    if m.emitted != l.emitted + [e] {
      var x := m.emitted[|m.emitted| - 1];
      assert m.emitted == l.emitted + [e] + [x];
      ComplaintsSnoc(l.emitted + [e], x, from, WireDropped);
    }
  }

  lemma SayIsLogged(e: Env, conn: nat, at: int, body: Body)
    requires Logged(e) && Plain(body)
    ensures Logged(Say(e, conn, at, body))
  {
    hide Accounted, Emit, Complaints, Traced;
    EmitIsAccounted(e.log, conn, at, body, e.now);
    if e.cfg.wireRing != 0 {
      ComplaintsOf(e.log, conn, at, body, e.now, e.wire.mark);
    }
  }

  lemma WireOneIsLogged(e: Env, chunk: Chunk)
    requires Logged(e) && e.cfg.wireRing != 0 && !chunk.lost
    ensures Logged(WireOne(e, chunk))
    ensures WireOne(e, chunk).wire.pushed == e.wire.pushed + [chunk.(sequence := |e.wire.pushed| % WORD)]
  {
    hide Accounted, Emit, Complaints, Traced, Push;
    PushIsTraced(e.wire, chunk);
    var e1 := e.(wire := Push(e.wire, chunk));
    if e1.wire.warned == Owed {
      TracedBut(e1.wire);
      var body := Warning(WireDropped, e1.wire.dropped);
      EmitIsAccounted(e1.log, CONN_NONE, e1.now, body, e1.now);
      ComplaintsOf(e1.log, CONN_NONE, e1.now, body, e1.now, e1.wire.mark);
    }
  }

  lemma TracedBut(l: Wire)
    requires Traced(l)
    ensures Traced(l.(warned := Said))
  {
  }

  lemma {:induction false} WireAllIsLogged(e: Env, chunks: seq<Chunk>)
    requires Logged(e) && e.cfg.wireRing != 0 && forall i :: 0 <= i < |chunks| ==> !chunks[i].lost
    ensures Logged(WireAll(e, chunks))
    ensures |WireAll(e, chunks).wire.pushed| == |e.wire.pushed| + |chunks|
    ensures e.wire.pushed <= WireAll(e, chunks).wire.pushed
    ensures forall i :: 0 <= i < |chunks| ==>
              WireAll(e, chunks).wire.pushed[|e.wire.pushed| + i] == chunks[i].(sequence := (|e.wire.pushed| + i) % WORD)
    decreases |chunks|
  {
    hide Logged, WireOne;
    if chunks != [] {
      WireOneIsLogged(e, chunks[0]);
      WireOneKeepsCfg(e, chunks[0]);
      var e1 := WireOne(e, chunks[0]);
      WireAllIsLogged(e1, chunks[1..]);
      var p := WireAll(e, chunks).wire.pushed;
      forall i | 0 <= i < |chunks|
        ensures p[|e.wire.pushed| + i] == chunks[i].(sequence := (|e.wire.pushed| + i) % WORD)
      {
        if i == 0 {
          assert p[|e.wire.pushed|] == e1.wire.pushed[|e.wire.pushed|];
        } else {
          assert chunks[1..][i - 1] == chunks[i];
          assert p[|e1.wire.pushed| + (i - 1)] == chunks[1..][i - 1].(sequence := (|e1.wire.pushed| + (i - 1)) % WORD);
        }
      }
    }
  }

  lemma WireOneKeepsCfg(e: Env, chunk: Chunk)
    ensures WireOne(e, chunk) == e.(wire := WireOne(e, chunk).wire, log := WireOne(e, chunk).log)
  {
    hide Push, Emit;
  }

  lemma {:induction false} WireAllKeepsRest(e: Env, chunks: seq<Chunk>)
    ensures WireAll(e, chunks) == e.(wire := WireAll(e, chunks).wire, log := WireAll(e, chunks).log)
    decreases |chunks|
  {
    hide WireOne;
    if chunks != [] {
      WireOneKeepsCfg(e, chunks[0]);
      WireAllKeepsRest(WireOne(e, chunks[0]), chunks[1..]);
    }
  }

  /** Taking something down in the wire log touches nothing but the two logs. */
  lemma WireBytesKeepsRest(e: Env, conn: nat, direction: Direction, cells: seq<Cell>, at: int, withheld: bool)
    ensures var f := WireBytes(e, conn, direction, cells, at, withheld); f == e.(wire := f.wire, log := f.log)
  {
    hide WireAll, ChunksOf;
    WireAllKeepsRest(e, ChunksOf(conn, direction, cells, at, withheld));
  }

  // --------------------------------------------------------------------------------------
  // Chunks
  // --------------------------------------------------------------------------------------

  function Joined(chunks: seq<Chunk>): seq<Byte> {
    if chunks == [] then [] else chunks[0].data + Joined(chunks[1..])
  }

  /** The cells that chunk `i` of a run carries. */
  function Share(cells: seq<Cell>, i: nat): (r: seq<Cell>)
    requires i * CHUNK_MAX <= |cells|
  {
    var rest := cells[i * CHUNK_MAX..];
    if |rest| <= CHUNK_MAX then rest else rest[..CHUNK_MAX]
  }

  /** Chunk `i` of `count`: its share of the run, whether anything in it was masked, whether more follows. */
  predicate IsChunk(c: Chunk, cells: seq<Cell>, i: nat, count: nat, withheld: bool) {
    && i * CHUNK_MAX <= |cells|
    && c.data == CellBytes(Share(cells, i)) && |c.data| <= CHUNK_MAX
    && (c.redacted <==> withheld || AnyHidden(Share(cells, i)))
    && (c.continues <==> i < count - 1)
    && !c.lost
  }

  lemma ShareOfRest(cells: seq<Cell>, i: nat)
    requires CHUNK_MAX < |cells| && i * CHUNK_MAX <= |cells| - CHUNK_MAX
    ensures Share(cells, i + 1) == Share(cells[CHUNK_MAX..], i)
  {
    assert cells[CHUNK_MAX..][i * CHUNK_MAX..] == cells[(i + 1) * CHUNK_MAX..];
  }

  lemma JoinFirst(c: Chunk, rest: seq<Chunk>, cells: seq<Cell>)
    requires CHUNK_MAX < |cells| && c.data == CellBytes(cells[..CHUNK_MAX]) && Joined(rest) == CellBytes(cells[CHUNK_MAX..])
    ensures Joined([c] + rest) == CellBytes(cells)
  {
    assert ([c] + rest)[1..] == rest;
  }

  /**
   * Cut into chunks and joined again a run is what it was; REDACTED stands on exactly the chunks
   * with a masked byte (on all of them when the line is withheld), CONTINUES on each that another follows.
   */
  lemma {:induction false} ChunksJoin(conn: nat, direction: Direction, cells: seq<Cell>, at: int, withheld: bool)
    ensures var cs := ChunksOf(conn, direction, cells, at, withheld);
            && Joined(cs) == CellBytes(cells)
            && |cs| > 0 && (|cs| - 1) * CHUNK_MAX <= |cells| <= |cs| * CHUNK_MAX
            && forall i :: 0 <= i < |cs| ==> IsChunk(cs[i], cells, i, |cs|, withheld)
    decreases |cells|
  {
    hide AnyHidden, IsChunk, Joined, Share;
    var n := Least(|cells|, CHUNK_MAX);
    var cs := ChunksOf(conn, direction, cells, at, withheld);
    FirstChunk(cs, conn, direction, cells, at, withheld);
    if n < |cells| {
      var rest := ChunksOf(conn, direction, cells[n..], at, withheld);
      ChunksJoin(conn, direction, cells[n..], at, withheld);
      assert cs == [cs[0]] + rest;
      JoinFirst(cs[0], rest, cells);
      forall i | 0 <= i < |cs|
        ensures IsChunk(cs[i], cells, i, |cs|, withheld)
      {
        if i > 0 {
          assert IsChunk(rest[i - 1], cells[n..], i - 1, |rest|, withheld);
          NextChunk(rest[i - 1], cells, i - 1, |rest|, withheld);
        }
      }
    }
  }

  lemma FirstChunk(cs: seq<Chunk>, conn: nat, direction: Direction, cells: seq<Cell>, at: int, withheld: bool)
    requires cs == ChunksOf(conn, direction, cells, at, withheld)
    ensures |cs| > 0 && cs[0].data == CellBytes(cells[..Least(|cells|, CHUNK_MAX)])
    ensures (|cs| == 1 ==> |cells| <= CHUNK_MAX) && (|cells| <= CHUNK_MAX ==> |cs| == 1 && Joined(cs) == CellBytes(cells))
    ensures IsChunk(cs[0], cells, 0, |cs|, withheld)
  {
    hide AnyHidden;
    var n := Least(|cells|, CHUNK_MAX);
    assert Share(cells, 0) == cells[..n];
    if n < |cells| {
      assert |ChunksOf(conn, direction, cells[n..], at, withheld)| > 0;
    } else {
      assert cells[..n] == cells;
      assert cs[1..] == [];
    }
  }

  lemma NextChunk(c: Chunk, cells: seq<Cell>, i: nat, count: nat, withheld: bool)
    requires CHUNK_MAX < |cells| && IsChunk(c, cells[CHUNK_MAX..], i, count, withheld)
    ensures IsChunk(c, cells, i + 1, count + 1, withheld)
  {
    hide Share, AnyHidden;
    ShareOfRest(cells, i);
  }

  /** What the wire log takes down of bytes from a client: all of them, with the device ids masked. */
  lemma WireClientRecords(e: Env, conn: nat, data: seq<Byte>, at: int)
    requires Logged(e) && e.cfg.wireRing != 0
    ensures var f := WireClient(e, conn, data, at);
            && Logged(f)
            && e.wire.pushed <= f.wire.pushed
            && Joined(f.wire.pushed[|e.wire.pushed|..]) == (if e.cfg.policy.recordIdentifiers then data else Mask(data))
  {
    hide Logged, WireAll, Paint, ChunksOf;
    var f := WireClient(e, conn, data, at);
    if data == [] {
      assert f.wire.pushed[|e.wire.pushed|..] == [];
      assert Mask(data) == data;
    } else {
      var cells := if e.cfg.policy.recordIdentifiers then Clear(data) else Paint(data);
      var cs := ChunksOf(conn, ClientToServer, cells, at, false);
      ChunksJoin(conn, ClientToServer, cells, at, false);
      WireAllIsLogged(e, cs);
      JoinedNumbers(cs, f.wire.pushed[|e.wire.pushed|..]);
      assert CellBytes(Clear(data)) == data;
    }
  }

  lemma {:induction false} JoinedNumbers(a: seq<Chunk>, b: seq<Chunk>)
    requires |a| == |b| && forall i :: 0 <= i < |a| ==> a[i].data == b[i].data
    ensures Joined(a) == Joined(b)
    decreases |a|
  {
    if a != [] {
      JoinedNumbers(a[1..], b[1..]);
    }
  }

  lemma WireBytesIsLogged(e: Env, conn: nat, direction: Direction, cells: seq<Cell>, at: int, withheld: bool)
    requires Logged(e)
    ensures Logged(WireBytes(e, conn, direction, cells, at, withheld))
  {
    hide Logged, WireAll, ChunksOf;
    if e.cfg.wireRing != 0 {
      ChunksJoin(conn, direction, cells, at, withheld);
      WireAllIsLogged(e, ChunksOf(conn, direction, cells, at, withheld));
    }
  }

  lemma WireClientIsLogged(e: Env, conn: nat, data: seq<Byte>, at: int)
    requires Logged(e)
    ensures Logged(WireClient(e, conn, data, at))
  {
    hide Logged, WireBytes, Paint;
    if data != [] {
      WireBytesIsLogged(e, conn, ClientToServer,
                        if e.cfg.policy.recordIdentifiers then Clear(data) else Paint(data), at, false);
    }
  }

  lemma SayConnectionIsLogged(w: World, e: Env, conn: nat, body: Body, at: int)
    requires Logged(e) && Plain(body)
    ensures Logged(SayConnection(w, e, conn, body, at))
  {
    hide Logged, WireBytes, Say;
    SayIsLogged(e, conn, at, body);
    SayKeeps(e, conn, at, body);
    if body.ConnectionOpened? || body.ConnectionClosed? {
      var line := Upto(w.describe(Event(e.log.sequence, conn, at, body), e.cfg.policy.recordIdentifiers), META_MAX);
      WireBytesIsLogged(Say(e, conn, at, body), conn, Meta, Clear(line), at, !e.cfg.policy.recordIdentifiers);
    }
  }

  lemma SayKeeps(e: Env, conn: nat, at: int, body: Body)
    ensures Say(e, conn, at, body) == e.(log := Say(e, conn, at, body).log)
  {
  }
}
