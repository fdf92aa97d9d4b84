/** What the wire log takes down: whose bytes, which way, when, and of a poll one run for each write. */
module Captures {
  import opened Bytes
  import opened Redact
  import opened Events
  import opened EventLog
  import opened WireLog
  import opened Hub
  import opened Logs
  import Encode
  import Message

  predicate Stamped(c: Chunk, conn: nat, direction: Direction, at: int) {
    c.conn == conn && c.direction == direction && c.at == at
  }

  /** The chunks carry a run of one connection's bytes, one way, at one time. */
  predicate Carries(cs: seq<Chunk>, conn: nat, direction: Direction, cells: seq<Cell>, at: int, withheld: bool) {
    && |cs| > 0 && (|cs| - 1) * CHUNK_MAX <= |cells| && Joined(cs) == CellBytes(cells)
    && forall i :: 0 <= i < |cs| ==> Stamped(cs[i], conn, direction, at) && IsChunk(cs[i], cells, i, |cs|, withheld)
  }

  lemma {:induction false} ChunksStamped(conn: nat, direction: Direction, cells: seq<Cell>, at: int, withheld: bool)
    ensures forall c :: c in ChunksOf(conn, direction, cells, at, withheld) ==> Stamped(c, conn, direction, at)
    decreases |cells|
  {
    hide AnyHidden, CellBytes;
    var n := Least(|cells|, CHUNK_MAX);
    if n < |cells| {
      ChunksStamped(conn, direction, cells[n..], at, withheld);
    }
  }

  /** Chunks that differ in their sequence numbers only. */
  predicate Renumbered(a: seq<Chunk>, b: seq<Chunk>) {
    |a| == |b| && forall i :: 0 <= i < |a| ==> b[i] == a[i].(sequence := b[i].sequence)
  }

  lemma WireOnePushes(e: Env, chunk: Chunk)
    ensures var f := WireOne(e, chunk);
            && f == e.(wire := f.wire, log := f.log)
            && f.wire.pushed == e.wire.pushed + [chunk.(sequence := e.wire.sequence)]
  {
    hide Emit;
  }

  /** Every chunk is pushed, numbered, in order. */
  lemma {:induction false} WireAllPushes(e: Env, chunks: seq<Chunk>)
    ensures var f := WireAll(e, chunks);
            && f == e.(wire := f.wire, log := f.log)
            && e.wire.pushed <= f.wire.pushed && Renumbered(chunks, f.wire.pushed[|e.wire.pushed|..])
    decreases |chunks|
  {
    hide WireOne;
    if chunks != [] {
      var e1 := WireOne(e, chunks[0]);
      WireOnePushes(e, chunks[0]);
      WireAllPushes(e1, chunks[1..]);
      var f := WireAll(e, chunks);
      assert f.wire.pushed[|e.wire.pushed|..] == [e1.wire.pushed[|e.wire.pushed|]] + f.wire.pushed[|e1.wire.pushed|..];
    }
  }

  lemma CarriesRenumbered(a: seq<Chunk>, b: seq<Chunk>, conn: nat, direction: Direction, cells: seq<Cell>, at: int, withheld: bool)
    requires Renumbered(a, b) && Carries(a, conn, direction, cells, at, withheld)
    ensures Carries(b, conn, direction, cells, at, withheld)
  {
    hide Joined, Share, AnyHidden;
    JoinedNumbers(a, b);
    forall i | 0 <= i < |b|
      ensures Stamped(b[i], conn, direction, at) && IsChunk(b[i], cells, i, |b|, withheld)
    {
      assert Stamped(a[i], conn, direction, at) && IsChunk(a[i], cells, i, |a|, withheld);
    }
  }

  /** What is taken down is the run: the connection's, that way, at that time, and nothing else. */
  lemma WireCarries(e: Env, conn: nat, direction: Direction, cells: seq<Cell>, at: int, withheld: bool)
    requires e.cfg.wireRing > 0
    ensures var f := WireBytes(e, conn, direction, cells, at, withheld);
            && f == e.(wire := f.wire, log := f.log) && e.wire.pushed <= f.wire.pushed
            && Carries(f.wire.pushed[|e.wire.pushed|..], conn, direction, cells, at, withheld)
  {
    hide WireAll, ChunksOf, IsChunk, Joined, CellBytes;
    var cs := ChunksOf(conn, direction, cells, at, withheld);
    ChunksJoin(conn, direction, cells, at, withheld);
    ChunksStamped(conn, direction, cells, at, withheld);
    WireAllPushes(e, cs);
    var f := WireBytes(e, conn, direction, cells, at, withheld);
    CarriesRenumbered(cs, f.wire.pushed[|e.wire.pushed|..], conn, direction, cells, at, withheld);
  }

  // --------------------------------------------------------------------------------------
  // What is sent
  // --------------------------------------------------------------------------------------

  /**
   * The chunks are the server's bytes of one write, handed out at `at`: unmasked, 512 to a chunk but
   * for the last, which alone does not say that more follows.
   */
  predicate TakesDown(cs: seq<Chunk>, x: Write, at: int) {
    && |cs| > 0 && Joined(cs) == x.data
    && forall i :: 0 <= i < |cs| ==>
         && cs[i].conn == x.conn && cs[i].direction == ServerToClient && cs[i].at == at && !cs[i].redacted
         && (cs[i].continues <==> i < |cs| - 1)
         && if i < |cs| - 1 then |cs[i].data| == 512 else |cs[i].data| <= 512
  }

  /** One such run for each poll, in the order of the polls. */
  ghost predicate TakenDown(cs: seq<Chunk>, polls: seq<Step>)
    decreases |polls|
  {
    if polls == [] then cs == []
    else
      var last := polls[|polls| - 1];
      && last.Polled?
      && exists n :: 0 <= n <= |cs| && TakenDown(cs[..n], polls[..|polls| - 1]) && TakesDown(cs[n..], last.write, last.at)
  }

  /** The chunks that carry what the server sent. */
  function Outgoing(cs: seq<Chunk>): seq<Chunk> {
    if cs == [] then []
    else Outgoing(cs[..|cs| - 1]) + if cs[|cs| - 1].direction == ServerToClient then [cs[|cs| - 1]] else []
  }

  function Handed(trace: seq<Step>): seq<Step> {
    if trace == [] then []
    else Handed(trace[..|trace| - 1]) + if trace[|trace| - 1].Polled? then [trace[|trace| - 1]] else []
  }

  /** With the wire log on, what it holds of the server's bytes is every write handed out, in order. */
  ghost predicate Captured(e: Env) {
    e.cfg.wireRing > 0 ==> TakenDown(Outgoing(e.wire.pushed), Handed(e.trace))
  }

  /** Nothing was handed out from `e` to `f`, and nothing taken down as if it had been. */
  predicate SameSent(e: Env, f: Env) {
    Outgoing(f.wire.pushed) == Outgoing(e.wire.pushed) && Handed(f.trace) == Handed(e.trace)
  }

  lemma {:induction false} OutgoingConcat(a: seq<Chunk>, b: seq<Chunk>)
    ensures Outgoing(a + b) == Outgoing(a) + Outgoing(b)
    decreases |b|
  {
    if b == [] {
      assert a + b == a;
    } else {
      var k := |b| - 1;
      assert (a + b)[..|a + b| - 1] == a + b[..k];
      OutgoingConcat(a, b[..k]);
    }
  }

  lemma {:induction false} OneWay(cs: seq<Chunk>, out: bool)
    requires forall i :: 0 <= i < |cs| ==> (cs[i].direction == ServerToClient <==> out)
    ensures Outgoing(cs) == if out then cs else []
    decreases |cs|
  {
    if cs != [] {
      OneWay(cs[..|cs| - 1], out);
      assert cs == cs[..|cs| - 1] + [cs[|cs| - 1]];
    }
  }

  lemma HandedSnoc(trace: seq<Step>, step: Step)
    ensures Handed(trace + [step]) == Handed(trace) + if step.Polled? then [step] else []
  {
    assert (trace + [step])[..|trace|] == trace;
  }

  lemma WireOff(e: Env, conn: nat, direction: Direction, cells: seq<Cell>, at: int, withheld: bool)
    requires e.cfg.wireRing == 0
    ensures WireBytes(e, conn, direction, cells, at, withheld) == e
  {
  }

  /** Bytes that are not the server's leave the account of those alone. */
  lemma OthersTaken(e: Env, conn: nat, direction: Direction, cells: seq<Cell>, at: int, withheld: bool)
    requires direction != ServerToClient
    ensures Outgoing(WireBytes(e, conn, direction, cells, at, withheld).wire.pushed) == Outgoing(e.wire.pushed)
  {
    hide WireBytes, Outgoing, IsChunk, Joined;
    if e.cfg.wireRing > 0 {
      WireCarries(e, conn, direction, cells, at, withheld);
      var f := WireBytes(e, conn, direction, cells, at, withheld);
      var more := f.wire.pushed[|e.wire.pushed|..];
      assert f.wire.pushed == e.wire.pushed + more;
      forall i | 0 <= i < |more|
        ensures more[i].direction != ServerToClient
      {
        assert Stamped(more[i], conn, direction, at);
      }
      OneWay(more, false);
      OutgoingConcat(e.wire.pushed, more);
    } else {
      WireOff(e, conn, direction, cells, at, withheld);
    }
  }

  lemma ClearShare(data: seq<Byte>, i: nat)
    requires i * CHUNK_MAX <= |data|
    ensures |CellBytes(Clear(data))| == |data| && CellBytes(Clear(data)) == data
    ensures !AnyHidden(Share(Clear(data), i)) && |CellBytes(Share(Clear(data), i))| == |Share(Clear(data), i)|
  {
  }

  /** A write handed out. */
  lemma WriteCarried(cs: seq<Chunk>, x: Write, at: int)
    requires Carries(cs, x.conn, ServerToClient, Clear(x.data), at, false)
    ensures TakesDown(cs, x, at)
  {
    hide Joined, AnyHidden, Clear, CellBytes;
    ClearShare(x.data, 0);
    forall i | 0 <= i < |cs|
      ensures cs[i].conn == x.conn && cs[i].direction == ServerToClient && cs[i].at == at && !cs[i].redacted
      ensures cs[i].continues <==> i < |cs| - 1
      ensures if i < |cs| - 1 then |cs[i].data| == 512 else |cs[i].data| <= 512
    {
      assert Stamped(cs[i], x.conn, ServerToClient, at) && IsChunk(cs[i], Clear(x.data), i, |cs|, false);
      ClearSize(x.data);
      ClearShare(x.data, i);
    }
  }

  lemma ClearSize(data: seq<Byte>)
    ensures |Clear(data)| == |data|
  {
  }

  lemma {:induction false} TakenConcat(a: seq<Chunk>, b: seq<Chunk>, ps: seq<Step>, qs: seq<Step>)
    requires TakenDown(a, ps) && TakenDown(b, qs)
    ensures TakenDown(a + b, ps + qs)
    decreases |qs|
  {
    hide TakesDown;
    if qs == [] {
      assert a + b == a && ps + qs == ps;
    } else {
      var k := |qs| - 1;
      var n :| 0 <= n <= |b| && TakenDown(b[..n], qs[..k]) && TakesDown(b[n..], qs[k].write, qs[k].at);
      TakenConcat(a, b[..n], ps, qs[..k]);
      assert (ps + qs)[..|ps + qs| - 1] == ps + qs[..k];
      assert (a + b)[..|a| + n] == a + b[..n] && (a + b)[|a| + n..] == b[n..];
    }
  }

  lemma TakenOne(cs: seq<Chunk>, x: Write, at: int)
    requires TakesDown(cs, x, at)
    ensures TakenDown(cs, [Polled(x, at)])
  {
    hide TakesDown;
    var ps := [Polled(x, at)];
    assert ps[..0] == [] && cs[..0] == [] && cs[0..] == cs;
    assert TakenDown([], []);
  }

  /** A write taken down as it is handed out. */
  lemma HandedTaken(e: Env, x: Write, f: Env)
    requires Captured(e) && f.cfg == e.cfg && f.trace == e.trace + [Polled(x, e.now)]
    requires f.wire == WireBytes(e, x.conn, ServerToClient, Clear(x.data), e.now, false).wire
    ensures Captured(f)
    ensures e.cfg.wireRing > 0 ==> e.wire.pushed <= f.wire.pushed && TakesDown(f.wire.pushed[|e.wire.pushed|..], x, e.now)
  {
    hide WireBytes, Outgoing, Handed, Clear, Carries, TakenDown;
    if e.cfg.wireRing > 0 {
      WireCarries(e, x.conn, ServerToClient, Clear(x.data), e.now, false);
      var more := f.wire.pushed[|e.wire.pushed|..];
      WriteCarried(more, x, e.now);
      TakenOne(more, x, e.now);
      OneWay(more, true);
      assert f.wire.pushed == e.wire.pushed + more;
      OutgoingConcat(e.wire.pushed, more);
      HandedSnoc(e.trace, Polled(x, e.now));
      TakenConcat(Outgoing(e.wire.pushed), more, Handed(e.trace), [Polled(x, e.now)]);
    }
  }

  // --------------------------------------------------------------------------------------
  // What is not sent
  // --------------------------------------------------------------------------------------

  lemma SaySent(e: Env, conn: nat, at: int, body: Body)
    ensures SameSent(e, Say(e, conn, at, body))
  {
    hide Emit;
  }

  lemma WireClientSent(e: Env, conn: nat, data: seq<Byte>, at: int)
    ensures SameSent(e, WireClient(e, conn, data, at))
  {
    hide WireBytes, Paint, Outgoing, Handed;
    if data != [] {
      var cells := if e.cfg.policy.recordIdentifiers then Clear(data) else Paint(data);
      OthersTaken(e, conn, ClientToServer, cells, at, false);
      WireBytesKeepsRest(e, conn, ClientToServer, cells, at, false);
    }
  }

  lemma SayConnectionSent(w: World, e: Env, conn: nat, body: Body, at: int)
    ensures SameSent(e, SayConnection(w, e, conn, body, at))
  {
    hide WireBytes, Outgoing, Handed, Say;
    SaySent(e, conn, at, body);
    if body.ConnectionOpened? || body.ConnectionClosed? {
      var e1 := Say(e, conn, at, body);
      var line := Upto(w.describe(Event(e.log.sequence, conn, at, body), e.cfg.policy.recordIdentifiers), META_MAX);
      OthersTaken(e1, conn, Meta, Clear(line), at, !e.cfg.policy.recordIdentifiers);
      WireBytesKeepsRest(e1, conn, Meta, Clear(line), at, !e.cfg.policy.recordIdentifiers);
    }
  }

  lemma QueueSent(w: World, e: Env, conn: nat, kind: WriteKind, code: int, text: seq<Byte>, player: Option<Message.PlayerInfo>)
    ensures SameSent(e, QueueWrite(w, e, conn, kind, code, text, player))
  {
    hide Outgoing, Encode.ResponseText;
    if Queues(w, e, code, text, player) {
      HandedSnoc(e.trace, Queued(Write(conn, kind, Encode.ResponseText(w.lib, code, Some(text), player)), |e.log.emitted|));
    }
  }

  lemma DropSent(e: Env, conn: nat)
    ensures SameSent(e, DropWritesFor(e, conn))
  {
    hide Outgoing;
    HandedSnoc(e.trace, Left(conn));
  }
}
