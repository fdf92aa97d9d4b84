/** One message and the reply recorded of it, replayed into a new server: one message heard, its reply matched. */
module Exchange {
  import opened Bytes
  import opened Numbers
  import opened Message
  import P = Protocol
  import opened Decode
  import opened Encode
  import opened Events
  import opened EventLog
  import opened Hub
  import opened Conns
  import F = Frame
  import opened Replies
  import opened Server
  import opened Playback
  import Answers
  import Captures
  import Classify
  import Endless
  import Playing
  import Reader
  import Redact
  import Rings
  import Runs
  import Serving
  import Witnesses
  import S = Stalls
  import R = Record

  /** What `{}` says: nothing, and so not that a ball was measured. */
  lemma EmptySays(lib: NumLib)
    ensures DecodeMessage(lib, EMPTY_OBJECT).Some?
    ensures var m := DecodeMessage(lib, EMPTY_OBJECT).value;
            m.kind == Status && m.deviceId == [] && m.options == map[] && m.flags !! {BallIncomplete}
  {
    hide NotedAll, Findings;
    assert Reader.Accept(EMPTY_OBJECT, LBRACE) == Some([RBRACE]);
    assert RootMembers(lib, [RBRACE], true, BLANK) == Some((BLANK, []));
    NoBallNoted(BLANK);
  }

  lemma NoBallNoted(d: Draft)
    requires !Truth(d.options, ContainsBallData) && BallIncomplete !in d.flags
    ensures BallIncomplete !in NotedAll(d.flags, Findings(d))
  {
    hide KindFrom, UnitsFrom, NotedAll, BallComplete;
    Classify.NotesTaken(d.flags, Findings(d), BallIncomplete);
  }

  /** Into an empty ring an event goes alone. */
  lemma SaidAlone(e: Env, conn: nat, at: int, body: Body)
    requires e.log.cap > 0 && e.log.items == [] && e.log.warned != Owed
    ensures var f := Say(e, conn, at, body);
            && f == e.(log := f.log) && f.log.cap == e.log.cap && f.log.warned == e.log.warned
            && |f.log.items| == 1 && f.log.items[0].body == body
  {
  }

  /** An acknowledgement in the words of the policy. */
  predicate Acknowledges(w: World, policy: Policy, id: nat, x: Write) {
    && x.conn == id && x.kind == Ack
    && Answers.Says(w, x, 200, if policy.ackText != [] then policy.ackText else Ascii("Shot received successfully"))
  }

  lemma AcknowledgedAlone(w: World, policy: Policy, id: nat, m: Message, xs: seq<Write>)
    requires policy.ackText == [] || Answers.Sendable(policy.ackText)
    requires Answers.AnswersAll(w, policy, id, Answers.Answerable(policy, [m]), xs) && BallIncomplete !in m.flags
    ensures |xs| == 1 && Acknowledges(w, policy, id, xs[0])
  {
    hide Answers.Sendable, Answers.Says;
    assert [m][1..] == [] && Answers.Answerable(policy, []) == [];
  }

  /** `{}` accepted where nothing is waiting, with the wire log off: answered, and reported. */
  lemma EmptyAccepted(w: World, e: Env, c: Conn, at: int)
    requires e.cfg.wireRing == 0 && e.log.cap > 0 && e.log.items == [] && e.log.warned != Owed && e.writes == [] && e.cfg.writeRing > 0
    requires e.cfg.policy.ackText == [] || Answers.Sendable(e.cfg.policy.ackText)
    requires !c.idleReported && DecodeMessage(w.lib, EMPTY_OBJECT).Some?
    ensures var m := DecodeMessage(w.lib, EMPTY_OBJECT).value;
            var f := Accept(w, e, c, EMPTY_OBJECT, m, at).0;
            && f.log.cap == e.log.cap && f.log.warned == e.log.warned
            && |f.log.items| == 1 && f.log.items[0].body.Heard? && f.log.items[0].body.message.kind == Status
            && |f.writes| == 1 && Acknowledges(w, e.cfg.policy, c.info.conn, f.writes[0])
            && f == e.(log := f.log, writes := f.writes, trace := f.trace, number := f.number)
  {
    hide DecodeMessage, Reply, Answers.AnswersAll, Answers.Answerable, Answers.Sendable, Acknowledges, Say;
    EmptySays(w.lib);
    var m := DecodeMessage(w.lib, EMPTY_OBJECT).value;
    var id, e2 := c.info.conn, e.(number := Inc32(e.number));
    Answers.ReplyAnswers(w, e2, id, m);
    ReplyEvents(w, e2, id, m);
    ReplyKeeps(w, e2, id, m);
    var e3 := Reply(w, e2, id, m);
    AcknowledgedAlone(w, e.cfg.policy, id, m, e3.writes[0..]);
    assert e3.writes[0..] == e3.writes;
    assert WireClient(e, id, EMPTY_OBJECT, at) == e;
    assert Notes(w, e3, MessageCounted(c, m, EMPTY_OBJECT, at), m, at) == (e3, MessageCounted(c, m, EMPTY_OBJECT, at));
    SaidAlone(e3, id, at, Heard(Marked(c, m), e.number));
  }

  lemma ReplyKeeps(w: World, e: Env, conn: nat, m: Message)
    ensures var f := Reply(w, e, conn, m); f == e.(writes := f.writes, trace := f.trace)
  {
    hide Queues, QueueWrite;
    Serving.QueueKeeps(w, e, conn, Failed, P.CODE_FAILURE, P.TEXT_INCOMPLETE, None);
    Serving.QueueKeeps(w, e, conn, Ack, P.CODE_SHOT_RECEIVED, AckText(e.cfg), None);
  }

  /** `{}` taken whole is one message accepted. */
  lemma EmptyTaken(w: World, e: Env, c: Conn, at: int) returns (c2: Conn)
    requires e.cfg.maxMessage >= LEAST_MESSAGE && c.rx == [] && c.scan == 0 && c.framer == F.RESET && !WritesFull(e)
    requires DecodeMessage(w.lib, EMPTY_OBJECT).Some?
    ensures c2.info == c.info && c2.idleReported == c.idleReported
    ensures var (f, d, status) := TakeBytes(w, e, c, EMPTY_OBJECT, at);
            status == P.Ok && f == Accept(w, e, c2, EMPTY_OBJECT, DecodeMessage(w.lib, EMPTY_OBJECT).value, at).0
  {
    hide DecodeMessage, Accept, Refuse, WritesFull;
    var c0 := c.(story := c.story.(offered := c.story.offered + EMPTY_OBJECT));
    var c1 := Append(c0, EMPTY_OBJECT);
    assert EMPTY_OBJECT[..2] == EMPTY_OBJECT && EMPTY_OBJECT[2..] == [] && c1.rx == EMPTY_OBJECT;
    var d := c1.(framer := F.State(1, false, false), scan := 1);
    c2 := d.(framer := F.RESET, scan := 2);
    EmptyFramed(w, e, c1, d, c2, at);
    hide FramePending;
    var t := FramePending(w, e, c1, at);
    assert Absorb(w, e, c0, EMPTY_OBJECT, at) == (t.env, t.conn, [], false);
  }

  lemma EmptyFramed(w: World, e: Env, c1: Conn, d: Conn, c2: Conn, at: int)
    requires e.cfg.maxMessage >= LEAST_MESSAGE && !WritesFull(e) && DecodeMessage(w.lib, EMPTY_OBJECT).Some?
    requires c1.rx == EMPTY_OBJECT && c1.scan == 0 && c1.framer == F.RESET
    requires d == c1.(framer := F.State(1, false, false), scan := 1) && c2 == d.(framer := F.RESET, scan := 2)
    ensures var t := FramePending(w, e, c1, at);
            && t.ending == Drained && t.conn.rx == []
            && t.env == Accept(w, e, c2, EMPTY_OBJECT, DecodeMessage(w.lib, EMPTY_OBJECT).value, at).0
  {
    hide DecodeMessage, Accept, Refuse, WritesFull, FrameByte, FramePending;
    Witnesses.BraceFramed(w, e, c1, at);
    Witnesses.OneByteOn(w, e, c1, d, at);
    EmptyClosed(w, e, d, c2, at);
    DeliverKeeps(w, e, c2, EMPTY_OBJECT, at);
    var (f, g, ok) := Deliver(w, e, c2, EMPTY_OBJECT, at);
    OneByteLeft(w, e, d, f, Compact(g), at);
  }

  lemma EmptyClosed(w: World, e: Env, d: Conn, c2: Conn, at: int)
    requires d.rx == EMPTY_OBJECT && d.framer == F.State(1, false, false) && d.scan == 1 && c2 == d.(framer := F.RESET, scan := 2)
    requires DecodeMessage(w.lib, EMPTY_OBJECT).Some?
    ensures var (f, g, ok) := Deliver(w, e, c2, EMPTY_OBJECT, at);
            && ok && g.scan == 2 && g.rx == EMPTY_OBJECT && g.framer == F.RESET && FrameByte(w, e, d, at) == (f, Compact(g), None)
  {
    hide DecodeMessage, Accept, Refuse;
    assert c2.rx[..2] == EMPTY_OBJECT;
    DeliverKeeps(w, e, c2, EMPTY_OBJECT, at);
  }

  lemma OneByteLeft(w: World, e: Env, d: Conn, f: Env, g: Conn, at: int)
    requires d.scan == 1 && |d.rx| == 2 && F.InMessage(d.framer) && FrameByte(w, e, d, at) == (f, g, None)
    requires g.scan == 0 && g.rx == [] && g.framer == F.RESET
    ensures FramePending(w, e, d, at) == Turn(f, g, Drained)
  {
    hide FrameByte;
    assert FramePending(w, f, g, at) == Turn(f, Compact(g), Drained);
  }

  // --------------------------------------------------------------------------------------
  // The server
  // --------------------------------------------------------------------------------------

  /** A drained server, its log quiet. */
  predicate Quieted(s: Server) {
    s.env.writes == [] && s.env.log.items == [] && s.env.log.warned == Quiet && s.env.log.cap > 0
  }

  lemma {:induction false} EventsQuiet(s: Server)
    ensures var t := S.DrainEvents(s);
            && t == s.(env := s.env.(log := t.env.log)) && t.env.log.cap == s.env.log.cap
            && t.env.log.items == [] && t.env.log.warned == Quiet
    decreases |s.env.log.items|
  {
    var (t, out) := PollEvents(s, 16);
    if out != [] {
      EventsQuiet(t);
    }
  }

  lemma NoWrites(s: Server)
    requires s.env.writes == [] && s.env.log.cap > 0
    ensures S.DrainWrites(s) == s && Produced(s) == []
  {
    assert PollWrites(s, 8) == (s, []);
  }

  /** A drain that finds at most one event, and no write. */
  lemma DrainOneEvent(p: Play)
    requires S.Running(p.server) && p.server.env.writes == [] && |p.pending| <= 32
    ensures var q := AfterDrain(p);
            && q.server == p.server.(env := p.server.env.(log := q.server.env.log)) && Quieted(q.server)
            && q.ids == p.ids && q.pending == p.pending
            && q.report == Tallied(p, p.server.env.log.items).report
  {
    hide Tallied, S.DrainEvents, Happened, Scanned;
    NoWrites(p.server);
    NothingTaken(p.(server := p.server));
    EventsQuiet(p.server);
    Playing.HappenedIsAll(p.server);
    assert Emptied(p) == p;
    NotedServer(p, p.server.env.log.items, S.DrainEvents(p.server));
    TalliedReport(p, p, p.server.env.log.items);
  }

  lemma {:induction false} OneWrite(s: Server, k: nat)
    requires S.Running(s) && |s.env.writes| == 1 && s.env.cfg.policy.writeSpacing <= 0 && s.env.cfg.wireRing == 0
    requires FindConn(s.conns, s.env.writes[0].conn) == Some(k) && s.conns[k].nextWrite <= s.env.now
    ensures var t := S.DrainWrites(s);
            t == s.(env := s.env.(writes := [], trace := t.env.trace)) && Produced(s) == s.env.writes
  {
    hide FindConn, WireBytes;
    var x, t := s.env.writes[0], HandOut(s, 0);
    Captures.WireOff(s.env, x.conn, ServerToClient, Redact.Clear(x.data), s.env.now, false);
    assert Rings.Without(s.env.writes, 0) == [];
    assert PollWritesFrom(t, 0, 7) == (t, []);
    assert PollWrites(s, 8) == (t, [x] + []);
    NoWrites(t);
    assert [x] + [] == s.env.writes && s.env.writes + [] == s.env.writes;
  }

  /** A drain that finds one write, free to go, and one message. */
  lemma DrainOneReply(p: Play, k: nat)
    requires S.Running(p.server) && |p.server.env.writes| == 1 && p.pending == []
    requires p.server.env.cfg.policy.writeSpacing <= 0 && p.server.env.cfg.wireRing == 0
    requires FindConn(p.server.conns, p.server.env.writes[0].conn) == Some(k) && p.server.conns[k].nextWrite <= p.server.env.now
    ensures var q := AfterDrain(p);
            && Quieted(q.server) && q.ids == p.ids && q.pending == p.server.env.writes
            && q.report == Tallied(p.(report := p.report.(produced := p.report.produced + 1)), p.server.env.log.items).report
  {
    hide Tallied, S.DrainEvents, Happened, Scanned, FindConn;
    OneWrite(p.server, k);
    var u := S.DrainWrites(p.server);
    assert p.pending + p.server.env.writes == p.server.env.writes;
    var v := Emptied(p);
    assert v == p.(server := u, pending := p.server.env.writes, report := p.report.(produced := p.report.produced + 1));
    EventsQuiet(u);
    Playing.HappenedIsAll(u);
    NotedServer(v, u.env.log.items, S.DrainEvents(u));
    TalliedReport(v, v, u.env.log.items);
    TalliedReport(v, p.(report := p.report.(produced := p.report.produced + 1)), u.env.log.items);
  }

  /** What is counted of the events depends on the report only. */
  lemma TalliedReport(p: Play, q: Play, es: seq<Event>)
    requires p.report == q.report
    ensures Tallied(p, es).report == Tallied(q, es).report && Tallied(p, es) == p.(report := Tallied(p, es).report)
  {
  }

  /** A new server with the wire log off, and its first connection. */
  lemma FirstOpened(w: World, cfg: Config, id: nat, at: int)
    requires Usable(cfg) && id != CONN_NONE && id != CONN_ALL && cfg.wireRing == 0
    ensures var s := Open(w, NewServer(cfg), id, [], at).0;
            && Open(w, NewServer(cfg), id, [], at).1 == P.Ok
            && |s.env.log.items| == 1 && s.env.log.items[0].body.ConnectionOpened?
  {
    hide CStr, Field, Say;
    var n := NewServer(cfg);
    assert FreeFrom(n.conns, 0) == Some(0);
    assert FindConn(n.conns, id) == None;
    var e := n.env.(now := at);
    var c := Fresh(id, [], at);
    SaidAlone(e, id, at, ConnectionOpened(c.info));
    var f := Say(e, id, at, ConnectionOpened(c.info));
    assert SayConnection(w, e, id, ConnectionOpened(c.info), at) == f;
    assert Announce(w, f, id, at) == f;
    assert Open(w, n, id, [], at) == (Server(f, n.conns[0 := c]), P.Ok);
  }

  // --------------------------------------------------------------------------------------
  // The two chunks
  // --------------------------------------------------------------------------------------

  function NewPlay(cfg: Config): Play {
    Play(NewServer(cfg), [], [], NO_REPORT)
  }

  lemma NewRuns(cfg: Config)
    requires Usable(cfg)
    ensures S.Running(NewServer(cfg))
  {
  }

  /** The connection opened by its first chunk, the event of that drained. */
  lemma Begun(w: World, cfg: Config, p: Play, id: nat, at: int)
    requires Usable(cfg) && id != CONN_NONE && id != CONN_ALL && cfg.wireRing == 0
    requires p.server == NewServer(cfg) && p.ids == [] && p.pending == []
    ensures S.Running(p.server)
    ensures var q := Opened(w, p, id, at);
            && Quieted(q.server) && q.ids == [id] && q.pending == [] && q.report == p.report.(connections := p.report.connections + 1)
            && !q.server.env.closed && q.server.env.now == at && q.server.env.cfg == Completed(cfg)
            && FindConn(q.server.conns, id) == Some(0) && q.server.conns[0] == Fresh(id, [], at)
  {
    hide Open, NewServer, Usable, Fresh, FindConn, Tallied, Scanned;
    NewRuns(cfg);
    Endless.Opened(w, cfg, id, [], at);
    FirstOpened(w, cfg, id, at);
    OpenRuns(w, p.server, id, at);
    var t := Open(w, p.server, id, [], at).0;
    var u := Listed(p.(server := t), id);
    DrainOneEvent(u);
    NotedOne(u, t.env.log.items[0]);
    assert t.env.log.items == [t.env.log.items[0]];
    assert [] + [id] == [id];
  }

  /** `{}` handed over and taken: one event and one write more. */
  lemma Taken(w: World, p: Play, id: nat, at: int, rounds: nat)
    requires S.Running(p.server) && Quieted(p.server) && !p.server.env.closed && p.server.env.now == at
    requires p.server.env.cfg.wireRing == 0 && p.server.env.cfg.writeRing > 0 && p.server.env.cfg.maxMessage >= LEAST_MESSAGE
    requires var policy := p.server.env.cfg.policy; policy.ackText == [] || Answers.Sendable(policy.ackText)
    requires FindConn(p.server.conns, id) == Some(0) && p.server.conns[0] == Fresh(id, [], at)
    ensures var (q, done) := Fed(w, p, id, EMPTY_OBJECT, at, rounds);
            && done && S.Running(q.server) && q.ids == p.ids && q.pending == p.pending && q.report == p.report
            && |q.server.env.log.items| == 1 && q.server.env.log.items[0].body.Heard?
            && q.server.env.log.items[0].body.message.kind == Status
            && |q.server.env.writes| == 1 && Acknowledges(w, p.server.env.cfg.policy, id, q.server.env.writes[0])
            && q.server.env.cfg == p.server.env.cfg && q.server.env.now == at && q.server.env.closed == p.server.env.closed
            && FindConn(q.server.conns, id) == Some(0) && q.server.conns[0].nextWrite == at
  {
    hide TakeBytes, Accept, FindConn, DecodeMessage, Acknowledges, Answers.Sendable, Serving.Kept, CStr, Field, Resumed;
    var s, c := p.server, p.server.conns[0];
    EmptySays(w.lib);
    var c2 := EmptyTaken(w, s.env, c, at);
    EmptyAccepted(w, s.env, c2, at);
    S.BytesLive(w, s, id, EMPTY_OBJECT, at);
    Witnesses.Called(w, s, 0, id, EMPTY_OBJECT, at);
    var (f, d, status) := TakeBytes(w, s.env, c, EMPTY_OBJECT, at);
    Serving.KeptFields(s.env, c, f, d);
  }

  lemma FirstChunk(w: World, cfg: Config, c: R.Record, rounds: nat)
    requires Usable(cfg) && cfg.wireRing == 0 && cfg.policy.writeSpacing <= 0
    requires cfg.policy.ackText == [] || Answers.Sendable(cfg.policy.ackText)
    requires c.direction == TO_SERVER && c.data == EMPTY_OBJECT && c.conn != CONN_NONE && c.conn != CONN_ALL
    ensures S.Running(NewServer(cfg))
    ensures var (q, done) := ChunkStep(w, NewPlay(cfg), c, rounds);
            && done && Quieted(q.server)
            && |q.pending| == 1 && Acknowledges(w, cfg.policy, c.conn, q.pending[0])
            && q.report.messages == 1 && q.report.shots == 0 && q.report.errors == 0 && q.report.produced == 1 && q.report.extra == 0
            && q.report.connections == 1 && q.report.matched == 0 && q.report.differing == 0 && q.report.missing == 0
            && q.report.unsolicited == 0
  {
    hide Opened, Fed, AfterDrain, NewServer, Usable, Fresh, FindConn, Tallied, Scanned, Acknowledges, Answers.Sendable;
    NewRuns(cfg);
    var p := Seen(NewPlay(cfg), c);
    var u := p.(report := p.report.(client := p.report.client + 1));
    Begun(w, cfg, u, c.conn, c.at);
    ConfigIs(cfg);
    var x := Opened(w, u, c.conn, c.at);
    Taken(w, x, c.conn, c.at, rounds);
    var (y, done) := Fed(w, x, c.conn, c.data, c.at, rounds);
    AckConn(w, cfg.policy, c.conn, y.server.env.writes[0]);
    DrainOneReply(y, 0);
    var z := y.(report := y.report.(produced := y.report.produced + 1));
    NotedOne(z, y.server.env.log.items[0]);
    assert y.server.env.log.items == [y.server.env.log.items[0]];
  }

  lemma ConfigIs(cfg: Config)
    requires Usable(cfg)
    ensures var c := Completed(cfg);
            c.policy == cfg.policy && c.wireRing == cfg.wireRing && c.writeRing > 0 && c.maxMessage >= LEAST_MESSAGE
  {
  }

  lemma AckConn(w: World, policy: Policy, id: nat, x: Write)
    requires Acknowledges(w, policy, id, x)
    ensures x.conn == id
  {
  }

  /** With nothing waiting and nothing in the ring a recorded reply meets the replies pending. */
  lemma SecondChunk(w: World, p: Play, c: R.Record, rounds: nat)
    requires S.Running(p.server) && Quieted(p.server) && |p.pending| == 1
    requires c.direction == TO_CLIENT && p.pending[0].conn == c.conn && p.pending[0].data == c.data
    ensures var (q, done) := ChunkStep(w, p, c, rounds);
            && done && Quieted(q.server) && q.pending == []
            && q.report.matched == p.report.matched + 1
            && q.report == p.report.(chunks := q.report.chunks, lost := q.report.lost, server := q.report.server, matched := q.report.matched)
  {
    hide AfterDrain, DecodeResponse, Scanned, Tallied;
    var u := Seen(p, c);
    DrainOneEvent(u);
    NothingNoted(u);
    assert p.server.env.log.items == [];
    assert Rings.Without(p.pending, 0) == [];
    assert Judgement(p.pending, c, DecodeResponse(w.lib, c.data)) == (Matched, []);
  }

  /**
   * A capture of one message and of the acknowledgement it was given, replayed into a new server
   * that would give the same: one message, one reply produced, that one matched, and nothing
   * missing, different, unsolicited or left over.
   */
  lemma ExchangeReplayed(w: World, cfg: Config, c: R.Record, d: R.Record, rounds: nat)
    requires Usable(cfg) && cfg.wireRing == 0 && cfg.policy.writeSpacing <= 0
    requires cfg.policy.ackText == [] || Answers.Sendable(cfg.policy.ackText)
    requires c.direction == TO_SERVER && c.data == EMPTY_OBJECT && c.conn != CONN_NONE && c.conn != CONN_ALL
    requires d.direction == TO_CLIENT && d.conn == c.conn
    requires d.data == ResponseText(w.lib, 200, Some(if cfg.policy.ackText != [] then cfg.policy.ackText
                                                     else Ascii("Shot received successfully")), None)
    ensures S.Running(NewServer(cfg))
    ensures var (q, done) := Played(w, NewPlay(cfg), [c, d], rounds);
            && done && q.report.messages == 1 && q.report.produced == 1 && q.report.matched == 1
            && q.report.missing == 0 && q.report.differing == 0 && q.report.unsolicited == 0 && q.report.extra == 0
            && q.report.shots == 0 && q.report.errors == 0 && q.report.connections == 1
  {
    hide ChunkStep, AfterDrain, NewServer, Usable, Answers.Sendable, ResponseText, Scanned, Tallied, Ascii;
    NewRuns(cfg);
    FirstChunk(w, cfg, c, rounds);
    var (p, first) := ChunkStep(w, NewPlay(cfg), c, rounds);
    SecondChunk(w, p, d, rounds);
    var (q, second) := ChunkStep(w, p, d, rounds);
    assert [c, d][..1] == [c] && [c][..0] == [];
    assert ChunkSteps(w, NewPlay(cfg), [c], rounds) == (p, true);
    assert ChunkSteps(w, NewPlay(cfg), [c, d], rounds) == (q, true);
    DrainOneEvent(q);
    NothingNoted(q);
    assert q.server.env.log.items == [];
  }
}
