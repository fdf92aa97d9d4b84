/**
 * Inputs, from a new server on, on which the code does not do what its comments say: bytes that go
 * missing, a message without a reply, a message longer than the bound, a text that is never sent.
 */
module Witnesses {
  import opened Bytes
  import opened Json
  import opened Numbers
  import opened Text
  import opened Message
  import P = Protocol
  import opened Encode
  import opened Decode
  import opened DecodeJson
  import EncodeMessage
  import opened Events
  import opened EventLog
  import opened Hub
  import opened Sizes
  import opened Conns
  import F = Frame
  import FrameJson
  import opened Lives
  import opened Mails
  import opened Serving
  import opened Streams
  import opened Fates
  import opened Delivery
  import opened Replies
  import opened Server
  import Runs
  import opened Resuming
  import opened Stalls
  import opened Endless

  function Blanks(n: nat): seq<Byte> {
    EncodeMessage.Spaces(n)
  }

  /** One call on a server that is running, at its own time. */
  lemma Called(w: World, s: Server, k: nat, id: nat, data: seq<Byte>, at: int)
    requires Running(s) && !s.env.closed && s.env.now == at && FindConn(s.conns, id) == Some(k)
    ensures var (f, d, status) := TakeBytes(w, s.env, s.conns[k], data, at);
            var (t, answer) := OnBytes(w, s, id, data, at);
            && answer == status && t == Server(f, s.conns[k := d]) && Kept(s.env, s.conns[k], f, d)
            && Running(t) && !t.env.closed && t.env.now == at && t.env.cfg == s.env.cfg
            && forall j: nat :: FindConn(t.conns, j) == FindConn(s.conns, j)
  {
    hide TakeBytes, Kept, FindConn;
    var e, c := s.env, s.conns[k];
    assert e.(now := at) == e;
    BytesLive(w, s, id, data, at);
    TakeBytesKept(w, e, c, data, at);
    var (f, d, status) := TakeBytes(w, e, c, data, at);
    KeptFields(e, c, f, d);
    var t := OnBytes(w, s, id, data, at).0;
    forall j: nat
      ensures FindConn(t.conns, j) == FindConn(s.conns, j)
    {
      Runs.FindSame(s.conns, t.conns, j, 0);
      FoundFrom(s.conns, t.conns, j);
    }
  }

  // --------------------------------------------------------------------------------------
  // Bytes that go missing
  // --------------------------------------------------------------------------------------

  /** Between messages blanks stop nothing. */
  lemma {:induction false} BlanksThrough(lib: NumLib, cfg: Config, n: nat, c: F.Cut, s: seq<Byte>)
    requires AllWs(s) && !F.InMessage(c.state) && Fits(lib, cfg.maxMessage, c)
    ensures FateOf(lib, cfg, n, c, s) == Through
    decreases |s|
  {
    hide Deliverable, Waiting;
    if s != [] {
      assert F.CutByte(c, s[0]) == c;
      BlanksThrough(lib, cfg, n, c, s[1..]);
    }
  }

  lemma BlanksAreWs(n: nat)
    ensures AllWs(Blanks(n)) && |Blanks(n)| == n
  {
  }

  lemma OneThenBlanks(lib: NumLib, cfg: Config, done: seq<seq<Byte>>, blanks: seq<Byte>)
    requires cfg.writeRing == 1 && TextFits(lib, P.CODE_SHOT_RECEIVED, AckText(cfg)) && cfg.maxMessage >= 1 && AllWs(blanks)
    requires forall i :: 0 <= i < |done| ==> Deliverable(lib, cfg.maxMessage, done[i])
    ensures FateOf(lib, cfg, 0, F.Cut(done, [], F.RESET, false), EMPTY_OBJECT + blanks) == Through
  {
    hide Deliverable, TextFits, F.CutByte, Waiting;
    var s, c0, c1 := EMPTY_OBJECT + blanks, F.Cut(done, [], F.RESET, false), HalfCut(done);
    var c2 := F.Cut(done + [EMPTY_OBJECT], [], F.RESET, false);
    EmptyIsCut(done);
    EmptyDeliverable(lib, cfg.maxMessage);
    EmptyWaits(lib, cfg);
    assert s[0] == LBRACE && s[1..][0] == RBRACE && s[1..][1..] == blanks;
    BlanksThrough(lib, cfg, 1, c2, blanks);
    assert FateOf(lib, cfg, 0, c1, s[1..]) == Through;
  }

  /** The first call's bytes: a message, and another with as many blanks behind it as are wanted. */
  function Burst(n: nat): seq<Byte> {
    EMPTY_OBJECT + (EMPTY_OBJECT + Blanks(n))
  }

  /** A poll hands out the one write, which is not held, and with spacing off changes no connection. */
  lemma OneOut(s: Server, id: nat, k: nat)
    requires Running(s) && |s.env.writes| == 1 && s.env.writes[0].conn == id && s.env.cfg.policy.writeSpacing <= 0
    requires FindConn(s.conns, id) == Some(k) && s.conns[k].nextWrite <= s.env.now
    ensures var t := PollWrites(s, 1).0;
            && Running(t) && t.env.writes == [] && t.conns == s.conns && t.env.cfg == s.env.cfg && t.env.now == s.env.now
            && t.env.closed == s.env.closed
  {
    hide FindConn, WireBytes;
    HandOutOn(s, 0);
    Runs.HandOutEnv(s, 0);
    assert PollWritesFrom(HandOut(s, 0), 0, 0) == (HandOut(s, 0), []);
  }

  /** The buffer full of a message and blanks, the ring empty again, and two bytes more. */
  lemma FullThenTwo(w: World, p: Server, k: nat, id: nat, at: int)
    requires Running(p) && !p.env.closed && p.env.now == at && FindConn(p.conns, id) == Some(k)
    requires 1 <= p.env.cfg.maxMessage < F.DEPTH_WRAP && Followed(w.lib, p.env.cfg.maxMessage, p.conns[k])
    requires p.env.cfg.writeRing == 1 && p.env.writes == [] && TextFits(w.lib, P.CODE_SHOT_RECEIVED, AckText(p.env.cfg))
    requires p.conns[k].scan == 0 && p.conns[k].framer == F.RESET
    requires p.conns[k].rx == EMPTY_OBJECT + Blanks(p.env.cfg.maxMessage - 1)
    ensures NoRoom(w.lib, p.env, p.conns[k], EMPTY_OBJECT)
    ensures var (t, status) := OnBytes(w, p, id, EMPTY_OBJECT, at);
            && status == P.Ok && |t.conns| == |p.conns|
            && t.conns[k].story.missing == p.conns[k].story.missing + 2
            && t.conns[k].story.errors == p.conns[k].story.errors
  {
    hide TakeBytes, Followed, FateOf, TextFits, Kept, FindConn, OnBytes;
    var e, c := p.env, p.conns[k];
    SeenDeliverable(w.lib, e.cfg.maxMessage, c);
    BlanksAreWs(e.cfg.maxMessage - 1);
    OneThenBlanks(w.lib, e.cfg, c.story.delivered, Blanks(e.cfg.maxMessage - 1));
    assert c.rx[0..] + [] == c.rx && Here(c) == F.Cut(c.story.delivered, [], F.RESET, false);
    assert NoRoom(w.lib, e, c, EMPTY_OBJECT);
    Called(w, p, k, id, EMPTY_OBJECT, at);
    MissingExactly(w, e, c, EMPTY_OBJECT, at);
    TakeBytesFollowed(w, e, c, EMPTY_OBJECT, at);
  }

  /**
   * With spacing off and a write ring of one: two messages and blanks up to the buffer's size, the
   * reply polled, and one message more. It is taken, no error is reported, and it is gone.
   */
  lemma MissingReached(w: World, cfg: Config, id: nat, at: int)
    requires Usable(cfg) && cfg.writeRing == 1 && cfg.policy.writeSpacing <= 0 && id != CONN_NONE && id != CONN_ALL
    requires TextFits(w.lib, P.CODE_SHOT_RECEIVED, AckText(Completed(cfg)))
    ensures var calls := [CallOpen(id, [], at), CallBytes(id, Burst(Completed(cfg).maxMessage - 1), at), CallPollWrites(1)];
            exists p :: && Runs.Reaches(w, cfg, calls, p) && Running(p) && FindConn(p.conns, id) == Some(0)
                        && NoRoom(w.lib, p.env, p.conns[0], EMPTY_OBJECT)
                        && var (s, status) := OnBytes(w, p, id, EMPTY_OBJECT, at);
                           && status == P.Ok && |s.conns| > 0
                           && s.conns[0].story.missing == 2 && s.conns[0].story.errors == 0
  {
    hide Open, OnBytes, PollWrites, Followed, TextFits, FindConn, NewServer, Usable, Fresh, AckText, Runs.Reaches, NoRoom,
         EncodeMessage.Spaces;
    var m := Completed(cfg).maxMessage;
    var more := EMPTY_OBJECT + Blanks(m - 1);
    Opened(w, cfg, id, [], at);
    var s1 := Open(w, NewServer(cfg), id, [], at).0;
    FreshAt(w.lib, cfg, id, at);
    FreshStory(id, at);
    BlanksAreWs(m - 1);
    assert s1.conns[0].rx + Burst(m - 1) == EMPTY_OBJECT + more;
    CallOne(w, s1, 0, id, Burst(m - 1), more, at);
    var s2 := OnBytes(w, s1, id, Burst(m - 1), at).0;
    OneOut(s2, id, 0);
    var p := PollWrites(s2, 1).0;
    FullThenTwo(w, p, 0, id, at);
    Runs.NewIsScanned(cfg);
    Runs.ThreeOn(w, cfg, CallOpen(id, [], at), CallBytes(id, Burst(m - 1), at), CallPollWrites(1), s1, s2);
    assert Runs.Reaches(w, cfg, [CallOpen(id, [], at), CallBytes(id, Burst(m - 1), at), CallPollWrites(1)], p);
  }

  lemma FreshStory(id: nat, at: int)
    ensures Fresh(id, [], at).story == NO_STORY
  {
    hide Field, CStr;
  }

  /**
   * With a write ring of one, a first call that holds a message and behind it one byte more than the
   * buffer: refused, no error reported, and everything behind the first message is gone.
   */
  lemma LostReached(w: World, cfg: Config, id: nat, at: int)
    requires Usable(cfg) && cfg.writeRing == 1 && id != CONN_NONE && id != CONN_ALL
    requires TextFits(w.lib, P.CODE_SHOT_RECEIVED, AckText(Completed(cfg)))
    ensures var m := Completed(cfg).maxMessage;
            exists p :: && Runs.Reaches(w, cfg, [CallOpen(id, [], at)], p) && Running(p) && FindConn(p.conns, id) == Some(0)
                        && var (s, status) := OnBytes(w, p, id, Burst(m), at);
                           && status == P.QueueFull && |s.conns| > 0 && s.conns[0].rx == []
                           && s.conns[0].story.missing == m + 2 && s.conns[0].story.errors == 0
  {
    hide Open, OnBytes, TakeBytes, Followed, TextFits, FindConn, NewServer, Usable, Fresh, AckText, Runs.Reaches, FateOf, Kept,
         EncodeMessage.Spaces, WaitingAfter;
    var m := Completed(cfg).maxMessage;
    var more := EMPTY_OBJECT + Blanks(m);
    Opened(w, cfg, id, [], at);
    var p := Open(w, NewServer(cfg), id, [], at).0;
    var e, c := p.env, p.conns[0];
    FreshAt(w.lib, cfg, id, at);
    FreshStory(id, at);
    BlanksAreWs(m);
    OneThenBlocked(w.lib, e.cfg, [], more);
    assert c.rx[0..] + Burst(m) == Burst(m) == EMPTY_OBJECT + more;
    assert Here(c) == F.Cut([], [], F.RESET, false);
    Called(w, p, 0, id, Burst(m), at);
    MissingExactly(w, e, c, Burst(m), at);
    TakeBytesFollowed(w, e, c, Burst(m), at);
    Runs.NewIsScanned(cfg);
    Runs.OneOn(w, cfg, CallOpen(id, [], at));
  }

  // --------------------------------------------------------------------------------------
  // A message without a reply
  // --------------------------------------------------------------------------------------

  lemma BraceFramed(w: World, e: Env, c: Conn, at: int)
    requires c.scan == 0 && |c.rx| > 0 && c.rx[0] == LBRACE && c.framer == F.RESET && e.cfg.maxMessage >= LEAST_MESSAGE
    ensures FrameByte(w, e, c, at) == (e, c.(framer := F.State(1, false, false), scan := 1), None)
  {
    hide Refuse, Deliver;
  }

  /** A brace taken: a message has begun, and nothing else has changed. */
  lemma FirstHalf(w: World, e: Env, c: Conn, at: int)
    requires c.rx == [] && c.scan == 0 && c.framer == F.RESET && !WritesFull(e) && e.cfg.maxMessage >= LEAST_MESSAGE
    ensures TakeBytes(w, e, c, [LBRACE], at)
         == (e, c.(rx := [LBRACE], scan := 1, framer := F.State(1, false, false),
                   story := c.story.(offered := c.story.offered + [LBRACE], fed := c.story.fed + [LBRACE])), P.Ok)
  {
    hide FrameByte;
    var c0 := c.(story := c.story.(offered := c.story.offered + [LBRACE]));
    var c1 := Append(c0, [LBRACE]);
    assert [LBRACE][..1] == [LBRACE] && [LBRACE][1..] == [] && c1.rx == [LBRACE];
    var d := c1.(framer := F.State(1, false, false), scan := 1);
    BraceFramed(w, e, c1, at);
    assert FramePending(w, e, d, at) == Turn(e, d, Drained);
    OneByteOn(w, e, c1, d, at);
    hide FramePending;
    assert Absorb(w, e, c0, [LBRACE], at) == (e, d, [], false);
  }

  /** `{}` taken whole is answered. */
  lemma WholeObject(w: World, e: Env, c: Conn, at: int)
    requires AnswersFit(w.lib, e) && e.cfg.maxMessage >= LEAST_MESSAGE
    requires c.rx == [] && c.scan == 0 && c.framer == F.RESET && !WritesFull(e)
    ensures var (f, d, status) := TakeBytes(w, e, c, EMPTY_OBJECT, at); OneMore(e, f, c.info.conn)
  {
    hide TextFits, OneMore, DecodeMessage, FramePending, FrameByte;
    var c0 := c.(story := c.story.(offered := c.story.offered + EMPTY_OBJECT));
    var c1 := Append(c0, EMPTY_OBJECT);
    assert EMPTY_OBJECT[..2] == EMPTY_OBJECT && EMPTY_OBJECT[2..] == [] && c1.rx == EMPTY_OBJECT;
    var d := c1.(framer := F.State(1, false, false), scan := 1);
    BraceFramed(w, e, c1, at);
    HalfFramed(w, e, d, at);
    OneByteOn(w, e, c1, d, at);
    var t := FramePending(w, e, d, at);
    assert Absorb(w, e, c0, EMPTY_OBJECT, at) == (t.env, t.conn, [], false);
  }

  lemma OneByteOn(w: World, e: Env, c: Conn, d: Conn, at: int)
    requires c.scan == 0 && |c.rx| > 0 && !IsWs(c.rx[0]) && !WritesFull(e) && FrameByte(w, e, c, at) == (e, d, None)
    requires d.scan == 1 && d.rx == c.rx
    ensures FramePending(w, e, c, at) == FramePending(w, e, d, at)
  {
    hide FrameByte, WritesFull;
  }

  /** Two connections open, the second in the next slot. */
  lemma TwoOpened(w: World, cfg: Config, a: nat, b: nat, at: int)
    requires Usable(cfg) && Completed(cfg).maxConnections > 1 && a != b
    requires a != CONN_NONE && a != CONN_ALL && b != CONN_NONE && b != CONN_ALL
    ensures var s := Open(w, Open(w, NewServer(cfg), a, [], at).0, b, [], at).0;
            && Running(s) && !s.env.closed && s.env.now == at && s.env.cfg == Completed(cfg)
            && s.env.writes == [] && s.env.trace == [] && |s.conns| > 1
            && s.conns[0] == Fresh(a, [], at) && s.conns[1] == Fresh(b, [], at)
            && FindConn(s.conns, a) == Some(0) && FindConn(s.conns, b) == Some(1)
  {
    hide Open, NewServer, Usable, Field, CStr;
    Opened(w, cfg, a, [], at);
    var s1 := Open(w, NewServer(cfg), a, [], at).0;
    assert FreeFrom(s1.conns, 1) == Some(1);
    OpenNext(w, s1, 1, b, [], at);
  }

  lemma OnlyTheOther(trace: seq<Hub.Step>, x: Write, n: nat, a: nat, spacing: int)
    requires trace == [Queued(x, n)] && x.conn != a
    ensures MailOf(trace, a, spacing) == NO_MAIL && For([x], a) == []
  {
    MailSnoc([], Queued(x, n), a, spacing);
    assert [] + [Queued(x, n)] == trace;
    ForNone([x], a);
  }

  /** The one slot taken by another connection between the two halves of a message. */
  lemma HalvesApart(w: World, s: Server, a: nat, b: nat, at: int)
    requires Running(s) && !s.env.closed && s.env.now == at && s.env.writes == [] && s.env.trace == [] && |s.conns| > 1
    requires s.env.cfg.writeRing == 1 && AnswersFit(w.lib, s.env) && s.env.cfg.maxMessage >= LEAST_MESSAGE
    requires s.conns[0] == Fresh(a, [], at) && s.conns[1] == Fresh(b, [], at) && a != b
    requires FindConn(s.conns, a) == Some(0) && FindConn(s.conns, b) == Some(1)
    ensures var s3 := OnBytes(w, s, a, [LBRACE], at).0;
            && Running(s3)
            && var s4 := OnBytes(w, s3, b, EMPTY_OBJECT, at).0;
               && Running(s4) && WritesFull(s4.env)
               && var t := OnBytes(w, s4, a, [RBRACE], at).0;
                  && |t.conns| > 0 && FindConn(t.conns, a) == Some(0)
                  && t.conns[0].story.delivered == [EMPTY_OBJECT] && t.conns[0].story.errors == 0
                  && EnvMail(t.env, a) == NO_MAIL && For(t.env.writes, a) == []
  {
    hide TakeBytes, OnBytes, TextFits, FindConn, Kept, For, MailOf;
    FreshStory(a, at);
    FreshIs(a, at);
    FreshIs(b, at);
    Called(w, s, 0, a, [LBRACE], at);
    FirstHalf(w, s.env, s.conns[0], at);
    var s3 := OnBytes(w, s, a, [LBRACE], at).0;
    Called(w, s3, 1, b, EMPTY_OBJECT, at);
    WholeObject(w, s3.env, s3.conns[1], at);
    var s4 := OnBytes(w, s3, b, EMPTY_OBJECT, at).0;
    Called(w, s4, 0, a, [RBRACE], at);
    SecondHalf(w, s4.env, s4.conns[0], at);
    var t := OnBytes(w, s4, a, [RBRACE], at).0;
    assert s4.env.trace == [s4.env.trace[0]] && s4.env.writes == [s4.env.writes[0]];
    OnlyTheOther(s4.env.trace, s4.env.writes[0], s4.env.trace[0].seen, a, t.env.cfg.policy.writeSpacing);
  }

  lemma FreshIs(id: nat, at: int)
    ensures var c := Fresh(id, [], at); c.rx == [] && c.scan == 0 && c.framer == F.RESET && c.used && c.info.conn == id
  {
    hide Field, CStr;
  }

  /**
   * A write ring of one and two connections: `{` from the first, `{}` from the second, `}` from the
   * first. The first one's message is delivered, and no reply to it is ever queued.
   */
  lemma StraddlingReached(w: World, cfg: Config, a: nat, b: nat, at: int)
    requires Usable(cfg) && cfg.writeRing == 1 && Completed(cfg).maxConnections > 1 && a != b
    requires a != CONN_NONE && a != CONN_ALL && b != CONN_NONE && b != CONN_ALL
    requires TextFits(w.lib, P.CODE_SHOT_RECEIVED, AckText(Completed(cfg)))
    ensures var calls := [CallOpen(a, [], at), CallOpen(b, [], at), CallBytes(a, [LBRACE], at),
                          CallBytes(b, EMPTY_OBJECT, at), CallBytes(a, [RBRACE], at)];
            exists s :: && Runs.Reaches(w, cfg, calls, s) && |s.conns| > 0 && FindConn(s.conns, a) == Some(0)
                        && s.conns[0].story.delivered == [EMPTY_OBJECT] && s.conns[0].story.errors == 0
                        && EnvMail(s.env, a).queued == [] && For(s.env.writes, a) == []
  {
    hide Open, OnBytes, TextFits, FindConn, NewServer, Usable, Fresh, AckText, Runs.Reaches, Scanned, MailOf, For;
    var c0, c1, c2 := CallOpen(a, [], at), CallOpen(b, [], at), CallBytes(a, [LBRACE], at);
    var c3, c4 := CallBytes(b, EMPTY_OBJECT, at), CallBytes(a, [RBRACE], at);
    Opened(w, cfg, a, [], at);
    var s1 := Open(w, NewServer(cfg), a, [], at).0;
    TwoOpened(w, cfg, a, b, at);
    var s2 := Open(w, s1, b, [], at).0;
    FreshAt(w.lib, cfg, a, at);
    HalvesApart(w, s2, a, b, at);
    var s3 := OnBytes(w, s2, a, [LBRACE], at).0;
    var s4 := OnBytes(w, s3, b, EMPTY_OBJECT, at).0;
    var t := OnBytes(w, s4, a, [RBRACE], at).0;
    Runs.NewIsScanned(cfg);
    Runs.ThreeOn(w, cfg, c0, c1, c2, s1, s2);
    Runs.CallOn(w, cfg, [c0, c1, c2], s3, c3);
    Runs.CallOn(w, cfg, [c0, c1, c2] + [c3], s4, c4);
    assert [c0, c1, c2] + [c3] + [c4] == [c0, c1, c2, c3, c4];
    assert Runs.Reaches(w, cfg, [c0, c1, c2, c3, c4], t);
  }

  // --------------------------------------------------------------------------------------
  // A message longer than the bound
  // --------------------------------------------------------------------------------------

  /** An empty object of `n + 2` octets. */
  function Wide(n: nat): seq<Byte> {
    [LBRACE] + Blanks(n) + [RBRACE]
  }

  lemma WideIsObject(lib: NumLib, max: nat, n: nat)
    requires n < max
    ensures F.IsObject(Wide(n)) && Deliverable(lib, max, Wide(n))
  {
    hide FoldRoot, Finish, EncodeMessage.Spaces, F.IsObject, DecodeMessage;
    var v := Object(Blanks(n), []);
    BlanksAreWs(n);
    assert Print(v) == Wide(n);
    FrameJson.PrintedObject(v);
    MessagePrinted(lib, [], v, []);
    assert [] + (Print(v) + []) == Print(v);
  }

  /** A message begun is not stopped before its end. */
  lemma {:induction false} WideUnstopped(lib: NumLib, cfg: Config, n: nat, c: F.Cut, s: seq<Byte>)
    requires c.state == F.State(1, false, false) && s != [] && s[|s| - 1] == RBRACE && AllWs(s[..|s| - 1])
    ensures !FateOf(lib, cfg, n, c, s).Blocked?
    decreases |s|
  {
    hide Fits, Onwards;
    var d := F.CutByte(c, s[0]);
    if |s| == 1 {
      assert s[1..] == [];
    } else {
      assert IsWs(s[..|s| - 1][0]);
      assert s[1..][..|s[1..]| - 1] == s[..|s| - 1][1..];
      WideUnstopped(lib, cfg, Onwards(lib, cfg, n, c, d), d, s[1..]);
    }
  }

  /** The first thing a connection sends, one octet longer than the bound: delivered, and no error. */
  lemma OverlongReached(w: World, cfg: Config, id: nat, at: int)
    requires Usable(cfg) && id != CONN_NONE && id != CONN_ALL
    ensures var max := Completed(cfg).maxMessage;
            var big := Wide(max - 1);
            && |big| == max + 1
            && exists s :: && Runs.Reaches(w, cfg, [CallOpen(id, [], at), CallBytes(id, big, at)], s)
                           && |s.conns| > 0 && FindConn(s.conns, id) == Some(0)
                           && s.conns[0].story.delivered == [big] && s.conns[0].story.errors == 0
  {
    hide Open, OnBytes, TakeBytes, Followed, FindConn, NewServer, Usable, Fresh, Runs.Reaches, FateOf, Kept, Wide, Deliverable,
         F.IsObject;
    var max := Completed(cfg).maxMessage;
    var big := Wide(max - 1);
    Opened(w, cfg, id, [], at);
    var p := Open(w, NewServer(cfg), id, [], at).0;
    FreshAt(w.lib, cfg, id, at);
    FreshStory(id, at);
    WideSize(max - 1);
    WideIsObject(w.lib, max, max - 1);
    Called(w, p, 0, id, big, at);
    OverlongTaken(w, p.env, p.conns[0], max, at);
    Runs.NewIsScanned(cfg);
    Runs.TwoOn(w, cfg, CallOpen(id, [], at), CallBytes(id, big, at), p);
    assert Runs.Reaches(w, cfg, [CallOpen(id, [], at), CallBytes(id, big, at)], OnBytes(w, p, id, big, at).0);
  }

  lemma WideSize(n: nat)
    ensures |Wide(n)| == n + 2 && Wide(n)[0] == LBRACE && Wide(n)[1..] == Blanks(n) + [RBRACE] && AllWs(Blanks(n)) && |Blanks(n)| == n
  {
  }

  lemma OverlongTaken(w: World, e: Env, c: Conn, max: nat, at: int)
    requires e.log.cap > 0 && 1 <= max == e.cfg.maxMessage < F.DEPTH_WRAP && Followed(w.lib, max, c) && e.writes == []
    requires e.cfg.writeRing > 0 && c.rx == [] && c.scan == 0 && c.framer == F.RESET && c.story == NO_STORY
    requires F.IsObject(Wide(max - 1)) && Deliverable(w.lib, max, Wide(max - 1))
    ensures var (f, d, status) := TakeBytes(w, e, c, Wide(max - 1), at);
            d.story.delivered == [Wide(max - 1)] && d.story.errors == 0
  {
    hide TakeBytes, Followed, FateOf, Kept, Wide, Deliverable, F.IsObject, F.Weave;
    var big := Wide(max - 1);
    WideSize(max - 1);
    assert c.rx[0..] + big == big && Here(c) == F.NOTHING;
    WideFate(w.lib, e.cfg, big, max - 1);
    MissingExactly(w, e, c, big, at);
    TakeBytesFollowed(w, e, c, big, at);
    var (f, d, status) := TakeBytes(w, e, c, big, at);
    OneWoven(big);
    assert [] + big == big;
    ObjectsDelivered(w.lib, max, d, [[], []], [big]);
  }

  lemma WideFate(lib: NumLib, cfg: Config, big: seq<Byte>, n: nat)
    requires big == Wide(n) && cfg.writeRing > 0
    ensures !FateOf(lib, cfg, 0, F.NOTHING, big).Blocked?
  {
    hide Fits, Wide, Onwards;
    WideSize(n);
    var d := F.CutByte(F.NOTHING, LBRACE);
    assert d.state == F.State(1, false, false);
    assert big[1..][..n] == Blanks(n);
    WideUnstopped(lib, cfg, Onwards(lib, cfg, 0, F.NOTHING, d), d, big[1..]);
  }

  lemma OneWoven(o: seq<Byte>)
    ensures F.Weave([[], []], [o]) == o && F.AllGaps([[], []])
  {
    var gaps: seq<seq<Byte>> := [[], []];
    assert gaps[1..] == [[]] && [o][1..] == [];
    assert F.Weave(gaps[1..], [o][1..]) == [];
    assert [] + o + [] == o;
  }

  // --------------------------------------------------------------------------------------
  // A text that is never sent
  // --------------------------------------------------------------------------------------

  /** Control octets, each of which is escaped with six. */
  function Controls(n: nat): seq<Byte> {
    seq(n, _ => 1)
  }

  lemma {:induction false} ControlsSize(n: nat)
    ensures |PrintItems(EscapeBytes(Controls(n)))| == 6 * n
    decreases n
  {
    if n > 0 {
      var s := Controls(n);
      assert s[1..] == Controls(n - 1) && s[0] == 1;
      ControlsSize(n - 1);
      assert EscapeBytes(s)[0] == EscapeByte(1) && EscapeBytes(s)[1..] == EscapeBytes(s[1..]);
      assert |PrintItem(EscapeByte(1))| == 6;
    } else {
      assert Controls(0) == [];
    }
  }

  /** A text that its field holds, 39 octets of 63, and no message that is not rejected gets a reply. */
  lemma AckNeverSent(w: World, e: Env, conn: nat, m: Message)
    requires e.cfg.policy.ackText == Controls(39) && !Rejected(e.cfg, m)
    ensures |e.cfg.policy.ackText| < ACK_TEXT_MAX && !AnswersFit(w.lib, e) && Reply(w, e, conn, m) == e
  {
    hide EscapeBytes, PrintItems, ResponseText;
    ControlsSize(39);
    assert CStr(Controls(39)) == Controls(39);
    AnswersFitExactly(w.lib, e);
  }
}
