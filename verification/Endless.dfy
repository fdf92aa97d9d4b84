/** A capture whose replay never ends, with write spacing on. */
module Endless {
  import opened Bytes
  import opened Numbers
  import P = Protocol
  import Decode
  import opened Events
  import opened Hub
  import opened Sizes
  import opened Conns
  import F = Frame
  import opened Lives
  import opened Mails
  import opened Serving
  import opened Streams
  import opened Fates
  import opened Delivery
  import opened Replies
  import opened Server
  import opened Resuming
  import opened Stalls

  const TWO: seq<Byte> := EMPTY_OBJECT + EMPTY_OBJECT
  const THREE: seq<Byte> := EMPTY_OBJECT + TWO

  /** `{}` is cut in two bytes. */
  lemma EmptyIsCut(done: seq<seq<Byte>>)
    ensures F.CutByte(F.Cut(done, [], F.RESET, false), LBRACE) == HalfCut(done)
    ensures F.CutByte(HalfCut(done), RBRACE) == F.Cut(done + [EMPTY_OBJECT], [], F.RESET, false)
  {
    assert [LBRACE] + [RBRACE] == EMPTY_OBJECT;
  }

  function HalfCut(done: seq<seq<Byte>>): F.Cut {
    F.Cut(done, [LBRACE], F.State(1, false, false), false)
  }

  /** `{}` goes through, and the message behind it finds the one slot taken. */
  lemma OneThenBlocked(lib: NumLib, cfg: Config, done: seq<seq<Byte>>, more: seq<Byte>)
    requires cfg.writeRing == 1 && TextFits(lib, P.CODE_SHOT_RECEIVED, AckText(cfg)) && cfg.maxMessage >= 1
    requires more != [] && more[0] == LBRACE
    requires forall i :: 0 <= i < |done| ==> Deliverable(lib, cfg.maxMessage, done[i])
    ensures FateOf(lib, cfg, 0, F.Cut(done, [], F.RESET, false), EMPTY_OBJECT + more) == Blocked(2)
    ensures WaitingAfter(lib, cfg, 0, F.Cut(done, [], F.RESET, false), (EMPTY_OBJECT + more)[..2]) == 1
  {
    hide Deliverable, TextFits, F.CutByte, Waiting;
    var s, c0, c1, c2 := EMPTY_OBJECT + more, F.Cut(done, [], F.RESET, false), HalfCut(done), F.Cut(done + [EMPTY_OBJECT], [], F.RESET, false);
    EmptyIsCut(done);
    EmptyDeliverable(lib, cfg.maxMessage);
    EmptyWaits(lib, cfg);
    assert s[0] == LBRACE && s[1..][0] == RBRACE && s[1..][1..] == more;
    assert FateOf(lib, cfg, 1, c2, more) == Blocked(0);
    assert FateOf(lib, cfg, 0, c1, s[1..]) == Blocked(1);
    EmptyThenWaiting(lib, cfg, done);
    assert s[..2] == EMPTY_OBJECT;
  }

  lemma EmptyThenWaiting(lib: NumLib, cfg: Config, done: seq<seq<Byte>>)
    requires cfg.writeRing == 1 && TextFits(lib, P.CODE_SHOT_RECEIVED, AckText(cfg))
    ensures WaitingAfter(lib, cfg, 0, F.Cut(done, [], F.RESET, false), EMPTY_OBJECT) == 1
  {
    hide TextFits, F.CutByte, Waiting;
    EmptyIsCut(done);
    EmptyWaits(lib, cfg);
    var a := EMPTY_OBJECT;
    assert a[0] == LBRACE && a[1..] == [RBRACE] && [RBRACE][1..] == [];
    assert WaitingAfter(lib, cfg, 0, HalfCut(done), [RBRACE]) == 1;
  }

  lemma EmptyDeliverable(lib: NumLib, max: nat)
    requires max >= 1
    ensures Deliverable(lib, max, EMPTY_OBJECT)
  {
    hide Decode.DecodeMessage;
    EmptyObjectDecodes(lib);
  }

  lemma EmptyWaits(lib: NumLib, cfg: Config)
    requires cfg.writeRing == 1 && TextFits(lib, P.CODE_SHOT_RECEIVED, AckText(cfg))
    ensures Waiting(lib, cfg, 0, EMPTY_OBJECT) == 1
  {
    hide Decode.DecodeMessage, TextFits, AckText, Rejected;
    EmptyObjectDecodes(lib);
  }

  /** A call that delivers one message and stops at the next. */
  lemma FeedOne(w: World, e: Env, c: Conn, data: seq<Byte>, more: seq<Byte>, at: int)
    requires e.log.cap > 0 && 1 <= e.cfg.maxMessage < F.DEPTH_WRAP && Followed(w.lib, e.cfg.maxMessage, c)
    requires e.cfg.writeRing == 1 && e.writes == [] && TextFits(w.lib, P.CODE_SHOT_RECEIVED, AckText(e.cfg))
    requires c.scan == 0 && c.framer == F.RESET && |more| <= Capacity(e.cfg) && (data == [] || |c.rx| < Capacity(e.cfg))
    requires c.rx + data == EMPTY_OBJECT + more && more != [] && more[0] == LBRACE
    ensures var (f, d, status) := TakeBytes(w, e, c, data, at);
            && status == P.QueueFull && d.rx == more && d.scan == 0 && d.framer == F.RESET
            && Followed(w.lib, e.cfg.maxMessage, d) && Kept(e, c, f, d)
            && |f.writes| == 1 && f.writes[0].conn == c.info.conn
            && d.story.missing == c.story.missing && d.story.errors == c.story.errors
  {
    hide TakeBytes, Followed, FateOf, WaitingAfter, TextFits, Kept;
    var lib, max := w.lib, e.cfg.maxMessage;
    SeenDeliverable(lib, max, c);
    OneThenBlocked(lib, e.cfg, c.story.delivered, more);
    assert c.rx[0..] == c.rx && Here(c) == F.Cut(c.story.delivered, [], F.RESET, false);
    MissingExactly(w, e, c, data, at);
    TakeBytesFollowed(w, e, c, data, at);
    TakeBytesKept(w, e, c, data, at);
    var (f, d, status) := TakeBytes(w, e, c, data, at);
    RestingFramer(lib, max, d);
    assert (EMPTY_OBJECT + more)[2..] == more;
    NotAnothers(e, c, f, d);
  }

  lemma SeenDeliverable(lib: NumLib, max: nat, c: Conn)
    requires Followed(lib, max, c)
    ensures forall i :: 0 <= i < |c.story.delivered| ==> Deliverable(lib, max, c.story.delivered[i])
  {
    hide Good, Deliverable, Told;
    SeenFits(lib, max, c);
    assert Fits(lib, max, Here(c));
  }

  lemma NotAnothers(e: Env, c: Conn, f: Env, d: Conn)
    requires Kept(e, c, f, d) && e.writes == [] && f.writes != []
    ensures f.writes[0].conn == c.info.conn
  {
    hide InOrder, EnvMail, EnvLife, Attuned, Logs.Logged, For;
    var j := f.writes[0].conn;
    assert Beside(e, f, c.info.conn, j);
    if j != c.info.conn {
      ForSome(f.writes, j, 0);
      ForNone(e.writes, j);
    }
  }

  /** One write, not held, polled: the next one to its connection is put off. */
  lemma OnePolled(s: Server, id: nat)
    requires Running(s) && |s.env.writes| == 1 && s.env.writes[0].conn == id && s.env.cfg.policy.writeSpacing > 0
    requires FindConn(s.conns, id).Some? && s.conns[FindConn(s.conns, id).value].nextWrite <= s.env.now
    ensures var k := FindConn(s.conns, id).value;
            var t := DrainWrites(s);
            && t.env.writes == [] && PolledOn(s, t)
            && t.conns == s.conns[k := s.conns[k].(nextWrite := s.env.now + s.env.cfg.policy.writeSpacing)]
  {
    hide FindConn, WireBytes;
    DrainWritesOn(s);
    HandOutOn(s, 0);
    var t := HandOut(s, 0);
    assert PollWritesFrom(t, 0, 7) == (t, []) && PollWritesFrom(t, 0, 8) == (t, []);
    assert PollWritesFrom(s, 0, 8) == (t, [s.env.writes[0]] + []);
    assert DrainWrites(t) == t;
  }

  /** A connection opened where neither a player nor a session is to be announced. */
  lemma OpenNext(w: World, s: Server, k: nat, id: nat, peer: seq<Byte>, at: int)
    requires Running(s) && !s.env.closed && !s.env.playerSet && s.env.session == SessionNone
    requires id != CONN_NONE && id != CONN_ALL && FindConn(s.conns, id) == None && FreeFrom(s.conns, 0) == Some(k)
    ensures var (t, status) := Open(w, s, id, peer, at);
            && status == P.Ok && Running(t) && t.env.now == at && t.conns == s.conns[k := Fresh(id, peer, at)]
            && t.env.cfg == s.env.cfg && t.env.closed == s.env.closed && t.env.writes == s.env.writes && t.env.trace == s.env.trace
            && t.env.playerSet == s.env.playerSet && t.env.session == s.env.session
  {
    hide SayConnection, SendPlayer, SendSession, Field, CStr, FindConn, FreeFrom;
    var c := Fresh(id, peer, at);
    var e := s.env.(now := at);
    SayConnectionLives(w, e, id, ConnectionOpened(c.info), at, id);
    SayConnectionWrites(w, e, id, ConnectionOpened(c.info), at);
  }

  /** A server with one connection open and nothing pending. */
  lemma Opened(w: World, cfg: Config, id: nat, peer: seq<Byte>, at: int)
    requires Usable(cfg) && id != CONN_NONE && id != CONN_ALL
    ensures var s := Open(w, NewServer(cfg), id, peer, at).0;
            && Open(w, NewServer(cfg), id, peer, at).1 == P.Ok
            && Running(s) && !s.env.closed && s.env.now == at && s.env.cfg == Completed(cfg)
            && s.env.writes == [] && s.env.trace == [] && !s.env.playerSet && s.env.session == SessionNone
            && |s.conns| == Completed(cfg).maxConnections > 0 && s.conns[0] == Fresh(id, peer, at) && FindConn(s.conns, id) == Some(0)
            && forall k :: 0 < k < |s.conns| ==> !s.conns[k].used
  {
    hide Field, CStr, Open;
    var n := NewServer(cfg);
    assert FreeFrom(n.conns, 0) == Some(0);
    assert FindConn(n.conns, id) == None;
    OpenNext(w, n, 0, id, peer, at);
  }

  /** One call on the connection found. */
  lemma CallOne(w: World, s: Server, k: nat, id: nat, data: seq<Byte>, more: seq<Byte>, at: int)
    requires Running(s) && !s.env.closed && s.env.now == at && FindConn(s.conns, id) == Some(k)
    requires 1 <= s.env.cfg.maxMessage < F.DEPTH_WRAP && Followed(w.lib, s.env.cfg.maxMessage, s.conns[k])
    requires s.env.cfg.writeRing == 1 && s.env.writes == [] && TextFits(w.lib, P.CODE_SHOT_RECEIVED, AckText(s.env.cfg))
    requires |more| <= Capacity(s.env.cfg) && (data == [] || |s.conns[k].rx| < Capacity(s.env.cfg))
    requires s.conns[k].scan == 0 && s.conns[k].framer == F.RESET
    requires s.conns[k].rx + data == EMPTY_OBJECT + more && more != [] && more[0] == LBRACE
    ensures var (t, status) := OnBytes(w, s, id, data, at);
            && status == P.QueueFull && Running(t) && !t.env.closed && t.env.now == at && t.env.cfg == s.env.cfg
            && FindConn(t.conns, id) == Some(k)
            && |t.env.writes| == 1 && t.env.writes[0].conn == id
            && var d := t.conns[k];
               d.rx == more && d.scan == 0 && d.framer == F.RESET && d.nextWrite == s.conns[k].nextWrite
               && Followed(w.lib, s.env.cfg.maxMessage, d)
               && d.story.missing == s.conns[k].story.missing && d.story.errors == s.conns[k].story.errors
  {
    hide TakeBytes, Followed, Kept, FindConn, TextFits;
    var e, c := s.env.(now := at), s.conns[k];
    assert e == s.env;
    BytesLive(w, s, id, data, at);
    FeedOne(w, e, c, data, more, at);
    var (f, d, status) := TakeBytes(w, e, c, data, at);
    KeptFields(e, c, f, d);
  }

  /** Drained, the server has its slot back and holds the next write. */
  lemma DrainOne(s: Server, k: nat, id: nat)
    requires Running(s) && |s.env.writes| == 1 && s.env.writes[0].conn == id && s.env.cfg.policy.writeSpacing > 0
    requires FindConn(s.conns, id) == Some(k) && s.conns[k].nextWrite <= s.env.now
    ensures var u := AllDrained(s);
            && Running(u) && u.env.writes == [] && u.env.closed == s.env.closed && u.env.now == s.env.now && u.env.cfg == s.env.cfg
            && FindConn(u.conns, id) == Some(k)
            && u.conns[k] == s.conns[k].(nextWrite := s.env.now + s.env.cfg.policy.writeSpacing)
  {
    hide DrainWrites, DrainEvents, FindConn;
    OnePolled(s, id);
    DrainedOn(s);
    FoundOn(s, AllDrained(s), id);
    DrainEventsOn(DrainWrites(s));
  }

  /** A full ring of held writes and a message pending: stalled, drained or not. */
  lemma HeldStalls(s: Server, k: nat, id: nat)
    requires Running(s) && !s.env.closed && s.env.cfg.writeRing == 1 && |s.env.writes| == 1 && s.env.writes[0].conn == id
    requires FindConn(s.conns, id) == Some(k) && s.conns[k].nextWrite > s.env.now && AtMessage(s.conns[k])
    ensures Stalled(AllDrained(s), id)
  {
    hide FindConn, AtMessage, DrainEvents;
    assert Stalled(s, id);
    AllHeldStay(s, 0, 8);
    StallDrained(s, id);
  }

  /**
   * Three messages in one chunk, a write ring of one and spacing on: the second reply is held back
   * at the recorded time, and draining and resuming at that time never ends.
   */
  lemma StallReached(w: World, cfg: Config, id: nat, at: int)
    requires Usable(cfg) && cfg.writeRing == 1 && cfg.policy.writeSpacing > 0 && id != CONN_NONE && id != CONN_ALL
    requires TextFits(w.lib, P.CODE_SHOT_RECEIVED, AckText(Completed(cfg)))
    ensures var (s, answer) := Open(w, NewServer(cfg), id, [], at);
            && answer == P.Ok && Running(s)
            && var (t, status) := OnBytes(w, s, id, THREE, at);
               && status == P.QueueFull && Running(t) && t.env.now == at
               && StalledAfter(w, t, id, at, 1) && forall n: nat :: !EndsBy(w, t, id, at, n)
  {
    hide Open, OnBytes, AllDrained, Followed, TextFits, FindConn, Stalled, StalledAfter, EndsBy, NewServer, Usable,
         Fresh, AckText;
    Opened(w, cfg, id, [], at);
    var s := Open(w, NewServer(cfg), id, [], at).0;
    FreshAt(w.lib, cfg, id, at);
    assert s.conns[0].rx + THREE == EMPTY_OBJECT + TWO;
    CallOne(w, s, 0, id, THREE, TWO, at);
    var t := OnBytes(w, s, id, THREE, at).0;
    DrainOne(t, 0, id);
    var u := AllDrained(t);
    PutOffFollowed(w.lib, s.env.cfg.maxMessage, t.conns[0], u.conns[0].nextWrite);
    assert u.conns[0].rx + [] == EMPTY_OBJECT + EMPTY_OBJECT;
    CallOne(w, u, 0, id, [], EMPTY_OBJECT, at);
    var v := OnBytes(w, u, id, [], at).0;
    HeldStalls(v, 0, id);
    RoundExactly(w, t, id, at);
    assert Rounds(w, v, id, at, 0) == (v, P.QueueFull);
    assert Rounds(w, t, id, at, 1) == (v, P.QueueFull);
    assert StalledAfter(w, t, id, at, 1) by { OneRound(w, t, v, id, at); }
    forall n: nat
      ensures !EndsBy(w, t, id, at, n)
    {
      StalledNeverEnds(w, t, id, at, 1, n);
    }
  }

  lemma OneRound(w: World, t: Server, v: Server, id: nat, at: int)
    requires Running(t) && t.env.now == at && Rounds(w, t, id, at, 1) == (v, P.QueueFull) && Running(v) && Stalled(AllDrained(v), id)
    ensures StalledAfter(w, t, id, at, 1)
  {
    hide Rounds, AllDrained, Stalled;
  }

  lemma FreshAt(lib: NumLib, cfg: Config, id: nat, at: int)
    requires Usable(cfg)
    ensures var c := Fresh(id, [], at);
            && Followed(lib, Completed(cfg).maxMessage, c) && c.rx == [] && c.scan == 0 && c.framer == F.RESET && c.nextWrite == at
    ensures 256 <= Completed(cfg).maxMessage < F.DEPTH_WRAP
    ensures cfg.writeRing == 1 ==> Completed(cfg).writeRing == 1 && Completed(cfg).policy == cfg.policy
  {
    hide Followed, CStr, Field;
    FreshIsFollowed(lib, Completed(cfg).maxMessage, Fresh(id, [], at));
  }
}
