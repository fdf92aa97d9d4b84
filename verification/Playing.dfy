/**
 * What a replay amounts to: it leaves a server like any other, drains it of everything, counts just
 * that, and offers each connection the bytes that were recorded of it.
 */
module Playing {
  import opened Bytes
  import opened Message
  import P = Protocol
  import Decode
  import opened Events
  import EventLog
  import opened Hub
  import opened Conns
  import opened Server
  import opened Runs
  import opened Playback
  import Delivery
  import Lives
  import Logs
  import Captures
  import Promises
  import Resuming
  import Serving
  import S = Stalls
  import R = Record

  // --------------------------------------------------------------------------------------
  // What a drain brings
  // --------------------------------------------------------------------------------------

  /** Every event that is in the ring, in order; and then none is. */
  lemma {:induction false} HappenedIsAll(s: Server)
    ensures Happened(s) == s.env.log.items && S.DrainEvents(s).env.log.items == []
    decreases |s.env.log.items|
  {
    var (t, out) := PollEvents(s, 16);
    if out != [] {
      HappenedIsAll(t);
      assert s.env.log.items == out + t.env.log.items;
    }
  }

  /** The writes that the server's history says were handed out meanwhile. */
  lemma {:induction false} ProducedIsTraced(s: Server)
    requires s.env.log.cap > 0
    ensures S.DrainWrites(s).env.trace == s.env.trace + Promises.Polls(Produced(s), s.env.now)
    ensures S.DrainWrites(s).env.now == s.env.now
    decreases |s.env.writes|
  {
    hide PollWritesFrom;
    S.PollOn(s, 0, 8);
    Promises.PolledAsTraced(s, 0, 8);
    var (t, out) := PollWrites(s, 8);
    if out == [] {
      assert s.env.trace + [] == s.env.trace;
    } else {
      ProducedIsTraced(t);
      PollsConcat(out, Produced(t), s.env.now);
      assert s.env.trace + Promises.Polls(out, s.env.now) + Promises.Polls(Produced(t), s.env.now)
          == s.env.trace + (Promises.Polls(out, s.env.now) + Promises.Polls(Produced(t), s.env.now));
    }
  }

  lemma {:induction false} PollsConcat(a: seq<Write>, b: seq<Write>, at: int)
    ensures Promises.Polls(a + b, at) == Promises.Polls(a, at) + Promises.Polls(b, at)
  {
    if a == [] {
      assert a + b == b;
    } else {
      assert (a + b)[1..] == a[1..] + b;
      PollsConcat(a[1..], b, at);
    }
  }

  /**
   * A drain leaves no event in the ring and no write that is not held back. The replies kept are the
   * first 32 of those pending and those handed out; what is counted is the writes handed out, those
   * that were not kept, and the messages, shots, errors and flags of the events that were there.
   */
  lemma DrainBrings(p: Play)
    requires S.Running(p.server) && |p.pending| <= 32
    ensures var q, out, es := AfterDrain(p), Produced(p.server), S.DrainWrites(p.server).env.log.items;
            var ms := Messages(es);
            && q.server.env.log.items == [] && S.AllHeld(q.server) && q.ids == p.ids
            && S.DrainWrites(p.server).env.trace == p.server.env.trace + Promises.Polls(out, p.server.env.now)
            && q.pending == (if |p.pending| + |out| <= 32 then p.pending + out else (p.pending + out)[..32])
            && q.report == p.report.(
                 produced := p.report.produced + |out|,
                 extra := p.report.extra + (if |p.pending| + |out| <= 32 then 0 else |p.pending| + |out| - 32),
                 messages := p.report.messages + |ms|, shots := p.report.shots + ShotsOf(ms),
                 errors := p.report.errors + Errors(es), flagsSeen := p.report.flagsSeen + FlagsOf(ms))
  {
    hide S.DrainWrites, S.DrainEvents, Produced, Happened, Messages, ShotsOf, Errors, FlagsOf, S.AllHeld;
    S.DrainedOn(p.server);
    HappenedIsAll(S.DrainWrites(p.server));
    ProducedIsTraced(p.server);
  }

  // --------------------------------------------------------------------------------------
  // What a recorded reply is
  // --------------------------------------------------------------------------------------

  /** A reply of that kind has that code. */
  predicate HasCode(kind: WriteKind, code: int) {
    || (kind == Ack && code == 200) || (kind == Player && code == 201) || (kind == Ready && code == 202)
    || (kind == RoundEnded && code == 203) || (kind == Failed && code == 501)
  }

  /** A reply pending for the connection, with the very bytes. */
  predicate SomeIdentical(pending: seq<Write>, c: R.Record) {
    exists x :: x in pending && x.conn == c.conn && x.data == c.data
  }

  /** A reply pending for the connection, of the code recorded. */
  predicate SomeOfCode(pending: seq<Write>, c: R.Record, code: int) {
    exists x :: x in pending && x.conn == c.conn && HasCode(x.kind, code)
  }

  /**
   * A recorded reply is matched if a pending one has its bytes, differs if one has just its code, is
   * the host's own if its code is 201 to 203 and nothing has it, and is missing otherwise; and what
   * claims it is no longer pending.
   */
  lemma VerdictSays(pending: seq<Write>, c: R.Record, decoded: Option<Response>)
    ensures var (v, after) := Judgement(pending, c, decoded);
            var same := SomeIdentical(pending, c);
            var alike := decoded.Some? && SomeOfCode(pending, c, decoded.value.code);
            && (v == Matched <==> same)
            && (v == Differing <==> !same && alike)
            && (v == Unsolicited <==> !same && !alike && decoded.Some? && 201 <= decoded.value.code <= 203)
            && (v == Missing <==> !same && !alike && !(decoded.Some? && 201 <= decoded.value.code <= 203))
            && |after| == |pending| - if v == Matched || v == Differing then 1 else 0
  {
    CodesAre(decoded);
    hide CodeOf, HostOriginated, HasCode;
    var a, b := FirstClaim(pending, c, decoded, true, 0), FirstClaim(pending, c, decoded, false, 0);
    assert a.Some? ==> pending[a.value] in pending;
    assert b.Some? ==> pending[b.value] in pending;
  }

  lemma CodesAre(decoded: Option<Response>)
    ensures forall kind, code :: HasCode(kind, code) <==> CodeOf(kind) == code
    ensures HostOriginated(decoded) <==> decoded.Some? && 201 <= decoded.value.code <= 203
  {
  }

  // --------------------------------------------------------------------------------------
  // A server like any other
  // --------------------------------------------------------------------------------------

  lemma {:induction false} DrainWritesKeeps(w: World, s: Server)
    requires Inv(w, s) && s.env.log.cap > 0
    ensures Inv(w, S.DrainWrites(s))
    decreases |s.env.writes|
  {
    hide Inv, PollWritesFrom;
    S.PollOn(s, 0, 8);
    PollWritesKeeps(w, s, 8);
    var (t, out) := PollWrites(s, 8);
    if out != [] {
      DrainWritesKeeps(w, t);
    }
  }

  lemma {:induction false} DrainEventsKeeps(w: World, s: Server)
    requires Inv(w, s)
    ensures Inv(w, S.DrainEvents(s))
    decreases |s.env.log.items|
  {
    hide Inv;
    PollEventsKeeps(w, s, 16);
    var (t, out) := PollEvents(s, 16);
    if out != [] {
      DrainEventsKeeps(w, t);
    }
  }

  lemma DrainKeeps(w: World, p: Play)
    requires S.Running(p.server) && Inv(w, p.server)
    ensures Inv(w, AfterDrain(p).server)
  {
    hide Inv, S.DrainWrites, S.DrainEvents, Scanned;
    DrainWritesKeeps(w, p.server);
    DrainEventsKeeps(w, S.DrainWrites(p.server));
  }

  /** Everything the host ever handed over for the connection `id`, if it is open. */
  function BytesOf(s: Server, id: nat): Option<seq<Byte>> {
    match FindConn(s.conns, id)
    case None => None
    case Some(k) => Some(s.conns[k].story.offered)
  }

  /** Polling hands nobody anything. */
  lemma DrainOffers(p: Play, id: nat)
    requires S.Running(p.server)
    ensures BytesOf(AfterDrain(p).server, id) == BytesOf(p.server, id)
    ensures AfterDrain(p).server.env.closed == p.server.env.closed
  {
    hide S.AllDrained, FindConn;
    S.DrainedOn(p.server);
    S.FoundOn(p.server, AfterDrain(p).server, id);
  }

  lemma BytesOffer(w: World, s: Server, conn: nat, data: seq<Byte>, at: int, id: nat)
    requires Inv(w, s) && Scanned(s)
    ensures var t := OnBytes(w, s, conn, data, at).0;
            && Inv(w, t) && t.env.closed == s.env.closed
            && BytesOf(t, id) == if id == conn && !s.env.closed && BytesOf(s, id).Some? then Some(BytesOf(s, id).value + data)
                                 else BytesOf(s, id)
  {
    hide Inv, TakeBytes, Delivery.Followed, Serving.Kept, FindConn;
    OnBytesKeeps(w, s, conn, data, at);
    var t := OnBytes(w, s, conn, data, at).0;
    if !s.env.closed && FindConn(s.conns, conn).Some? {
      var k := FindConn(s.conns, conn).value;
      var e := s.env.(now := at);
      InvFields(w, s, k);
      SettingsAside(w, s, e);
      InvFields(w, s.(env := e), k);
      Delivery.TakeBytesFollowed(w, e, s.conns[k], data, at);
      Serving.TakeBytesKept(w, e, s.conns[k], data, at);
      var (f, d, status) := TakeBytes(w, e, s.conns[k], data, at);
      Serving.KeptFields(e, s.conns[k], f, d);
      FindSame(s.conns, t.conns, id, 0);
      Resuming.FoundFrom(s.conns, t.conns, id);
      FindOne(s.conns, k, id);
    }
  }

  /** Two ids are not in one slot. */
  lemma FindOne(conns: seq<Conn>, k: nat, id: nat)
    requires k < |conns| && conns[k].used
    ensures FindConn(conns, id) == Some(k) ==> conns[k].info.conn == id
  {
  }

  /** The server opens the connection: it is up, the id can name one and is not in use, and there is a slot. */
  predicate Opens(s: Server, id: nat) {
    !s.env.closed && id != 0 && id != 0xffff_ffff && BytesOf(s, id) == None && exists k :: 0 <= k < |s.conns| && !s.conns[k].used
  }

  lemma OpenOffers(w: World, s: Server, conn: nat, at: int, id: nat)
    requires Inv(w, s) && s.env.log.cap > 0
    ensures var (t, status) := Open(w, s, conn, [], at);
            && Inv(w, t) && t.env.closed == s.env.closed
            && (status == P.Ok <==> Opens(s, conn))
            && BytesOf(t, id) == if Opens(s, conn) && id == conn then Some([]) else BytesOf(s, id)
  {
    hide Inv, FindConn, FreeFrom, SayConnection, Announce, Field, CStr;
    OpenKeeps(w, s, conn, [], at);
    var (t, status) := Open(w, s, conn, [], at);
    var free := FreeFrom(s.conns, 0);
    if status == P.Ok {
      var k, c, e := free.value, Fresh(conn, [], at), s.env.(now := at);
      Lives.SayConnectionLives(w, e, conn, ConnectionOpened(c.info), at, conn);
      AnnounceClosed(w, SayConnection(w, e, conn, ConnectionOpened(c.info), at), conn, at);
      FindOpened(s.conns, k, c, id);
      assert !s.conns[k].used;
    }
  }

  lemma AnnounceClosed(w: World, e: Env, id: nat, at: int)
    requires e.log.cap > 0
    ensures Announce(w, e, id, at).closed == e.closed
  {
    hide SendPlayer, SendSession, Serving.Kept, HasAnything;
    var c := NO_CONN.(info := NO_CONN.info.(conn := id));
    SendPlayerKept(w, e, c, e.player, OnConnect, at);
    var e1 := SendPlayer(w, e, id, e.player, OnConnect, at);
    Serving.KeptFields(e, c, e1, c);
    SendSessionKept(w, e, c, SessionActive, OnConnect, at);
    Serving.KeptFields(e, c, SendSession(w, e, id, SessionActive, OnConnect, at), c);
    SendSessionKept(w, e1, c, SessionActive, OnConnect, at);
    Serving.KeptFields(e1, c, SendSession(w, e1, id, SessionActive, OnConnect, at), c);
  }

  /** A free slot filled. */
  lemma FindOpened(conns: seq<Conn>, k: nat, c: Conn, id: nat)
    requires k < |conns| && !conns[k].used && c.used && FindConn(conns, c.info.conn) == None
    ensures var t := conns[k := c];
            FindConn(t, id) == if id == c.info.conn then Some(k) else FindConn(conns, id)
    ensures FindConn(conns, id).Some? ==> FindConn(conns, id).value != k
  {
    var t := conns[k := c];
    FindWith(conns, k, c, id, 0);
  }

  lemma {:induction false} FindWith(conns: seq<Conn>, k: nat, c: Conn, id: nat, i: nat)
    requires k < |conns| && !conns[k].used && c.used && FindConn(conns, c.info.conn) == None && i <= |conns|
    ensures FindFrom(conns[k := c], id, i)
         == if id == c.info.conn then (if i <= k then Some(k) else None) else FindFrom(conns, id, i)
    decreases |conns| - i
  {
    hide FindConn;
    if i < |conns| {
      FindWith(conns, k, c, id, i + 1);
    }
  }

  /** A slot given back. */
  lemma {:induction false} FindShut(conns: seq<Conn>, k: nat, id: nat, i: nat)
    requires k < |conns| && conns[k].used && Distinct(conns) && i <= |conns|
    ensures FindFrom(conns[k := conns[k].(used := false)], id, i)
         == if id == conns[k].info.conn then None else FindFrom(conns, id, i)
    decreases |conns| - i
  {
    if i < |conns| {
      FindShut(conns, k, id, i + 1);
    }
  }

  lemma CloseOffers(w: World, s: Server, conn: nat, at: int, id: nat)
    requires Inv(w, s) && s.env.log.cap > 0
    ensures var t := Closed(w, s, conn, RemoteClosed, at).0;
            && Inv(w, t) && t.env.closed == s.env.closed
            && BytesOf(t, id) == if id == conn && !s.env.closed then None else BytesOf(s, id)
  {
    hide Inv, SayConnection, DropWritesFor, FindFrom;
    ClosedKeeps(w, s, conn, RemoteClosed, at);
    InvDistinct(w, s);
    if !s.env.closed && FindConn(s.conns, conn).Some? {
      var k := FindConn(s.conns, conn).value;
      var c, e := s.conns[k], s.env.(now := at);
      Lives.SayConnectionLives(w, e, c.info.conn, ConnectionClosed(c.info, RemoteClosed), at, conn);
      DropKeepsEnv(SayConnection(w, e, c.info.conn, ConnectionClosed(c.info, RemoteClosed), at), c.info.conn);
      FindShut(s.conns, k, id, 0);
      if id != conn {
        FindNot(s.conns, k, id);
      }
    }
  }

  lemma InvDistinct(w: World, s: Server)
    requires Inv(w, s)
    ensures Distinct(s.conns) && s.env.log.cap > 0
  {
    hide Logs.Logged, Captures.Captured, SlotInv, IdInv, Distinct;
  }

  /** Another id is in another slot. */
  lemma FindNot(conns: seq<Conn>, k: nat, id: nat)
    requires k < |conns| && conns[k].used && id != conns[k].info.conn
    ensures FindFrom(conns, id, 0) != Some(k)
  {
    hide FindFrom;
  }

  // --------------------------------------------------------------------------------------
  // One chunk
  // --------------------------------------------------------------------------------------

  lemma {:induction false} ResumedOffers(w: World, p: Play, conn: nat, at: int, n: nat, id: nat)
    requires S.Running(p.server) && Inv(w, p.server)
    ensures var q := Resumed(w, p, conn, at, n).0;
            && Inv(w, q.server) && q.server.env.closed == p.server.env.closed && q.ids == p.ids
            && BytesOf(q.server, id) == BytesOf(p.server, id)
    decreases n
  {
    hide Inv, OnBytes, AfterDrain, Scanned, FindConn;
    if n > 0 {
      var u := AfterDrain(p);
      DrainKeeps(w, p);
      DrainOffers(p, id);
      S.BytesLive(w, u.server, conn, [], at);
      BytesOffer(w, u.server, conn, [], at, id);
      NothingMore(BytesOf(u.server, id));
      ResumedOffers(w, u.(server := OnBytes(w, u.server, conn, [], at).0), conn, at, n - 1, id);
    }
  }

  lemma NothingMore(b: Option<seq<Byte>>)
    ensures b.Some? ==> b.value + [] == b.value
  {
  }

  lemma FedOffers(w: World, p: Play, conn: nat, data: seq<Byte>, at: int, rounds: nat, id: nat)
    requires S.Running(p.server) && Inv(w, p.server)
    ensures var q := Fed(w, p, conn, data, at, rounds).0;
            && Inv(w, q.server) && q.server.env.closed == p.server.env.closed && q.ids == p.ids
            && BytesOf(q.server, id) == if id == conn && !p.server.env.closed && BytesOf(p.server, id).Some?
                                        then Some(BytesOf(p.server, id).value + data) else BytesOf(p.server, id)
  {
    hide Inv, OnBytes, Resumed, Scanned, BytesOf;
    S.BytesLive(w, p.server, conn, data, at);
    BytesOffer(w, p.server, conn, data, at, id);
    ResumedOffers(w, p.(server := OnBytes(w, p.server, conn, data, at).0), conn, at, rounds, id);
  }

  /**
   * The first bytes of a connection open it, and it is held open here if there is room for its id.
   * Nothing else is opened, and no bytes are handed over.
   */
  lemma OpenedOffers(w: World, p: Play, conn: nat, at: int, id: nat)
    requires S.Running(p.server) && Inv(w, p.server)
    ensures var q := Opened(w, p, conn, at);
            var opens := conn !in p.ids && Opens(p.server, conn);
            && Inv(w, q.server) && q.server.env.closed == p.server.env.closed
            && q.ids == (if opens && |p.ids| < 64 then p.ids + [conn] else p.ids)
            && q.report.connections == p.report.connections + (if opens then 1 else 0)
            && BytesOf(q.server, id) == if opens && id == conn then Some([]) else BytesOf(p.server, id)
  {
    hide Inv, Open, AfterDrain, BytesOf, Opens, Scanned;
    if conn !in p.ids {
      OpenRuns(w, p.server, conn, at);
      OpenOffers(w, p.server, conn, at, id);
      var (t, status) := Open(w, p.server, conn, [], at);
      var u := if status == P.Ok then Listed(p.(server := t), conn) else p.(server := t);
      DrainKeeps(w, u);
      DrainOffers(u, id);
      DrainConnections(u);
    }
  }

  lemma DrainConnections(p: Play)
    requires S.Running(p.server)
    ensures AfterDrain(p).report.connections == p.report.connections
  {
    hide S.DrainWrites, S.DrainEvents, Produced, Happened, Messages, ShotsOf, FlagsOf, Errors, S.Running;
  }

  /** The line that says the connection was closed. */
  predicate IsClosing(c: R.Record, id: nat) {
    c.direction == META_LINE && c.conn == id && Ascii("CONNECTION_CLOSED") <= c.data
  }

  lemma ClosingIs(c: R.Record)
    ensures SaysClosed(c) <==> Ascii("CONNECTION_CLOSED") <= c.data
  {
    hide Ascii;
    if CLOSED_WORD <= c.data {
      assert c.data[..|CLOSED_WORD|] == CLOSED_WORD;
    }
  }

  lemma {:induction false} WithoutOther(ids: seq<nat>, conn: nat, id: nat)
    ensures id != conn ==> (id in WithoutFirst(ids, conn) <==> id in ids)
    ensures |WithoutFirst(ids, conn)| <= |ids|
  {
    if ids != [] && ids[0] != conn {
      WithoutOther(ids[1..], conn, id);
      assert ids == [ids[0]] + ids[1..];
    } else if ids != [] {
      assert ids == [ids[0]] + ids[1..];
    }
  }

  /** What one chunk hands over for a connection held open, whichever connection it is of. */
  lemma ChunkOffers(w: World, p: Play, c: R.Record, rounds: nat, id: nat)
    requires S.Running(p.server) && Inv(w, p.server) && !p.server.env.closed
    requires id in p.ids && BytesOf(p.server, id).Some? && !IsClosing(c, id)
    ensures var q := ChunkStep(w, p, c, rounds).0;
            && Inv(w, q.server) && !q.server.env.closed && id in q.ids
            && BytesOf(q.server, id)
               == Some(BytesOf(p.server, id).value + if c.direction == TO_SERVER && c.conn == id then c.data else [])
  {
    hide Inv, Opened, Fed, AfterDrain, Closed, BytesOf, Compared, Scanned, SaysClosed, Opens;
    NothingMore(BytesOf(p.server, id));
    ClosingIs(c);
    var u := Seen(p, c);
    if c.direction == TO_SERVER {
      var v := u.(report := u.report.(client := u.report.client + 1));
      OpenedOffers(w, v, c.conn, c.at, id);
      AlreadyOpen(p.server, id);
      var x := Opened(w, v, c.conn, c.at);
      FedOffers(w, x, c.conn, c.data, c.at, rounds, id);
      var (y, done) := Fed(w, x, c.conn, c.data, c.at, rounds);
      DrainKeeps(w, y);
      DrainOffers(y, id);
    } else if c.direction == TO_CLIENT {
      DrainKeeps(w, u);
      DrainOffers(u, id);
      ComparedServer(w, AfterDrain(u), c);
    } else if c.direction == META_LINE && SaysClosed(c) && c.conn in u.ids {
      CloseRuns(w, u.server, c.conn, c.at);
      InvDistinct(w, u.server);
      CloseOffers(w, u.server, c.conn, c.at, id);
      WithoutOther(u.ids, c.conn, id);
      var v := u.(report := u.report.(meta := u.report.meta + 1),
                  server := Closed(w, u.server, c.conn, RemoteClosed, c.at).0, ids := WithoutFirst(u.ids, c.conn));
      DrainKeeps(w, v);
      DrainOffers(v, id);
    }
  }

  lemma AlreadyOpen(s: Server, id: nat)
    ensures BytesOf(s, id).Some? ==> !Opens(s, id)
  {
  }

  lemma ComparedServer(w: World, p: Play, c: R.Record)
    ensures forall n: nat :: var q := Compared(w, p.(report := p.report.(server := n)), c); q.server == p.server && q.ids == p.ids
  {
    hide Judgement, Decode.DecodeResponse;
  }

  /** The client's bytes of one connection among the chunks. */
  function ClientBytes(rs: seq<R.Record>, id: nat): seq<Byte> {
    if rs == [] then []
    else
      var c := rs[|rs| - 1];
      ClientBytes(rs[..|rs| - 1], id) + if c.direction == TO_SERVER && c.conn == id then c.data else []
  }

  /**
   * From when a connection is held open until the line that says it was closed the server is offered
   * exactly the bytes recorded of it, in order, each chunk's once, however often it had to be resumed;
   * and it is at all times a server like any other.
   */
  lemma {:induction false} ClientBytesArrive(w: World, p: Play, rs: seq<R.Record>, rounds: nat, id: nat)
    requires S.Running(p.server) && Inv(w, p.server) && !p.server.env.closed
    requires id in p.ids && BytesOf(p.server, id).Some? && forall i :: 0 <= i < |rs| ==> !IsClosing(rs[i], id)
    ensures var (q, done) := ChunkSteps(w, p, rs, rounds);
            && Inv(w, q.server) && !q.server.env.closed && id in q.ids && BytesOf(q.server, id).Some?
            && (done ==> BytesOf(q.server, id).value == BytesOf(p.server, id).value + ClientBytes(rs, id))
    decreases |rs|
  {
    hide Inv, ChunkStep, BytesOf, IsClosing, S.Running;
    if rs == [] {
      NothingMore(BytesOf(p.server, id));
    } else {
      var n := |rs| - 1;
      ClientBytesArrive(w, p, rs[..n], rounds, id);
      var (u, done) := ChunkSteps(w, p, rs[..n], rounds);
      if done {
        ChunkOffers(w, u, rs[n], rounds, id);
        var more := if rs[n].direction == TO_SERVER && rs[n].conn == id then rs[n].data else [];
        assert BytesOf(p.server, id).value + ClientBytes(rs[..n], id) + more
            == BytesOf(p.server, id).value + (ClientBytes(rs[..n], id) + more);
      }
    }
  }

  /** The first chunk of a connection opens it and hands its bytes over. */
  lemma FirstBytesArrive(w: World, p: Play, c: R.Record, rounds: nat)
    requires S.Running(p.server) && Inv(w, p.server)
    requires c.direction == TO_SERVER && c.conn !in p.ids && Opens(p.server, c.conn) && |p.ids| < 64
    ensures var q := ChunkStep(w, p, c, rounds).0;
            && Inv(w, q.server) && q.ids == p.ids + [c.conn] && q.report.connections == p.report.connections + 1
            && BytesOf(q.server, c.conn) == Some(c.data)
  {
    hide Inv, Opened, Fed, AfterDrain, BytesOf, Scanned;
    var u := Seen(p, c);
    var v := u.(report := u.report.(client := u.report.client + 1));
    OpenedOffers(w, v, c.conn, c.at, c.conn);
    var x := Opened(w, v, c.conn, c.at);
    FedOffers(w, x, c.conn, c.data, c.at, rounds, c.conn);
    var (y, done) := Fed(w, x, c.conn, c.data, c.at, rounds);
    DrainKeeps(w, y);
    DrainOffers(y, c.conn);
    DrainConnections(y);
    FedConnections(w, x, c.conn, c.data, c.at, rounds);
    assert [] + c.data == c.data;
  }

  /** A line that says a connection was closed closes it, and its id is held open no more. */
  lemma ClosingCloses(w: World, p: Play, c: R.Record, rounds: nat)
    requires S.Running(p.server) && Inv(w, p.server) && !p.server.env.closed
    requires IsClosing(c, c.conn) && c.conn in p.ids && Once(p.ids, c.conn)
    ensures var q := ChunkStep(w, p, c, rounds).0;
            Inv(w, q.server) && BytesOf(q.server, c.conn) == None && c.conn !in q.ids
  {
    hide Inv, AfterDrain, Closed, BytesOf, Scanned, SaysClosed, IsClosing;
    ClosingSays(c);
    var u := Seen(p, c);
    CloseRuns(w, u.server, c.conn, c.at);
    InvDistinct(w, u.server);
    CloseOffers(w, u.server, c.conn, c.at, c.conn);
    WithoutOnce(u.ids, c.conn);
    var v := u.(report := u.report.(meta := u.report.meta + 1),
                server := Closed(w, u.server, c.conn, RemoteClosed, c.at).0, ids := WithoutFirst(u.ids, c.conn));
    DrainKeeps(w, v);
    DrainOffers(v, c.conn);
  }

  lemma ClosingSays(c: R.Record)
    requires IsClosing(c, c.conn)
    ensures c.direction == META_LINE && SaysClosed(c)
  {
    hide Ascii;
    ClosingIs(c);
  }

  predicate Once(ids: seq<nat>, id: nat) {
    forall i, j :: 0 <= i < j < |ids| && ids[i] == id ==> ids[j] != id
  }

  lemma {:induction false} WithoutOnce(ids: seq<nat>, id: nat)
    requires Once(ids, id)
    ensures id !in WithoutFirst(ids, id)
  {
    if ids != [] && ids[0] != id {
      WithoutOnce(ids[1..], id);
    }
  }

  lemma {:induction false} ResumedConnections(w: World, p: Play, conn: nat, at: int, n: nat)
    requires S.Running(p.server)
    ensures Resumed(w, p, conn, at, n).0.report.connections == p.report.connections
    decreases n
  {
    hide OnBytes, AfterDrain, Scanned;
    if n > 0 {
      var u := AfterDrain(p);
      DrainConnections(p);
      S.BytesLive(w, u.server, conn, [], at);
      ResumedConnections(w, u.(server := OnBytes(w, u.server, conn, [], at).0), conn, at, n - 1);
    }
  }

  lemma FedConnections(w: World, p: Play, conn: nat, data: seq<Byte>, at: int, rounds: nat)
    requires S.Running(p.server)
    ensures Fed(w, p, conn, data, at, rounds).0.report.connections == p.report.connections
  {
    hide OnBytes, Resumed, Scanned;
    S.BytesLive(w, p.server, conn, data, at);
    ResumedConnections(w, p.(server := OnBytes(w, p.server, conn, data, at).0), conn, at, rounds);
  }

  // --------------------------------------------------------------------------------------
  // At the recorded time
  // --------------------------------------------------------------------------------------

  lemma DrainAt(p: Play)
    requires S.Running(p.server)
    ensures AfterDrain(p).server.env.now == p.server.env.now
  {
    S.DrainedOn(p.server);
  }

  lemma BytesAt(w: World, s: Server, conn: nat, data: seq<Byte>, at: int)
    requires Inv(w, s) && Scanned(s)
    ensures OnBytes(w, s, conn, data, at).0.env.now
         == if !s.env.closed && BytesOf(s, conn).Some? then at else s.env.now
  {
    hide Inv, TakeBytes, Serving.Kept, FindConn;
    if !s.env.closed && FindConn(s.conns, conn).Some? {
      var k := FindConn(s.conns, conn).value;
      var e := s.env.(now := at);
      InvFields(w, s, k);
      Serving.TakeBytesKept(w, e, s.conns[k], data, at);
      var (f, d, status) := TakeBytes(w, e, s.conns[k], data, at);
      Serving.KeptFields(e, s.conns[k], f, d);
    }
  }

  lemma {:induction false} ResumedAt(w: World, p: Play, conn: nat, at: int, n: nat)
    requires S.Running(p.server) && Inv(w, p.server) && p.server.env.now == at
    ensures Resumed(w, p, conn, at, n).0.server.env.now == at
    decreases n
  {
    hide Inv, OnBytes, AfterDrain, BytesOf, Scanned;
    if n > 0 {
      var u := AfterDrain(p);
      DrainKeeps(w, p);
      DrainAt(p);
      InvIsScanned(w, u.server);
      S.BytesLive(w, u.server, conn, [], at);
      BytesAt(w, u.server, conn, [], at);
      BytesOffer(w, u.server, conn, [], at, conn);
      ResumedAt(w, u.(server := OnBytes(w, u.server, conn, [], at).0), conn, at, n - 1);
    }
  }

  /** A chunk from a client that is open here, or comes to be, leaves the server at the time it was recorded. */
  lemma ClientChunkDated(w: World, p: Play, c: R.Record, rounds: nat)
    requires S.Running(p.server) && Inv(w, p.server) && !p.server.env.closed && c.direction == TO_SERVER
    ensures var q := ChunkStep(w, p, c, rounds).0;
            BytesOf(q.server, c.conn).Some? ==> q.server.env.now == c.at
  {
    hide Inv, Opened, Resumed, AfterDrain, BytesOf, Scanned, OnBytes, Opens;
    var u := Seen(p, c);
    var v := u.(report := u.report.(client := u.report.client + 1));
    OpenedOffers(w, v, c.conn, c.at, c.conn);
    var x := Opened(w, v, c.conn, c.at);
    InvIsScanned(w, x.server);
    S.BytesLive(w, x.server, c.conn, c.data, c.at);
    FedOffers(w, x, c.conn, c.data, c.at, rounds, c.conn);
    BytesAt(w, x.server, c.conn, c.data, c.at);
    BytesOffer(w, x.server, c.conn, c.data, c.at, c.conn);
    if BytesOf(x.server, c.conn).Some? {
      ResumedAt(w, x.(server := OnBytes(w, x.server, c.conn, c.data, c.at).0), c.conn, c.at, rounds);
    }
    var y := Fed(w, x, c.conn, c.data, c.at, rounds).0;
    DrainAt(y);
    DrainOffers(y, c.conn);
  }
}
