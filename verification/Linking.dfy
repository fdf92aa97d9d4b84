/** What ties a transport's table to the server: the same ids open, the same requests polled. */
module Linking {
  import opened Bytes
  import opened Events
  import opened EventLog
  import P = Protocol
  import opened Hub
  import opened Conns
  import opened Lives
  import opened Mails
  import opened Serving
  import opened Server
  import opened Runs
  import Promises

  /** What a non-blocking send may do: take some bytes, or none for now, or fail. */
  datatype Outcome = Took(n: nat) | WouldBlock | Broken

  /**
   * One slot of the transport. History: every request polled for its connection, every byte its
   * socket has accepted, and what the socket answered to each send. `waiting` is its queue, `offset` how far the first of it is sent, and
   * `wants` says that the socket is to be watched for when it takes more.
   */
  datatype Peer = Peer(inUse: bool, conn: nat, waiting: seq<Write>, offset: nat, wants: bool,
                       polled: seq<Write>, sent: seq<Byte>, answers: seq<Outcome>)

  const NO_PEER: Peer := Peer(false, 0, [], 0, false, [], [], [])

  function Bodies(ws: seq<Write>): seq<Byte> {
    if ws == [] then [] else Bodies(ws[..|ws| - 1]) + ws[|ws| - 1].data
  }

  lemma BodiesSnoc(ws: seq<Write>, x: Write)
    ensures Bodies(ws + [x]) == Bodies(ws) + x.data
  {
    assert (ws + [x])[..|ws|] == ws;
  }

  lemma {:induction false} BodiesConcat(a: seq<Write>, b: seq<Write>)
    ensures Bodies(a + b) == Bodies(a) + Bodies(b)
    decreases |b|
  {
    if b == [] {
      assert a + b == a;
    } else {
      var k := |b| - 1;
      assert (a + b)[..|a + b| - 1] == a + b[..k];
      BodiesConcat(a, b[..k]);
      assert Bodies(a) + (Bodies(b[..k]) + b[k].data) == Bodies(a) + Bodies(b[..k]) + b[k].data;
    }
  }

  /** The part of the first waiting request that is sent already. */
  function Begun(p: Peer): seq<Byte>
    requires p.waiting != [] ==> p.offset <= |p.waiting[0].data|
  {
    if p.waiting == [] then [] else p.waiting[0].data[..p.offset]
  }

  /** The queue is the end of what was polled, and what was sent is everything before it. */
  predicate Flowing(p: Peer) {
    && |p.waiting| <= |p.polled| && p.waiting == p.polled[|p.polled| - |p.waiting|..]
    && (if p.waiting == [] then p.offset == 0 else p.offset <= |p.waiting[0].data|)
    && p.sent == Bodies(p.polled[..|p.polled| - |p.waiting|]) + Begun(p)
  }

  /** What the socket has not accepted yet. */
  function Unsent(p: Peer): seq<Byte>
    requires p.waiting != [] ==> p.offset <= |p.waiting[0].data|
  {
    if p.waiting == [] then [] else p.waiting[0].data[p.offset..] + Bodies(p.waiting[1..])
  }

  lemma Regroup(a: seq<Byte>, x: seq<Byte>, y: seq<Byte>, b: seq<Byte>)
    ensures a + x + (y + b) == a + ((x + y) + b)
  {
  }

  lemma BodiesOfFirst(ws: seq<Write>)
    requires ws != []
    ensures Bodies(ws) == ws[0].data + Bodies(ws[1..])
  {
    hide Bodies;
    assert ws == [ws[0]] + ws[1..];
    BodiesConcat([ws[0]], ws[1..]);
    BodiesSnoc([], ws[0]);
    assert [] + [ws[0]] == [ws[0]] && Bodies([]) == [] by { NoBodies(); }
  }

  lemma NoBodies()
    ensures Bodies([]) == []
  {
  }

  /** Whatever the socket did: bytes accepted, then bytes unsent, are all requests polled, end to end. */
  lemma NothingLostNothingTwice(p: Peer)
    requires Flowing(p)
    ensures p.sent + Unsent(p) == Bodies(p.polled)
  {
    hide Bodies;
    var done := p.polled[..|p.polled| - |p.waiting|];
    assert p.polled == done + p.waiting;
    BodiesConcat(done, p.waiting);
    if p.waiting == [] {
      NoBodies();
    } else {
      var x := p.waiting[0].data;
      BodiesOfFirst(p.waiting);
      Regroup(Bodies(done), x[..p.offset], x[p.offset..], Bodies(p.waiting[1..]));
      assert x[..p.offset] + x[p.offset..] == x;
    }
  }

  /** Another request into the queue. */
  function Enqueued(p: Peer, x: Write): Peer {
    p.(waiting := p.waiting + [x], polled := p.polled + [x])
  }

  lemma EnqueuedFlows(p: Peer, x: Write)
    requires Flowing(p)
    ensures Flowing(Enqueued(p, x))
  {
    var q := Enqueued(p, x);
    var k := |p.polled| - |p.waiting|;
    assert q.polled[k..] == p.polled[k..] + [x];
    assert q.polled[..k] == p.polled[..k];
    if p.waiting == [] {
      assert x.data[..0] == [];
    } else {
      assert q.waiting[0] == p.waiting[0];
    }
  }

  /** `n` more bytes of the first request accepted: never beyond its end. */
  function Accepted(p: Peer, n: nat): Peer
    requires p.waiting != [] && p.offset + n <= |p.waiting[0].data|
  {
    var x := p.waiting[0];
    var more := p.sent + x.data[p.offset..p.offset + n];
    if p.offset + n < |x.data| then p.(sent := more, offset := p.offset + n)
    else p.(sent := more, offset := 0, waiting := p.waiting[1..])
  }

  /** The first request not finished: the split point within it moves. */
  lemma PartFlows(p: Peer, n: nat)
    requires Flowing(p) && p.waiting != [] && p.offset + n < |p.waiting[0].data|
    ensures Flowing(Accepted(p, n))
  {
    hide Bodies;
    var x := p.waiting[0].data;
    assert x[..p.offset] + x[p.offset..p.offset + n] == x[..p.offset + n];
  }

  /** The first request finished: the split point moves behind it. */
  lemma WholeFlows(p: Peer)
    requires Flowing(p) && p.waiting != [] && p.offset <= |p.waiting[0].data|
    ensures Flowing(Accepted(p, |p.waiting[0].data| - p.offset))
  {
    hide Bodies;
    var x, k := p.waiting[0], |p.polled| - |p.waiting|;
    var q := Accepted(p, |x.data| - p.offset);
    assert x.data[..p.offset] + x.data[p.offset..] == x.data;
    assert x.data[p.offset..|x.data|] == x.data[p.offset..];
    assert p.polled[k] == x && p.polled[..k + 1] == p.polled[..k] + [x];
    BodiesSnoc(p.polled[..k], x);
    assert q.waiting == p.polled[k + 1..];
    assert q.sent == Bodies(q.polled[..k + 1]) + [];
    if q.waiting != [] {
      assert q.waiting[0].data[..0] == [];
    }
  }

  lemma AcceptedFlows(p: Peer, n: nat)
    requires Flowing(p) && p.waiting != [] && p.offset + n <= |p.waiting[0].data|
    ensures Flowing(Accepted(p, n))
  {
    hide Flowing, Accepted;
    if p.offset + n < |p.waiting[0].data| {
      PartFlows(p, n);
    } else {
      WholeFlows(p) by { FlowingOffset(p); }
    }
  }

  lemma FlowingOffset(p: Peer)
    requires Flowing(p) && p.waiting != []
    ensures Flowing(p) && p.offset <= |p.waiting[0].data|
  {
  }

  // --------------------------------------------------------------------------------------
  // The table and the server
  // --------------------------------------------------------------------------------------

  predicate InTable(table: seq<Peer>, id: nat) {
    exists i :: 0 <= i < |table| && table[i].inUse && table[i].conn == id
  }

  predicate OneEach(table: seq<Peer>) {
    forall i, j :: 0 <= i < j < |table| && table[i].inUse && table[j].inUse ==> table[i].conn != table[j].conn
  }

  predicate Agrees(s: Server, table: seq<Peer>, id: nat) {
    IsOpen(s.conns, id) <==> InTable(table, id)
  }

  /** One slot: its bytes flow, and it was handed exactly what the server says was polled. */
  predicate Handed(s: Server, p: Peer) {
    p.inUse ==> Flowing(p) && EnvMail(s.env, p.conn).polled == p.polled
  }

  ghost predicate Linked(w: World, s: Server, table: seq<Peer>) {
    && Inv(w, s) && OneEach(table)
    && (forall id: nat :: Agrees(s, table, id))
    && (forall i :: 0 <= i < |table| ==> Handed(s, table[i]))
  }

  /** The server moved on, with the same ids open and the same requests polled for them. */
  predicate StillSame(s: Server, t: Server, id: nat) {
    IsOpen(t.conns, id) == IsOpen(s.conns, id) && EnvMail(t.env, id).polled == EnvMail(s.env, id).polled
  }

  lemma LinkedStill(w: World, s: Server, t: Server, table: seq<Peer>)
    requires Linked(w, s, table) && Inv(w, t) && forall id: nat :: StillSame(s, t, id)
    ensures Linked(w, t, table)
  {
    hide Inv, IsOpen, InTable, EnvMail, Flowing, OneEach;
    forall id: nat
      ensures Agrees(t, table, id)
    {
      assert Agrees(s, table, id) && StillSame(s, t, id);
    }
    forall i | 0 <= i < |table|
      ensures Handed(t, table[i])
    {
      assert Handed(s, table[i]) && StillSame(s, t, table[i].conn);
    }
  }

  lemma LinkedInv(w: World, s: Server, table: seq<Peer>)
    requires Linked(w, s, table)
    ensures Inv(w, s)
  {
  }

  // --------------------------------------------------------------------------------------
  // The server's calls
  // --------------------------------------------------------------------------------------

  lemma KeptPolled(e: Env, c: Conn, f: Env, d: Conn, id: nat)
    requires Kept(e, c, f, d)
    ensures EnvMail(f, id).polled == EnvMail(e, id).polled
  {
    hide Attuned, InOrder, EnvLife, For, Logs.Logged, EnvMail;
    assert Beside(e, f, c.info.conn, id);
  }

  lemma BytesLinked(w: World, s: Server, table: seq<Peer>, id: nat, data: seq<Byte>, now: int)
    requires Linked(w, s, table) && Scanned(s)
    ensures Linked(w, OnBytes(w, s, id, data, now).0, table)
  {
    hide Inv, TakeBytes, Kept, FindConn, IsOpen, EnvMail, Linked;
    LinkedInv(w, s, table);
    OnBytesKeeps(w, s, id, data, now);
    var t := OnBytes(w, s, id, data, now).0;
    forall j: nat
      ensures StillSame(s, t, j)
    {
      if !s.env.closed && FindConn(s.conns, id).Some? {
        var k := FindConn(s.conns, id).value;
        var e := s.env.(now := now);
        InvFields(w, s, k);
        TakeBytesKept(w, e, s.conns[k], data, now);
        var (f, d, status) := TakeBytes(w, e, s.conns[k], data, now);
        KeptPolled(e, s.conns[k], f, d, j);
        KeptShape(e, s.conns[k], f, d);
        OpenStays(s.conns, k, d, j);
        SameTrace(s.env, e, j);
      }
    }
    LinkedStill(w, s, t, table) by { StillLinked(w, s, t, table); }
  }

  lemma KeptShape(e: Env, c: Conn, f: Env, d: Conn)
    requires Kept(e, c, f, d)
    ensures d.used == c.used && d.info.conn == c.info.conn && f.cfg == e.cfg && f.log.cap == e.log.cap
  {
    hide Attuned, Beside;
  }

  lemma StillLinked(w: World, s: Server, t: Server, table: seq<Peer>)
    requires Linked(w, s, table)
    ensures Linked(w, s, table)
  {
  }

  lemma SameTrace(e: Env, f: Env, id: nat)
    requires f.trace == e.trace && f.cfg == e.cfg
    ensures EnvMail(f, id) == EnvMail(e, id)
  {
  }

  lemma {:induction false} TickFromTrace(s: Server, k: nat, now: int, id: nat)
    requires k <= |s.conns|
    ensures var t := TickFrom(s, k, now);
            t.env.trace == s.env.trace && t.env.cfg == s.env.cfg && IsOpen(t.conns, id) == IsOpen(s.conns, id)
    decreases |s.conns| - k
  {
    hide Say, IdleDeadline, IsOpen;
    if k < |s.conns| {
      var c := s.conns[k];
      Logs.SayKeeps(s.env, c.info.conn, now, ClientIdle);
      if c.used && IdleDeadline(s.env.cfg.policy, c) <= now {
        OpenStays(s.conns, k, c.(idleReported := true), id);
        TickFromTrace(Server(Say(s.env, c.info.conn, now, ClientIdle), s.conns[k := c.(idleReported := true)]), k + 1, now, id);
      } else {
        TickFromTrace(s, k + 1, now, id);
      }
    }
  }

  lemma TickLinked(w: World, s: Server, table: seq<Peer>, now: int)
    requires Linked(w, s, table) && now < TIME_NEVER
    ensures Linked(w, Tick(s, now), table)
  {
    hide Inv, IsOpen, EnvMail, Linked, TickFrom;
    LinkedInv(w, s, table);
    TickKeeps(w, s, now);
    forall j: nat
      ensures StillSame(s, Tick(s, now), j)
    {
      if !s.env.closed {
        TickFromTrace(At(s, now), 0, now, j);
        SameTrace(s.env, Tick(s, now).env, j);
      }
    }
    LinkedStill(w, s, Tick(s, now), table);
  }

  // --------------------------------------------------------------------------------------
  // Opening and closing
  // --------------------------------------------------------------------------------------

  lemma TableSet(table: seq<Peer>, i: nat, p: Peer, id: nat)
    requires i < |table| && OneEach(table)
    requires p.inUse ==> !InTable(table, p.conn) || (table[i].inUse && table[i].conn == p.conn)
    ensures OneEach(table[i := p])
    ensures InTable(table[i := p], id)
         == ((InTable(table, id) && !(table[i].inUse && table[i].conn == id)) || (p.inUse && p.conn == id))
  {
    var t := table[i := p];
    if InTable(t, id) {
      var j :| 0 <= j < |t| && t[j].inUse && t[j].conn == id;
      if j != i {
        assert table[j].inUse && table[j].conn == id;
      }
    }
    if InTable(table, id) && !(table[i].inUse && table[i].conn == id) {
      var j :| 0 <= j < |table| && table[j].inUse && table[j].conn == id;
      assert t[j].inUse && t[j].conn == id;
    }
    if p.inUse && p.conn == id {
      assert t[i].inUse && t[i].conn == id;
    }
    forall a, b | 0 <= a < b < |t| && t[a].inUse && t[b].inUse
      ensures t[a].conn != t[b].conn
    {
      if a == i {
        assert table[b].inUse && table[b].conn == t[b].conn;
      } else if b == i {
        assert table[a].inUse && table[a].conn == t[a].conn;
      }
    }
  }

  lemma OpenedPolled(w: World, s: Server, id: nat, peer: seq<Byte>, now: int, j: nat)
    requires Inv(w, s) && Open(w, s, id, peer, now).1 == P.Ok
    ensures var t := Open(w, s, id, peer, now).0;
            && EnvMail(t.env, j).polled == EnvMail(s.env, j).polled
            && IsOpen(t.conns, j) == (IsOpen(s.conns, j) || j == id)
            && !IsOpen(s.conns, id) && EnvMail(s.env, id).polled == []
  {
    hide SayConnection, SendPlayer, SendSession, Kept, IsOpen, EnvMail, Fresh, Message.HasAnything, FindConn, FreeFrom, Inv;
    InvConfig(w, s);
    NotOpen(s.conns, id);
    ClosedIdHasNone(w, s, id);
    var k := FreeFrom(s.conns, 0).value;
    var c := Fresh(id, peer, now);
    FreshFields(id, peer, now);
    var e := s.env.(now := now);
    var e1 := SayConnection(w, e, id, ConnectionOpened(c.info), now);
    SayConnectionLives(w, e, id, ConnectionOpened(c.info), now, id);
    SameTrace(s.env, e1, j);
    OpenAt(s.conns, k, c, j);
    AnnouncePolled(w, e1, id, now, j);
  }

  lemma ClosedIdHasNone(w: World, s: Server, id: nat)
    requires Inv(w, s) && !IsOpen(s.conns, id)
    ensures EnvMail(s.env, id).polled == []
  {
    hide Logs.Logged, SlotInv, IsOpen, MailOf, For;
    assert IdInv(s.env, IsOpen(s.conns, id), id);
  }

  lemma AnnouncePolled(w: World, e: Env, id: nat, now: int, j: nat)
    requires e.log.cap > 0
    ensures EnvMail(Announce(w, e, id, now), j).polled == EnvMail(e, j).polled
  {
    hide SendPlayer, SendSession, Kept, EnvMail, Message.HasAnything;
    var c := NO_CONN.(info := NO_CONN.info.(conn := id));
    var e1 := SendPlayer(w, e, id, e.player, OnConnect, now);
    SendPlayerKept(w, e, c, e.player, OnConnect, now);
    KeptPolled(e, c, e1, c, j);
    KeptShape(e, c, e1, c);
    SendSessionKept(w, e, c, SessionActive, OnConnect, now);
    KeptPolled(e, c, SendSession(w, e, id, SessionActive, OnConnect, now), c, j);
    SendSessionKept(w, e1, c, SessionActive, OnConnect, now);
    KeptPolled(e1, c, SendSession(w, e1, id, SessionActive, OnConnect, now), c, j);
  }

  /** A slot filled with the connection the server has just opened. */
  lemma OpenLinked(w: World, s: Server, table: seq<Peer>, i: nat, id: nat, peer: seq<Byte>, now: int)
    requires Linked(w, s, table) && i < |table| && !table[i].inUse && Open(w, s, id, peer, now).1 == P.Ok
    ensures Linked(w, Open(w, s, id, peer, now).0, table[i := NO_PEER.(inUse := true, conn := id)])
  {
    hide Inv, Open, IsOpen, InTable, EnvMail, OneEach, Flowing;
    var t, p := Open(w, s, id, peer, now).0, NO_PEER.(inUse := true, conn := id);
    var after := table[i := p];
    OpenKeeps(w, s, id, peer, now);
    OpenedPolled(w, s, id, peer, now, id);
    assert Agrees(s, table, id);
    assert Flowing(p) by { NewFlows(id); }
    forall j: nat
      ensures Agrees(t, after, j)
    {
      assert Agrees(s, table, j);
      OpenedPolled(w, s, id, peer, now, j);
      TableSet(table, i, p, j);
    }
    TableSet(table, i, p, id);
    forall k | 0 <= k < |table|
      ensures Handed(t, after[k])
    {
      assert Handed(s, table[k]);
      OpenedPolled(w, s, id, peer, now, after[k].conn);
    }
  }

  lemma NewFlows(id: nat)
    ensures Flowing(NO_PEER.(inUse := true, conn := id))
  {
  }

  lemma OpenRefused(w: World, s: Server, id: nat, peer: seq<Byte>, now: int)
    requires Open(w, s, id, peer, now).1 != P.Ok
    ensures Open(w, s, id, peer, now).0 == s
  {
    hide SayConnection, Announce;
  }

  lemma ShutPolled(w: World, s: Server, k: nat, cause: CloseCause, at: int, j: nat)
    requires Inv(w, s) && k < |s.conns| && s.conns[k].used && j != s.conns[k].info.conn
    ensures EnvMail(Shut(w, s, k, cause, at).env, j).polled == EnvMail(s.env, j).polled
  {
    hide SayConnection, MailOf, Kept, For, Inv, Orderly;
    InvConfig(w, s);
    var c := s.conns[k];
    var e := SayConnection(w, s.env, c.info.conn, ConnectionClosed(c.info, cause), at);
    SayConnectionLives(w, s.env, c.info.conn, ConnectionClosed(c.info, cause), at, j);
    DropKeepsEnv(e, c.info.conn);
    MailSnoc(e.trace, Hub.Left(c.info.conn), j, e.cfg.policy.writeSpacing);
  }

  lemma InvDistinct(w: World, s: Server)
    requires Inv(w, s)
    ensures Distinct(s.conns)
  {
  }

  /** The slot given back when its connection is reported closed. */
  lemma CloseLinked(w: World, s: Server, table: seq<Peer>, i: nat, cause: CloseCause, now: int)
    requires Linked(w, s, table) && i < |table| && table[i].inUse && !s.env.closed
    ensures Linked(w, Closed(w, s, table[i].conn, cause, now).0, table[i := NO_PEER])
    ensures Closed(w, s, table[i].conn, cause, now).0.env.closed == s.env.closed
  {
    hide Inv, Shut, IsOpen, InTable, EnvMail, OneEach, Flowing, FindConn, Distinct;
    var id := table[i].conn;
    var after := table[i := NO_PEER];
    assert Agrees(s, table, id);
    assert InTable(table, id) by { SlotInTable(table, i); }
    FoundOpen(s.conns, id);
    ClosedKeeps(w, s, id, cause, now);
    var k := FindConn(s.conns, id).value;
    var s1 := At(s, now);
    SettingsAside(w, s, s1.env);
    var t := Shut(w, s1, k, cause, now);
    InvDistinct(w, s);
    ShutShape(w, s1, k, cause, now);
    forall j: nat
      ensures Agrees(t, after, j)
    {
      assert Agrees(s, table, j);
      ShutAt(s.conns, k, j);
      TableSet(table, i, NO_PEER, j);
    }
    TableSet(table, i, NO_PEER, id);
    forall n | 0 <= n < |table|
      ensures Handed(t, after[n])
    {
      assert Handed(s, table[n]);
      if n != i && table[n].inUse {
        OtherConn(table, i, n);
        ShutPolled(w, s1, k, cause, now, table[n].conn);
        SameTrace(s.env, s1.env, table[n].conn);
      }
    }
  }

  lemma SlotInTable(table: seq<Peer>, i: nat)
    requires i < |table| && table[i].inUse
    ensures InTable(table, table[i].conn)
  {
  }

  lemma OtherConn(table: seq<Peer>, i: nat, n: nat)
    requires OneEach(table) && i < |table| && n < |table| && i != n && table[i].inUse && table[n].inUse
    ensures table[i].conn != table[n].conn
  {
  }

  lemma ShutShape(w: World, s: Server, k: nat, cause: CloseCause, at: int)
    requires k < |s.conns|
    ensures Shut(w, s, k, cause, at).conns == s.conns[k := s.conns[k].(used := false)]
    ensures Shut(w, s, k, cause, at).env.closed == s.env.closed
  {
    hide WireAll, ChunksOf;
    var c := s.conns[k];
    var body := ConnectionClosed(c.info, cause);
    Logs.SayKeeps(s.env, c.info.conn, at, body);
    var e1 := Say(s.env, c.info.conn, at, body);
    var line := Upto(w.describe(Event(s.env.log.sequence, c.info.conn, at, body), s.env.cfg.policy.recordIdentifiers), META_MAX);
    Logs.WireBytesKeepsRest(e1, c.info.conn, Meta, Redact.Clear(line), at, !s.env.cfg.policy.recordIdentifiers);
  }

  // --------------------------------------------------------------------------------------
  // One request polled
  // --------------------------------------------------------------------------------------

  lemma {:induction false} PollOneOpen(s: Server, i: nat, j: nat)
    requires i <= |s.env.writes| && s.env.log.cap > 0
    ensures var (t, out) := PollWritesFrom(s, i, 1);
            && IsOpen(t.conns, j) == IsOpen(s.conns, j)
            && t.env.cfg == s.env.cfg && t.env.closed == s.env.closed
            && (out != [] ==> exists n :: 0 <= n < |s.env.writes| && s.env.writes[n] == out[0])
    decreases |s.env.writes| - i
  {
    hide HandOut, Held, IsOpen, Logs.Logged, EnvLife;
    if i < |s.env.writes| {
      if Held(s, s.env.writes[i]) {
        PollOneOpen(s, i + 1, j);
      } else {
        HandOutEnv(s, i);
        HandOutOpen(s, i, j);
      }
    }
  }

  lemma HandOutOpen(s: Server, i: nat, j: nat)
    requires i < |s.env.writes|
    ensures IsOpen(HandOut(s, i).conns, j) == IsOpen(s.conns, j)
  {
    hide WireBytes, IsOpen, FindConn;
    var k := FindConn(s.conns, s.env.writes[i].conn);
    if k.Some? {
      OpenStays(s.conns, k.value, HandOut(s, i).conns[k.value], j);
    }
  }

  /** A poll of one: nothing changes for anyone but the connection the request is for. */
  lemma PollOnePolled(w: World, s: Server, j: nat)
    requires Inv(w, s)
    ensures var (t, out) := PollWrites(s, 1);
            && |out| <= 1
            && IsOpen(t.conns, j) == IsOpen(s.conns, j) && t.env.closed == s.env.closed
            && EnvMail(t.env, j).polled == EnvMail(s.env, j).polled + (if out != [] && out[0].conn == j then out else [])
            && (out != [] ==> IsOpen(s.conns, out[0].conn))
  {
    hide Inv, PollWritesFrom, IsOpen, MailOf;
    InvConfig(w, s);
    Promises.PolledAsTraced(s, 0, 1);
    PollOneOpen(s, 0, j);
    var (t, out) := PollWrites(s, 1);
    if out != [] {
      var n :| 0 <= n < |s.env.writes| && s.env.writes[n] == out[0];
      WriteIsOpen(w, s, n);
      assert out == [out[0]] && out[1..] == [];
      assert Promises.Polls(out, s.env.now) == [Polled(out[0], s.env.now)];
      MailSnoc(s.env.trace, Polled(out[0], s.env.now), j, s.env.cfg.policy.writeSpacing);
    } else {
      assert s.env.trace + [] == s.env.trace;
    }
  }

  /** The request goes to the slot that holds its connection; there always is one. */
  lemma PollLinked(w: World, s: Server, table: seq<Peer>)
    requires Linked(w, s, table)
    ensures var (t, out) := PollWrites(s, 1);
            && |out| <= 1 && t.env.closed == s.env.closed
            && (out == [] ==> Linked(w, t, table))
            && (out != [] ==>
                  && InTable(table, out[0].conn)
                  && forall i :: 0 <= i < |table| && table[i].inUse && table[i].conn == out[0].conn ==>
                       Linked(w, t, table[i := Enqueued(table[i], out[0])]))
  {
    hide Inv, PollWrites, IsOpen, InTable, EnvMail, OneEach, Flowing;
    var (t, out) := PollWrites(s, 1);
    PollWritesKeeps(w, s, 1);
    PollOnePolled(w, s, 0);
    if out == [] {
      forall j: nat
        ensures StillSame(s, t, j)
      {
        PollOnePolled(w, s, j);
        assert EnvMail(s.env, j).polled + [] == EnvMail(s.env, j).polled;
      }
      LinkedStill(w, s, t, table);
    } else {
      assert Agrees(s, table, out[0].conn);
      forall i | 0 <= i < |table| && table[i].inUse && table[i].conn == out[0].conn
        ensures Linked(w, t, table[i := Enqueued(table[i], out[0])])
      {
        PolledInto(w, s, table, i);
      }
    }
  }

  lemma PolledInto(w: World, s: Server, table: seq<Peer>, i: nat)
    requires Linked(w, s, table) && PollWrites(s, 1).1 != [] && Inv(w, PollWrites(s, 1).0)
    requires i < |table| && table[i].inUse && table[i].conn == PollWrites(s, 1).1[0].conn
    ensures Linked(w, PollWrites(s, 1).0, table[i := Enqueued(table[i], PollWrites(s, 1).1[0])])
  {
    hide Inv, PollWrites, IsOpen, InTable, EnvMail, OneEach, Flowing;
    var (t, out) := PollWrites(s, 1);
    var p := Enqueued(table[i], out[0]);
    var after := table[i := p];
    assert Handed(s, table[i]);
    EnqueuedFlows(table[i], out[0]);
    forall j: nat
      ensures Agrees(t, after, j)
    {
      assert Agrees(s, table, j);
      PollOnePolled(w, s, j);
      TableSet(table, i, p, j);
    }
    TableSet(table, i, p, 0);
    forall n | 0 <= n < |table|
      ensures Handed(t, after[n])
    {
      assert Handed(s, table[n]);
      PollOnePolled(w, s, table[n].conn);
      if n == i {
        PollOnePolled(w, s, table[i].conn);
        assert |out| == 1 && out == [out[0]];
      } else if table[n].inUse {
        OtherConn(table, i, n);
        assert EnvMail(s.env, table[n].conn).polled + [] == EnvMail(s.env, table[n].conn).polled;
      }
    }
  }

  /** Bytes going out change nothing else. */
  lemma SentLinked(w: World, s: Server, table: seq<Peer>, i: nat, p: Peer)
    requires Linked(w, s, table) && i < |table| && table[i].inUse
    requires Flowing(p) && p.inUse && p.conn == table[i].conn && p.polled == table[i].polled
    ensures Linked(w, s, table[i := p])
  {
    hide Inv, IsOpen, InTable, EnvMail, OneEach, Flowing;
    var after := table[i := p];
    forall j: nat
      ensures Agrees(s, after, j)
    {
      assert Agrees(s, table, j);
      SlotInTable(table, i);
      TableSet(table, i, p, j);
    }
    TableSet(table, i, p, 0);
    forall n | 0 <= n < |table|
      ensures Handed(s, after[n])
    {
      assert Handed(s, table[n]) && Handed(s, table[i]);
    }
  }

  lemma SlotFlows(w: World, s: Server, table: seq<Peer>, i: nat)
    requires Linked(w, s, table) && i < |table| && table[i].inUse
    ensures Flowing(table[i])
  {
    hide Inv, IsOpen, InTable, EnvMail, OneEach, Flowing;
    assert Handed(s, table[i]);
  }

  /** Closing a connection adds no writes. */
  lemma ClosedWrites(w: World, s: Server, id: nat, cause: CloseCause, now: int)
    ensures |Closed(w, s, id, cause, now).0.env.writes| <= |s.env.writes|
  {
    hide WireAll, ChunksOf, FindConn;
    if !s.env.closed && FindConn(s.conns, id).Some? {
      var c := s.conns[FindConn(s.conns, id).value];
      var e := s.env.(now := now);
      var body := ConnectionClosed(c.info, cause);
      Logs.SayKeeps(e, c.info.conn, now, body);
      var e1 := Say(e, c.info.conn, now, body);
      var line := Upto(w.describe(Event(e.log.sequence, c.info.conn, now, body), e.cfg.policy.recordIdentifiers), META_MAX);
      Logs.WireBytesKeepsRest(e1, c.info.conn, Meta, Redact.Clear(line), now, !e.cfg.policy.recordIdentifiers);
    }
  }

  lemma PollOneWrites(w: World, s: Server)
    requires Inv(w, s)
    ensures var (t, out) := PollWrites(s, 1); |t.env.writes| == |s.env.writes| - |out|
  {
    hide Inv, PollWritesFrom;
    InvConfig(w, s);
    Promises.PolledAsTraced(s, 0, 1);
  }

  lemma BytesStayOpen(w: World, s: Server, id: nat, data: seq<Byte>, now: int)
    requires Inv(w, s) && Scanned(s)
    ensures OnBytes(w, s, id, data, now).0.env.closed == s.env.closed
  {
    hide Inv, TakeBytes, Kept, FindConn;
    InvConfig(w, s);
    if !s.env.closed && FindConn(s.conns, id).Some? {
      var e, c := s.env.(now := now), s.conns[FindConn(s.conns, id).value];
      TakeBytesKept(w, e, c, data, now);
      var (f, d, status) := TakeBytes(w, e, c, data, now);
      KeptFields(e, c, f, d);
    }
  }

  lemma OpenStaysUp(w: World, s: Server, id: nat, peer: seq<Byte>, now: int)
    requires s.env.log.cap > 0
    ensures Open(w, s, id, peer, now).0.env.closed == s.env.closed
  {
    hide SayConnection, SendPlayer, SendSession, Kept, Fresh, Message.HasAnything, FindConn, FreeFrom;
    if Open(w, s, id, peer, now).1 == P.Ok {
      var e := s.env.(now := now);
      var body := ConnectionOpened(Fresh(id, peer, now).info);
      SayConnectionLives(w, e, id, body, now, id);
      var e1 := SayConnection(w, e, id, body, now);
      var c := NO_CONN.(info := NO_CONN.info.(conn := id));
      SendPlayerKept(w, e1, c, e1.player, OnConnect, now);
      var e2 := SendPlayer(w, e1, id, e1.player, OnConnect, now);
      KeptFields(e1, c, e2, c);
      KeptShape(e1, c, e2, c);
      SendSessionKept(w, e1, c, SessionActive, OnConnect, now);
      KeptFields(e1, c, SendSession(w, e1, id, SessionActive, OnConnect, now), c);
      SendSessionKept(w, e2, c, SessionActive, OnConnect, now);
      KeptFields(e2, c, SendSession(w, e2, id, SessionActive, OnConnect, now), c);
    }
  }

  lemma {:induction false} TickStaysUp(s: Server, k: nat, now: int)
    requires k <= |s.conns|
    ensures TickFrom(s, k, now).env.closed == s.env.closed
    decreases |s.conns| - k
  {
    hide Say, IdleDeadline;
    if k < |s.conns| {
      var c := s.conns[k];
      Logs.SayKeeps(s.env, c.info.conn, now, ClientIdle);
      TickStaysUp(s, k + 1, now);
      TickStaysUp(Server(Say(s.env, c.info.conn, now, ClientIdle), s.conns[k := c.(idleReported := true)]), k + 1, now);
    }
  }
}
