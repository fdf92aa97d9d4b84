/** What opening and closing a connection does: to the table, to the events, to the requests waiting. */
module Opening {
  import opened Bytes
  import opened Message
  import P = Protocol
  import opened Events
  import opened Hub
  import opened Conns
  import F = Frame
  import opened Mails
  import opened Server
  import opened Sending
  import EventLog
  import Leading
  import Lives
  import Redact
  import Runs
  import Serving
  import WireLog

  /** A connection of which nothing is known but its id, its peer and when it was opened. */
  predicate IsNew(c: Conn, id: nat, peer: seq<Byte>, now: int) {
    && c.used && !c.idleReported && c.rx == [] && c.scan == 0 && c.framer == F.State(0, false, false) && c.nextWrite == now
    && c.info.conn == id && c.info.openedUs == now && c.info.lastMessageUs == TIME_UNKNOWN && c.info.lastShot == NO_SHOT
    && c.info.messages == 0 && c.info.shots == 0 && c.info.protocolErrors == 0 && c.info.consecutiveErrors == 0
    && !c.info.identified && !c.info.ready && !c.info.ballDetected && c.info.deviceId == []
    && c.info.peer == (if |CStr(peer)| > 63 then CStr(peer)[..63] else CStr(peer))
    && c.story == NO_STORY
  }

  /**
   * The configurations a server is made of: no message bound between zero and 256, no more than 4096
   * connections, no more than a million events or requests; a zero stands for the standard number.
   * The server is empty, and its clock at zero.
   */
  lemma UsableSays(cfg: Config)
    ensures Usable(cfg) <==>
              && (cfg.maxMessage == 0 || 256 <= cfg.maxMessage < 0x1_0000_0000) && cfg.maxConnections <= 4096
              && cfg.eventRing <= 1000000 && cfg.writeRing <= 1000000 && cfg.wireRing < 0x1_0000_0000
    ensures var s := NewServer(cfg);
            && s.env.cfg == Config(if cfg.maxConnections == 0 then 4 else cfg.maxConnections,
                                   if cfg.eventRing == 0 then 64 else cfg.eventRing, if cfg.writeRing == 0 then 32 else cfg.writeRing,
                                   cfg.wireRing, if cfg.maxMessage == 0 then 16384 else cfg.maxMessage, cfg.policy)
            && |s.conns| == s.env.cfg.maxConnections && (forall k :: 0 <= k < |s.conns| ==> !s.conns[k].used)
            && s.env.log.cap == s.env.cfg.eventRing && s.env.log.items == [] && s.env.writes == [] && s.env.wire.items == []
            && s.env.wire.cap == cfg.wireRing && s.env.now == 0 && s.env.number == 0 && s.env.session == SessionNone
            && !s.env.playerSet && !s.env.closed
  {
  }

  /** `k` is the first slot that is free. */
  predicate FirstFree(conns: seq<Conn>, k: nat) {
    k < |conns| && !conns[k].used && forall j :: 0 <= j < k ==> conns[j].used
  }

  /** From `es` to `fs` an event was emitted at the very front of what is new. */
  predicate Begins(es: seq<Event>, fs: seq<Event>, conn: nat, at: int, body: Body) {
    es < fs && fs[|es|].conn == conn && fs[|es|].at == at && fs[|es|].body == body
  }

  /** The player is announced to a new connection: policy has it so, one is set that says anything, and its 201 can go. */
  predicate Greets(w: World, e: Env) {
    e.cfg.policy.announcePlayer && e.playerSet && Speaks(e.player) && PlayerFits(w, e.player) && |e.writes| < e.cfg.writeRing
  }

  /** And behind it that a round is under way. */
  predicate Readies(w: World, e: Env) {
    && e.cfg.policy.announceReady && e.session == SessionActive
    && |e.writes| + (if Greets(w, e) then 1 else 0) < e.cfg.writeRing
  }

  lemma AnnounceSends(w: World, e: Env, conn: nat, now: int, id: nat)
    requires e.log.cap > 0
    ensures var f := Announce(w, e, conn, now);
            var greeted, readied := Greets(w, e) && conn == id, Readies(w, e) && conn == id;
            && f.log.cap == e.log.cap && f.player == e.player && f.playerSet == e.playerSet && f.session == e.session
            && For(f.writes, id) == For(e.writes, id) + (if greeted then [PlayerWrite(w, id, e.player)] else [])
                                    + (if readied then [SessionWrite(w, id, SessionActive)] else [])
            && Notices(f.log.emitted, id) == Notices(e.log.emitted, id) + (if greeted then [PlayerSent(e.player, OnConnect)] else [])
                                             + (if readied then [SessionSent(SessionActive, OnConnect)] else [])
  {
    hide SendPlayer, SendSession, For, Notices, PlayerWrite, SessionWrite, PlayerFits, Speaks, HasAnything;
    NewsIs(e, e.player);
    var e1 := SendPlayer(w, e, conn, e.player, OnConnect, now);
    OnePlayerSent(w, e, conn, e.player, OnConnect, now, id);
    OnePlayerStays(w, e, conn, e.player, OnConnect, now);
    PlayerCfg(w, e, conn, e.player, OnConnect, now);
    OneSessionSent(w, e, conn, SessionActive, OnConnect, now, id);
    OneSessionSent(w, e1, conn, SessionActive, OnConnect, now, id);
    SessionStays(w, e, conn, SessionActive, OnConnect, now);
    SessionStays(w, e1, conn, SessionActive, OnConnect, now);
  }

  lemma PlayerCfg(w: World, e: Env, conn: nat, p: PlayerInfo, why: PlayerReason, at: int)
    ensures var f := SendPlayer(w, e, conn, p, why, at); f.cfg == e.cfg && f.session == e.session && f.closed == e.closed
  {
    hide EventLog.Emit, Queues;
  }

  lemma SessionStays(w: World, e: Env, conn: nat, state: Session, why: PlayerReason, at: int)
    ensures var f := SendSession(w, e, conn, state, why, at);
            f.cfg == e.cfg && f.player == e.player && f.playerSet == e.playerSet && f.closed == e.closed
  {
    hide EventLog.Emit, Queues;
  }

  /** An event about a connection: emitted, and no request with it. */
  lemma ConnectionSaid(w: World, e: Env, conn: nat, body: Body, at: int, id: nat)
    requires e.log.cap > 0 && (body.ConnectionOpened? || body.ConnectionClosed?)
    ensures var f := SayConnection(w, e, conn, body, at);
            && f == e.(log := f.log, wire := f.wire) && f.log.cap == e.log.cap
            && Begins(e.log.emitted, f.log.emitted, conn, at, body)
            && Notices(f.log.emitted, id) == Notices(e.log.emitted, id)
  {
    hide Say, WireBytes, Notices;
    var e1 := Say(e, conn, at, body);
    Leading.SaidEvents(e, conn, at, body);
    SayNotices(e, conn, at, body, id);
    Lives.SayLives(e, conn, at, body, id);
    var line := Upto(w.describe(Event(e.log.sequence, conn, at, body), e.cfg.policy.recordIdentifiers), META_MAX);
    LineNotices(e1, conn, Redact.Clear(line), at, !e.cfg.policy.recordIdentifiers, id);
    Lives.WireBytesUnmoved(e1, conn, Meta, Redact.Clear(line), at, !e.cfg.policy.recordIdentifiers);
  }

  lemma {:induction false} WireNotices(e: Env, chunks: seq<Chunk>, id: nat)
    requires e.log.cap > 0
    ensures var f := WireAll(e, chunks);
            f.log.cap == e.log.cap && e.log.emitted <= f.log.emitted && Notices(f.log.emitted, id) == Notices(e.log.emitted, id)
    decreases |chunks|
  {
    hide Notices, Say, WireLog.Push;
    if chunks != [] {
      var e1 := e.(wire := WireLog.Push(e.wire, chunks[0]));
      var e2 := e1.(wire := e1.wire.(warned := Said));
      SayNotices(e2, CONN_NONE, e2.now, Warning(WireDropped, e1.wire.dropped), id);
      Leading.SaidEvents(e2, CONN_NONE, e2.now, Warning(WireDropped, e1.wire.dropped));
      WireNotices(WireOne(e, chunks[0]), chunks[1..], id);
    }
  }

  lemma LineNotices(e: Env, conn: nat, cells: seq<Redact.Cell>, at: int, withheld: bool, id: nat)
    requires e.log.cap > 0
    ensures var f := WireBytes(e, conn, Meta, cells, at, withheld);
            e.log.emitted <= f.log.emitted && Notices(f.log.emitted, id) == Notices(e.log.emitted, id)
  {
    hide Notices, WireAll, ChunksOf;
    if e.cfg.wireRing != 0 {
      WireNotices(e, ChunksOf(conn, Meta, cells, at, withheld), id);
    }
  }

  /** Why a connection is not opened. */
  lemma OpenAnswers(w: World, s: Server, conn: nat, peer: seq<Byte>, now: int)
    ensures var (t, status) := Open(w, s, conn, peer, now);
            var usable := conn != 0 && conn != 0xffff_ffff;
            && (status == P.Closed <==> s.env.closed)
            && (status == P.InvalidArg <==> !s.env.closed && !usable)
            && (status == P.InvalidState <==> !s.env.closed && usable && Runs.IsOpen(s.conns, conn))
            && (status == P.TooManyConnections <==>
                  !s.env.closed && usable && !Runs.IsOpen(s.conns, conn) && forall k :: 0 <= k < |s.conns| ==> s.conns[k].used)
            && (status == P.Ok <==>
                  !s.env.closed && usable && !Runs.IsOpen(s.conns, conn) && exists k :: 0 <= k < |s.conns| && !s.conns[k].used)
            && (status != P.Ok ==> t == s)
  {
    hide SayConnection, Announce, Fresh, FindFrom, FreeFrom;
    if Runs.IsOpen(s.conns, conn) {
      Runs.FoundOpen(s.conns, conn);
    } else {
      NotFound(s.conns, conn);
    }
  }

  lemma {:induction false} FreeIsFirst(conns: seq<Conn>, i: nat)
    requires i <= |conns|
    ensures var r := FreeFrom(conns, i); r.Some? ==> forall j :: i <= j < r.value ==> conns[j].used
    decreases |conns| - i
  {
    if i < |conns| && conns[i].used {
      FreeIsFirst(conns, i + 1);
    }
  }

  /**
   * A connection opened: in the first free slot, as one of which nothing is known yet; reported first
   * of all; and behind what is waiting for its id come the player's 201 and the 202, if each is
   * called for and has room. Nobody else is sent anything.
   */
  lemma OpenDoes(w: World, s: Server, conn: nat, peer: seq<Byte>, now: int, id: nat)
    requires s.env.log.cap > 0 && Open(w, s, conn, peer, now).1 == P.Ok
    ensures var t := Open(w, s, conn, peer, now).0;
            var e := s.env;
            var greeted, readied := Greets(w, e) && conn == id, Readies(w, e) && conn == id;
            && (exists k: nat :: FirstFree(s.conns, k) && |t.conns| == |s.conns| && IsNew(t.conns[k], conn, peer, now)
                            && t.conns == s.conns[k := t.conns[k]]
                            && Begins(e.log.emitted, t.env.log.emitted, conn, now, ConnectionOpened(t.conns[k].info)))
            && For(t.env.writes, id) == For(e.writes, id) + (if greeted then [PlayerWrite(w, id, e.player)] else [])
                                        + (if readied then [SessionWrite(w, id, SessionActive)] else [])
            && Notices(t.env.log.emitted, id) == Notices(e.log.emitted, id) + (if greeted then [PlayerSent(e.player, OnConnect)] else [])
                                                 + (if readied then [SessionSent(SessionActive, OnConnect)] else [])
            && t.env.now == now && t.env.player == e.player && t.env.playerSet == e.playerSet && t.env.session == e.session
  {
    hide SayConnection, Announce, For, Notices, PlayerWrite, SessionWrite, PlayerFits, Speaks, FindFrom, FreeFrom, CStr;
    FreeIsFirst(s.conns, 0);
    var k := FreeFrom(s.conns, 0).value;
    var c, e := Fresh(conn, peer, now), s.env.(now := now);
    var body := ConnectionOpened(c.info);
    ConnectionSaid(w, e, conn, body, now, id);
    var f := SayConnection(w, e, conn, body, now);
    AnnounceSends(w, f, conn, now, id);
    AnnounceGrows(w, f, conn, now);
    var t := Open(w, s, conn, peer, now).0;
    assert IsNew(t.conns[k], conn, peer, now) by {
      FreshIsNew(conn, peer, now);
    }
    assert Begins(e.log.emitted, t.env.log.emitted, conn, now, body);
    assert FirstFree(s.conns, k);
  }

  lemma FreshIsNew(conn: nat, peer: seq<Byte>, now: int)
    ensures IsNew(Fresh(conn, peer, now), conn, peer, now)
  {
    hide CStr;
  }

  lemma AnnounceGrows(w: World, e: Env, conn: nat, now: int)
    requires e.log.cap > 0
    ensures var f := Announce(w, e, conn, now); e.log.emitted <= f.log.emitted && f.now == e.now
  {
    hide Say, Queues, QueueWrite, HasAnything, Leading.Led;
    var e1 := SendPlayer(w, e, conn, e.player, OnConnect, now);
    PlayerGrows(w, e, conn, e.player, OnConnect, now);
    SessionGrows(w, e, conn, SessionActive, OnConnect, now);
    SessionGrows(w, e1, conn, SessionActive, OnConnect, now);
  }

  lemma PlayerGrows(w: World, e: Env, conn: nat, p: PlayerInfo, why: PlayerReason, at: int)
    requires e.log.cap > 0
    ensures var f := SendPlayer(w, e, conn, p, why, at); e.log.emitted <= f.log.emitted && f.now == e.now && f.log.cap == e.log.cap
  {
    hide Say, Queues, QueueWrite;
    Serving.QueueKeeps(w, e, conn, Player, P.CODE_PLAYER_INFO, P.TEXT_PLAYER_INFO, Some(p));
    var g := QueueWrite(w, e, conn, Player, P.CODE_PLAYER_INFO, P.TEXT_PLAYER_INFO, Some(p));
    Leading.SaidEvents(g, conn, at, PlayerSent(p, why));
    Lives.SayLives(g, conn, at, PlayerSent(p, why), conn);
  }

  lemma SessionGrows(w: World, e: Env, conn: nat, state: Session, why: PlayerReason, at: int)
    requires e.log.cap > 0 && state == SessionActive
    ensures var f := SendSession(w, e, conn, state, why, at); e.log.emitted <= f.log.emitted && f.now == e.now
  {
    hide Say, Queues, QueueWrite;
    Serving.QueueKeeps(w, e, conn, Ready, P.CODE_READY, P.TEXT_READY, None);
    var g := QueueWrite(w, e, conn, Ready, P.CODE_READY, P.TEXT_READY, None);
    Leading.SaidEvents(g, conn, at, SessionSent(state, why));
    Lives.SayLives(g, conn, at, SessionSent(state, why), conn);
  }

  // --------------------------------------------------------------------------------------
  // Closing
  // --------------------------------------------------------------------------------------

  /** A slot given back: the connection's closing reported first of all, with what is known of it and why. */
  lemma ShutDoes(w: World, s: Server, k: nat, cause: CloseCause, at: int, id: nat)
    requires s.env.log.cap > 0 && k < |s.conns|
    ensures var t, c := Shut(w, s, k, cause, at), s.conns[k];
            && t.conns == s.conns[k := c.(used := false)]
            && t.env.log.cap == s.env.log.cap && t.env.now == s.env.now && t.env.closed == s.env.closed
            && Begins(s.env.log.emitted, t.env.log.emitted, c.info.conn, at, ConnectionClosed(c.info, cause))
            && For(t.env.writes, id) == (if id == c.info.conn then [] else For(s.env.writes, id))
            && Notices(t.env.log.emitted, id) == Notices(s.env.log.emitted, id)
  {
    hide SayConnection, For, Notices, Begins, DropWritesFor;
    var c := s.conns[k];
    ConnectionSaid(w, s.env, c.info.conn, ConnectionClosed(c.info, cause), at, id);
    var e := SayConnection(w, s.env, c.info.conn, ConnectionClosed(c.info, cause), at);
    Runs.DropKeepsEnv(e, c.info.conn);
    DropsFor(e, c.info.conn, id);
  }

  lemma DropsFor(e: Env, conn: nat, id: nat)
    ensures For(DropWritesFor(e, conn).writes, id) == if id == conn then [] else For(e.writes, id)
  {
    hide For;
    ForKept(e.writes, conn, id);
  }

  /**
   * The host says a connection is gone: exactly an open one of a server that is up is reported closed,
   * with the cause the host gives; its requests are dropped, nobody else's; its slot is free.
   */
  lemma ClosedDoes(w: World, s: Server, conn: nat, cause: CloseCause, now: int, id: nat)
    requires s.env.log.cap > 0
    ensures var (t, status) := Closed(w, s, conn, cause, now);
            && (status == P.Closed <==> s.env.closed)
            && (status == P.UnknownConnection <==> !s.env.closed && !Runs.IsOpen(s.conns, conn))
            && (status == P.Ok <==> !s.env.closed && Runs.IsOpen(s.conns, conn))
            && (status != P.Ok ==> t == s)
            && (status == P.Ok ==>
                  && (exists k :: && 0 <= k < |s.conns| && s.conns[k].used && s.conns[k].info.conn == conn
                                  && t.conns == s.conns[k := s.conns[k].(used := false)]
                                  && Begins(s.env.log.emitted, t.env.log.emitted, conn, now, ConnectionClosed(s.conns[k].info, cause)))
                  && For(t.env.writes, id) == (if id == conn then [] else For(s.env.writes, id))
                  && t.env.now == now && !t.env.closed)
  {
    hide Shut, For, Notices, Begins, FindFrom;
    if Runs.IsOpen(s.conns, conn) {
      Runs.FoundOpen(s.conns, conn);
    } else {
      NotFound(s.conns, conn);
    }
    if !s.env.closed && FindConn(s.conns, conn).Some? {
      var k := FindConn(s.conns, conn).value;
      ShutDoes(w, At(s, now), k, cause, now, id);
    }
  }

  /** One slot after another given back, every connection in them as one the server closed. */
  lemma {:induction false} ShutAllDoes(w: World, s: Server, k: nat, j: nat)
    requires s.env.log.cap > 0 && k <= |s.conns| && j < |s.conns|
    ensures var t := ShutFrom(w, s, k);
            && |t.conns| == |s.conns| && t.env.closed == s.env.closed && t.env.log.cap > 0
            && s.env.log.emitted <= t.env.log.emitted
            && t.conns[j] == (if k <= j then s.conns[j].(used := false) else s.conns[j])
            && (k <= j && s.conns[j].used ==>
                  exists i :: && |s.env.log.emitted| <= i < |t.env.log.emitted|
                              && t.env.log.emitted[i].conn == s.conns[j].info.conn
                              && t.env.log.emitted[i].body == ConnectionClosed(s.conns[j].info, ServerClosed))
    decreases |s.conns| - k
  {
    hide Shut, For, Notices;
    if k < |s.conns| {
      if s.conns[k].used {
        var u := Shut(w, s, k, ServerClosed, s.env.now);
        ShutDoes(w, s, k, ServerClosed, s.env.now, 0);
        ShutAllDoes(w, u, k + 1, j);
        var t := ShutFrom(w, s, k);
        if k == j {
          var i := |s.env.log.emitted|;
          assert t.env.log.emitted[i] == u.env.log.emitted[i];
        }
      } else {
        ShutAllDoes(w, s, k + 1, j);
      }
    }
  }

  /** A server closed: no connection is open any more, each that was is reported closed by the server, and it stays down. */
  lemma CloseDoes(w: World, s: Server, j: nat)
    requires s.env.log.cap > 0 && !s.env.closed && j < |s.conns|
    ensures var t := Close(w, s);
            && t.env.closed && |t.conns| == |s.conns| && !t.conns[j].used
            && (s.conns[j].used ==>
                  exists i :: && |s.env.log.emitted| <= i < |t.env.log.emitted|
                              && t.env.log.emitted[i].conn == s.conns[j].info.conn
                              && t.env.log.emitted[i].body == ConnectionClosed(s.conns[j].info, ServerClosed))
  {
    hide ShutFrom;
    ShutAllDoes(w, s, 0, j);
  }
}
