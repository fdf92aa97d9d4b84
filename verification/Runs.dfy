/** What every run of a server keeps: its logs, its mails, its connections and their streams. */
module Runs {
  import opened Bytes
  import opened Numbers
  import opened Message
  import P = Protocol
  import opened Redact
  import opened Events
  import Rings
  import opened EventLog
  import WireLog
  import opened Hub
  import opened Conns
  import opened Logs
  import opened Lives
  import opened Mails
  import opened Captures
  import opened Serving
  import opened Streams
  import opened Delivery
  import opened Server

  predicate IsOpen(conns: seq<Conn>, id: nat) {
    exists k :: 0 <= k < |conns| && conns[k].used && conns[k].info.conn == id
  }

  /** A write is due just the policy's spacing after the last one polled, and the first from the opening on. */
  predicate Paced(e: Env, c: Conn) {
    var last, spacing := EnvMail(e, c.info.conn).last, e.cfg.policy.writeSpacing;
    c.nextWrite == if spacing > 0 && last.Some? then last.value + spacing else c.info.openedUs
  }

  /** One slot of the table. */
  ghost predicate SlotInv(w: World, e: Env, c: Conn) {
    && c.scan <= |c.rx|
    && (c.used ==>
          && c.info.conn != CONN_NONE && c.info.conn != CONN_ALL
          && Followed(w.lib, e.cfg.maxMessage, c) && Attuned(e, c) && Paced(e, c))
  }

  /** One connection id: mail in order, a sound life, open as the table says; and no mail waiting unless it is open. */
  predicate IdInv(e: Env, open: bool, id: nat) {
    && InOrder(e, id)
    && Orderly(EnvLife(e, id), e.cfg.policy.closeThreshold) && EnvLife(e, id).open == open
    && (!open ==> EnvMail(e, id) == NO_MAIL && For(e.writes, id) == [])
  }

  predicate Distinct(conns: seq<Conn>) {
    forall i, j :: 0 <= i < j < |conns| && conns[i].used && conns[j].used ==> conns[i].info.conn != conns[j].info.conn
  }

  predicate ConfigInv(e: Env) {
    && LEAST_MESSAGE <= e.cfg.maxMessage < WORD && e.log.cap > 0 && e.cfg.policy.closeThreshold < WORD
  }

  ghost predicate Inv(w: World, s: Server) {
    && ConfigInv(s.env)
    && Logged(s.env) && Captured(s.env)
    && Distinct(s.conns)
    && (forall k :: 0 <= k < |s.conns| ==> SlotInv(w, s.env, s.conns[k]))
    && (forall id: nat :: IdInv(s.env, IsOpen(s.conns, id), id))
  }

  lemma InvIsScanned(w: World, s: Server)
    requires Inv(w, s)
    ensures Scanned(s)
  {
    hide Logged, Followed, Attuned, Paced, IdInv, Distinct;
    forall k | 0 <= k < |s.conns|
      ensures s.conns[k].scan <= |s.conns[k].rx|
    {
      assert SlotInv(w, s.env, s.conns[k]);
    }
  }

  lemma NewIsInv(w: World, cfg: Config)
    requires Usable(cfg) && cfg.policy.closeThreshold < WORD
    ensures Inv(w, NewServer(cfg))
  {
    var s := NewServer(cfg);
    var c := Completed(cfg);
    NewIsAccounted(c.eventRing);
    if c.wireRing > 0 {
      WireLog.NewIsTraced(c.wireRing);
    }
    forall id: nat
      ensures IdInv(s.env, IsOpen(s.conns, id), id)
    {
    }
  }

  // --------------------------------------------------------------------------------------
  // One connection served
  // --------------------------------------------------------------------------------------

  lemma OpenStays(conns: seq<Conn>, k: nat, d: Conn, id: nat)
    requires k < |conns| && d.used == conns[k].used && d.info.conn == conns[k].info.conn
    ensures IsOpen(conns[k := d], id) == IsOpen(conns, id)
  {
    if IsOpen(conns, id) {
      var i :| 0 <= i < |conns| && conns[i].used && conns[i].info.conn == id;
      assert conns[k := d][i].used && conns[k := d][i].info.conn == id;
    }
    if IsOpen(conns[k := d], id) {
      var i :| 0 <= i < |conns| && conns[k := d][i].used && conns[k := d][i].info.conn == id;
      assert conns[i].used && conns[i].info.conn == id;
    }
  }

  /** Another open connection is not concerned. */
  lemma OtherSlot(w: World, e: Env, f: Env, id: nat, c: Conn)
    requires Served(e, f, id) && SlotInv(w, e, c) && (c.used ==> c.info.conn != id)
    ensures SlotInv(w, f, c)
  {
    hide Followed, Logged, EnvMail, EnvLife, For, InOrder, Matches;
    assert Beside(e, f, id, c.info.conn);
  }

  lemma SameSlot(w: World, e: Env, f: Env, c: Conn, d: Conn)
    requires Kept(e, c, f, d) && SlotInv(w, e, c) && c.used && Followed(w.lib, f.cfg.maxMessage, d)
    ensures SlotInv(w, f, d)
  {
    hide Logged, EnvMail, EnvLife, For, InOrder, Attuned, Good, Followed;
    FollowedFields(w.lib, f.cfg.maxMessage, d);
    assert Beside(e, f, c.info.conn, c.info.conn);
  }

  lemma OtherId(e: Env, f: Env, id: nat, j: nat, open: bool)
    requires Served(e, f, id) && IdInv(e, open, j) && j != id
    ensures IdInv(f, open, j)
  {
    hide Logged, EnvMail, EnvLife, For, InOrder;
    assert Beside(e, f, id, j);
  }

  lemma SameId(e: Env, f: Env, c: Conn, d: Conn)
    requires Kept(e, c, f, d) && IdInv(e, true, c.info.conn) && Attuned(e, c)
    ensures IdInv(f, true, c.info.conn)
  {
    hide Logged, EnvMail, EnvLife, For, InOrder, Orderly;
    assert Beside(e, f, c.info.conn, c.info.conn);
  }

  lemma ServeOne(w: World, s: Server, k: nat, f: Env, d: Conn)
    requires Inv(w, s) && k < |s.conns| && s.conns[k].used
    requires Kept(s.env, s.conns[k], f, d) && Followed(w.lib, f.cfg.maxMessage, d)
    ensures Inv(w, Server(f, s.conns[k := d]))
  {
    hide Followed, Logged, Attuned, Paced, IdInv, SlotInv, Beside, IsOpen;
    var e, c := s.env, s.conns[k];
    var t := Server(f, s.conns[k := d]);
    var id := c.info.conn;
    SlotFields(w, e, c);
    assert SlotInv(w, e, c);
    forall i | 0 <= i < |t.conns|
      ensures SlotInv(w, f, t.conns[i])
    {
      assert SlotInv(w, e, s.conns[i]);
      if i == k {
        SameSlot(w, e, f, c, d);
      } else {
        OtherSlot(w, e, f, id, s.conns[i]);
      }
    }
    forall j: nat
      ensures IdInv(f, IsOpen(t.conns, j), j)
    {
      OpenStays(s.conns, k, d, j);
      assert IdInv(e, IsOpen(s.conns, j), j);
      if j == id {
        OpenNow(s.conns, k);
        SameId(e, f, c, d);
      } else {
        OtherId(e, f, id, j, IsOpen(s.conns, j));
      }
    }
  }

  lemma OpenNow(conns: seq<Conn>, k: nat)
    requires k < |conns| && conns[k].used
    ensures IsOpen(conns, conns[k].info.conn)
  {
  }

  lemma SlotFields(w: World, e: Env, c: Conn)
    ensures SlotInv(w, e, c) && c.used ==>
              Attuned(e, c) && Paced(e, c) && Followed(w.lib, e.cfg.maxMessage, c) && c.info.conn != CONN_NONE && c.info.conn != CONN_ALL
  {
  }

  /** The clock, the player, the session and the seal are no one connection's business. */
  lemma SettingsAside(w: World, s: Server, f: Env)
    requires Inv(w, s)
    requires f == s.env.(now := f.now, player := f.player, playerSet := f.playerSet, session := f.session, closed := f.closed)
    ensures Inv(w, s.(env := f))
  {
    hide Followed, Orderly, For, MailOf, LifeOf, Accounted, WireLog.Traced, WireComplained, IsOpen, Distinct;
    var e := s.env;
    forall k | 0 <= k < |s.conns|
      ensures SlotInv(w, f, s.conns[k])
    {
      assert SlotInv(w, e, s.conns[k]);
    }
    forall id: nat
      ensures IdInv(f, IsOpen(s.conns, id), id)
    {
      assert IdInv(e, IsOpen(s.conns, id), id);
    }
  }

  // --------------------------------------------------------------------------------------
  // Bytes
  // --------------------------------------------------------------------------------------

  lemma OnBytesKeeps(w: World, s: Server, id: nat, data: seq<Byte>, now: int)
    requires Inv(w, s) && Scanned(s)
    ensures Inv(w, OnBytes(w, s, id, data, now).0)
  {
    hide Inv, TakeBytes, Kept, Followed, FindConn;
    if !s.env.closed && FindConn(s.conns, id).Some? {
      var k := FindConn(s.conns, id).value;
      var e := s.env.(now := now);
      SettingsAside(w, s, e);
      var t := s.(env := e);
      InvFields(w, t, k);
      TakeBytesKept(w, e, t.conns[k], data, now);
      TakeBytesFollowed(w, e, t.conns[k], data, now);
      var (f, d, status) := TakeBytes(w, e, t.conns[k], data, now);
      KeptFields(e, t.conns[k], f, d);
      ServeOne(w, t, k, f, d);
    }
  }

  lemma InvFields(w: World, s: Server, k: nat)
    requires Inv(w, s) && k < |s.conns|
    ensures ConfigInv(s.env) && (s.conns[k].used ==> Followed(w.lib, s.env.cfg.maxMessage, s.conns[k]))
    ensures s.conns[k].used ==> Attuned(s.env, s.conns[k]) && s.conns[k].info.conn != CONN_NONE
    ensures s.conns[k].scan <= |s.conns[k].rx|
  {
    hide Followed, Logged, Attuned, Paced, IdInv, Distinct;
    assert SlotInv(w, s.env, s.conns[k]);
  }

  // --------------------------------------------------------------------------------------
  // Player and session
  // --------------------------------------------------------------------------------------

  lemma SentKept(e: Env, e1: Env, c: Conn, at: int, body: Body)
    requires e.log.cap > 0 && Served(e, e1, c.info.conn) && EnvLife(e1, c.info.conn) == EnvLife(e, c.info.conn)
    requires body.PlayerSent? || body.SessionSent?
    ensures Kept(e, c, Say(e1, c.info.conn, at, body), c)
  {
    hide Beside, Logged, EnvLife, Say, Orderly;
    SayServed(e1, c.info.conn, at, body);
    ServedTwice(e, e1, Say(e1, c.info.conn, at, body), c.info.conn);
  }

  lemma SendPlayerKept(w: World, e: Env, c: Conn, p: PlayerInfo, why: PlayerReason, at: int)
    requires e.log.cap > 0
    ensures Kept(e, c, SendPlayer(w, e, c.info.conn, p, why, at), c)
  {
    hide Queues, QueueWrite, Kept, EnvLife, Served, Say;
    var id := c.info.conn;
    NothingKept(e, c);
    if Queues(w, e, P.CODE_PLAYER_INFO, P.TEXT_PLAYER_INFO, Some(p)) {
      QueueServed(w, e, id, Player, P.CODE_PLAYER_INFO, P.TEXT_PLAYER_INFO, Some(p));
      SentKept(e, QueueWrite(w, e, id, Player, P.CODE_PLAYER_INFO, P.TEXT_PLAYER_INFO, Some(p)), c, at, PlayerSent(p, why));
    }
  }

  lemma SendSessionKept(w: World, e: Env, c: Conn, state: Session, why: PlayerReason, at: int)
    requires e.log.cap > 0
    ensures Kept(e, c, SendSession(w, e, c.info.conn, state, why, at), c)
  {
    hide Queues, QueueWrite, Kept, EnvLife, Served, Say;
    var id := c.info.conn;
    NothingKept(e, c);
    match state {
      case SessionNone =>
      case SessionActive =>
        if Queues(w, e, P.CODE_READY, P.TEXT_READY, None) {
          QueueServed(w, e, id, Ready, P.CODE_READY, P.TEXT_READY, None);
          SentKept(e, QueueWrite(w, e, id, Ready, P.CODE_READY, P.TEXT_READY, None), c, at, SessionSent(state, why));
        }
      case SessionEnded =>
        if Queues(w, e, P.CODE_ROUND_ENDED, P.TEXT_ROUND_ENDED, None) {
          QueueServed(w, e, id, RoundEnded, P.CODE_ROUND_ENDED, P.TEXT_ROUND_ENDED, None);
          SentKept(e, QueueWrite(w, e, id, RoundEnded, P.CODE_ROUND_ENDED, P.TEXT_ROUND_ENDED, None), c, at,
                   SessionSent(state, why));
        }
    }
  }

  /** Serving a connection without changing it. */
  lemma ServeAsIs(w: World, s: Server, k: nat, f: Env)
    requires Inv(w, s) && k < |s.conns| && s.conns[k].used && Kept(s.env, s.conns[k], f, s.conns[k])
    ensures Inv(w, s.(env := f))
  {
    hide Inv, Kept, Followed;
    InvFields(w, s, k);
    KeptFields(s.env, s.conns[k], f, s.conns[k]);
    ServeOne(w, s, k, f, s.conns[k]);
    assert s.conns[k := s.conns[k]] == s.conns;
  }

  lemma {:induction false} SendPlayerFromKeeps(w: World, e: Env, conns: seq<Conn>, k: nat, p: PlayerInfo,
                                               why: PlayerReason, at: int)
    requires Inv(w, Server(e, conns)) && k <= |conns|
    ensures Inv(w, Server(SendPlayerFrom(w, e, conns, k, p, why, at), conns))
    decreases |conns| - k
  {
    hide Inv, SendPlayer, Kept;
    if k < |conns| {
      if conns[k].used {
        InvFields(w, Server(e, conns), k);
        SendPlayerKept(w, e, conns[k], p, why, at);
        ServeAsIs(w, Server(e, conns), k, SendPlayer(w, e, conns[k].info.conn, p, why, at));
        SendPlayerFromKeeps(w, SendPlayer(w, e, conns[k].info.conn, p, why, at), conns, k + 1, p, why, at);
      } else {
        SendPlayerFromKeeps(w, e, conns, k + 1, p, why, at);
      }
    }
  }

  lemma {:induction false} SendSessionFromKeeps(w: World, e: Env, conns: seq<Conn>, k: nat, state: Session, at: int)
    requires Inv(w, Server(e, conns)) && k <= |conns|
    ensures Inv(w, Server(SendSessionFrom(w, e, conns, k, state, at), conns))
    decreases |conns| - k
  {
    hide Inv, SendSession, Kept;
    if k < |conns| {
      if conns[k].used {
        InvFields(w, Server(e, conns), k);
        SendSessionKept(w, e, conns[k], state, Changed, at);
        ServeAsIs(w, Server(e, conns), k, SendSession(w, e, conns[k].info.conn, state, Changed, at));
        SendSessionFromKeeps(w, SendSession(w, e, conns[k].info.conn, state, Changed, at), conns, k + 1, state, at);
      } else {
        SendSessionFromKeeps(w, e, conns, k + 1, state, at);
      }
    }
  }

  lemma SetPlayerKeeps(w: World, s: Server, p: PlayerInfo, now: int)
    requires Inv(w, s)
    ensures Inv(w, SetPlayer(w, s, p, now).0)
  {
    hide Inv, SendPlayerFrom, SamePlayer, HasAnything;
    if !s.env.closed {
      var e := s.env.(now := now, player := p, playerSet := true);
      SettingsAside(w, s, e);
      SendPlayerFromKeeps(w, e, s.conns, 0, p, Changed, now);
    }
  }

  lemma SendPlayerInfoKeeps(w: World, s: Server, id: nat, p: Option<PlayerInfo>, now: int)
    requires Inv(w, s)
    ensures Inv(w, SendPlayerInfo(w, s, id, p, now).0)
  {
    hide Inv, SendPlayerFrom, SendPlayer, Kept, FindConn;
    if !s.env.closed {
      var q := if p.Some? then p.value else s.env.player;
      var e := s.env.(now := now);
      SettingsAside(w, s, e);
      SendPlayerFromKeeps(w, e, s.conns, 0, q, Explicit, now);
      if id != CONN_ALL && FindConn(s.conns, id).Some? {
        var k := FindConn(s.conns, id).value;
        InvFields(w, s.(env := e), k);
        SendPlayerKept(w, e, s.conns[k], q, Explicit, now);
        ServeAsIs(w, s.(env := e), k, SendPlayer(w, e, id, q, Explicit, now));
      }
    }
  }

  lemma SetSessionKeeps(w: World, s: Server, state: Session, now: int)
    requires Inv(w, s)
    ensures Inv(w, SetSession(w, s, state, now).0)
  {
    hide Inv, SendSessionFrom;
    if !s.env.closed {
      var e := s.env.(now := now);
      SettingsAside(w, s, e);
      SettingsAside(w, s, e.(session := state));
      SendSessionFromKeeps(w, e.(session := state), s.conns, 0, state, now);
    }
  }

  // --------------------------------------------------------------------------------------
  // Opening and closing
  // --------------------------------------------------------------------------------------

  lemma OpenAt(conns: seq<Conn>, k: nat, c: Conn, id: nat)
    requires k < |conns| && !conns[k].used && c.used
    ensures IsOpen(conns[k := c], id) == (IsOpen(conns, id) || id == c.info.conn)
  {
    var t := conns[k := c];
    if IsOpen(conns, id) {
      var i :| 0 <= i < |conns| && conns[i].used && conns[i].info.conn == id;
      assert t[i].used && t[i].info.conn == id;
    }
    assert t[k].used && t[k].info.conn == c.info.conn;
    if IsOpen(t, id) {
      var i :| 0 <= i < |t| && t[i].used && t[i].info.conn == id;
      assert i != k ==> conns[i].used && conns[i].info.conn == id;
    }
  }

  lemma OpenedInv(w: World, s: Server, k: nat, id: nat, peer: seq<Byte>, now: int)
    requires Inv(w, s) && k < |s.conns| && !s.conns[k].used && FindConn(s.conns, id) == None
    requires id != CONN_NONE && id != CONN_ALL
    ensures var c := Fresh(id, peer, now);
            Inv(w, Server(SayConnection(w, s.env, id, ConnectionOpened(c.info), now), s.conns[k := c]))
  {
    hide Followed, Logged, IdInv, SlotInv, Beside, SayConnection, EnvLife, Field, CStr, IsOpen;
    var e, c := s.env, Fresh(id, peer, now);
    var f := SayConnection(w, e, id, ConnectionOpened(c.info), now);
    var t := Server(f, s.conns[k := c]);
    SayConnectionServed(w, e, id, ConnectionOpened(c.info), now);
    NotOpen(s.conns, id);
    assert IdInv(e, IsOpen(s.conns, id), id);
    BornAgain(e, f, c, now);
    forall i | 0 <= i < |t.conns|
      ensures SlotInv(w, f, t.conns[i])
    {
      if i == k {
        NewSlot(w, e, f, id, peer, now);
      } else {
        assert SlotInv(w, e, s.conns[i]);
        OtherSlot(w, e, f, id, s.conns[i]);
      }
    }
    forall j: nat
      ensures IdInv(f, IsOpen(t.conns, j), j)
    {
      OpenAt(s.conns, k, c, j);
      assert IdInv(e, IsOpen(s.conns, j), j);
      if j != id {
        OtherId(e, f, id, j, IsOpen(s.conns, j));
      }
    }
  }

  lemma NotOpen(conns: seq<Conn>, id: nat)
    requires FindConn(conns, id) == None
    ensures !IsOpen(conns, id)
  {
  }

  /** A connection of which nothing is known but when it was opened. */
  predicate NewConn(c: Conn, now: int) {
    && !c.idleReported && c.story.heard == [] && c.story.errors == 0
    && c.info == NO_INFO.(conn := c.info.conn, openedUs := now, lastMessageUs := TIME_UNKNOWN, lastShot := NO_SHOT, peer := c.info.peer)
  }

  /** The opening event starts the life of the id anew. */
  lemma BornAgain(e: Env, f: Env, c: Conn, now: int)
    requires Served(e, f, c.info.conn) && IdInv(e, false, c.info.conn) && e.cfg.policy.closeThreshold < WORD
    requires EnvLife(f, c.info.conn)
          == Live(EnvLife(e, c.info.conn), Event(e.log.sequence, c.info.conn, now, ConnectionOpened(c.info)), c.info.conn,
                  e.cfg.policy.closeThreshold)
    requires NewConn(c, now)
    ensures IdInv(f, true, c.info.conn) && Attuned(f, c) && EnvMail(f, c.info.conn).last == None
  {
    hide Logged, EnvLife, EnvMail, For;
    assert Beside(e, f, c.info.conn, c.info.conn);
  }

  lemma NewSlot(w: World, e: Env, f: Env, id: nat, peer: seq<Byte>, now: int)
    requires Attuned(f, Fresh(id, peer, now)) && EnvMail(f, id).last == None && id != CONN_NONE && id != CONN_ALL
    ensures SlotInv(w, f, Fresh(id, peer, now))
  {
    hide Attuned, Followed, EnvMail, Field, CStr;
    FreshIsFollowed(w.lib, f.cfg.maxMessage, Fresh(id, peer, now));
  }

  lemma OpenKeeps(w: World, s: Server, id: nat, peer: seq<Byte>, now: int)
    requires Inv(w, s)
    ensures Inv(w, Open(w, s, id, peer, now).0)
  {
    hide Inv, FindConn, FreeFrom, SendPlayer, SendSession, SayConnection, Kept, Fresh, HasAnything;
    if !s.env.closed && id != CONN_NONE && id != CONN_ALL && FindConn(s.conns, id) == None && FreeFrom(s.conns, 0).Some? {
      var k := FreeFrom(s.conns, 0).value;
      var c := Fresh(id, peer, now);
      SettingsAside(w, s, s.env.(now := now));
      OpenedInv(w, s.(env := s.env.(now := now)), k, id, peer, now);
      var t := Server(SayConnection(w, s.env.(now := now), id, ConnectionOpened(c.info), now), s.conns[k := c]);
      AnnounceKeeps(w, t, k, now) by { FreshFields(id, peer, now); }
      FreshFields(id, peer, now);
    }
  }

  lemma FreshFields(id: nat, peer: seq<Byte>, now: int)
    ensures Fresh(id, peer, now).used && Fresh(id, peer, now).info.conn == id
  {
  }

  lemma AnnounceKeeps(w: World, s: Server, k: nat, now: int)
    requires Inv(w, s) && k < |s.conns| && s.conns[k].used
    ensures Inv(w, s.(env := Announce(w, s.env, s.conns[k].info.conn, now)))
  {
    hide Inv, SendPlayer, SendSession, Kept, HasAnything;
    var id, e := s.conns[k].info.conn, s.env;
    InvFields(w, s, k);
    var e1 := SendPlayer(w, e, id, e.player, OnConnect, now);
    SendPlayerKept(w, e, s.conns[k], e.player, OnConnect, now);
    ServeAsIs(w, s, k, e1);
    KeptFields(e, s.conns[k], e1, s.conns[k]);
    var e2 := if e.cfg.policy.announcePlayer && e.playerSet && HasAnything(e.player) then e1 else e;
    SendSessionKept(w, e2, s.conns[k], SessionActive, OnConnect, now);
    ServeAsIs(w, s.(env := e2), k, SendSession(w, e2, id, SessionActive, OnConnect, now));
  }

  lemma ShutAt(conns: seq<Conn>, k: nat, id: nat)
    requires Distinct(conns) && k < |conns| && conns[k].used
    ensures IsOpen(conns[k := conns[k].(used := false)], id) == (IsOpen(conns, id) && id != conns[k].info.conn)
  {
    var t := conns[k := conns[k].(used := false)];
    if IsOpen(conns, id) && id != conns[k].info.conn {
      var i :| 0 <= i < |conns| && conns[i].used && conns[i].info.conn == id;
      assert t[i].used && t[i].info.conn == id;
    }
    if IsOpen(t, id) {
      var i :| 0 <= i < |t| && t[i].used && t[i].info.conn == id;
      assert conns[i].used && conns[i].info.conn == id;
    }
  }

  lemma DropKeepsEnv(e: Env, id: nat)
    ensures var f := DropWritesFor(e, id); f == e.(writes := f.writes, trace := f.trace)
  {
  }

  lemma ShutOtherSlot(w: World, e: Env, id: nat, c: Conn)
    requires SlotInv(w, e, c) && (c.used ==> c.info.conn != id && InOrder(e, c.info.conn))
    ensures SlotInv(w, DropWritesFor(e, id), c)
  {
    hide Followed, EnvMail, LifeOf, For, Orderly;
    DropKeepsEnv(e, id);
    if c.used {
      DropInOrder(e, id, c.info.conn);
    }
  }

  /** The closing of `id` seen from another id. */
  lemma ShutOtherId(e: Env, e1: Env, id: nat, j: nat, open: bool)
    requires Served(e, e1, id) && IdInv(e, open, j) && j != id
    ensures InOrder(e1, j) && IdInv(DropWritesFor(e1, id), open, j)
  {
    hide EnvMail, LifeOf, For, Orderly, Served;
    OtherId(e, e1, id, j, open);
    DropKeepsEnv(e1, id);
    DropInOrder(e1, id, j);
  }

  /** And from its own: the life is over, its mail with it. */
  lemma ShutOwnId(e: Env, e1: Env, id: nat, x: Event)
    requires Served(e, e1, id) && IdInv(e, true, id)
    requires x.conn == id && x.body.ConnectionClosed? && EnvLife(e1, id) == Live(EnvLife(e, id), x, id, e.cfg.policy.closeThreshold)
    ensures IdInv(DropWritesFor(e1, id), false, id)
  {
    hide EnvMail, LifeOf, For, TimesAsked, Logged, SameSent, InOrder;
    assert Beside(e, e1, id, id);
    DropKeepsEnv(e1, id);
    DropInOrder(e1, id, id);
  }

  lemma DropIsLogged(e: Env, id: nat)
    requires Logged(e)
    ensures Logged(DropWritesFor(e, id))
  {
    hide Accounted, WireLog.Traced, WireComplained;
    DropKeepsEnv(e, id);
  }

  lemma ShutKeeps(w: World, s: Server, k: nat, cause: CloseCause, at: int)
    requires Inv(w, s) && k < |s.conns| && s.conns[k].used
    ensures Inv(w, Shut(w, s, k, cause, at))
    ensures var t := Shut(w, s, k, cause, at);
            |t.conns| == |s.conns| && forall i :: 0 <= i < |s.conns| && i != k ==> t.conns[i] == s.conns[i]
  {
    hide Followed, Logged, Paced, Attuned, IdInv, SlotInv, SayConnection, IsOpen, DropWritesFor, InOrder, SameSent, EnvLife, Live,
         Beside, Captured;
    var c := s.conns[k];
    var id, x := c.info.conn, Event(s.env.log.sequence, c.info.conn, at, ConnectionClosed(c.info, cause));
    var e := SayConnection(w, s.env, id, ConnectionClosed(c.info, cause), at);
    SayConnectionServed(w, s.env, id, ConnectionClosed(c.info, cause), at);
    var f := DropWritesFor(e, id);
    var t := Shut(w, s, k, cause, at);
    DropKeepsEnv(e, id);
    DropIsLogged(e, id);
    DropSent(e, id);
    SentCaptured(s.env, e);
    SentCaptured(e, f);
    forall j: nat
      ensures IdInv(f, IsOpen(t.conns, j), j) && (j != id ==> InOrder(e, j))
    {
      ShutAt(s.conns, k, j);
      assert IdInv(s.env, IsOpen(s.conns, j), j);
      if j != id {
        ShutOtherId(s.env, e, id, j, IsOpen(s.conns, j));
      } else {
        OpenNow(s.conns, k);
        ShutOwnId(s.env, e, id, x);
      }
    }
    forall i | 0 <= i < |t.conns|
      ensures SlotInv(w, f, t.conns[i])
    {
      assert SlotInv(w, s.env, s.conns[i]);
      if i == k {
        UnusedSlot(w, s.env, f, c);
      } else {
        OtherSlot(w, s.env, e, id, s.conns[i]);
        if s.conns[i].used {
          assert InOrder(e, s.conns[i].info.conn);
        }
        ShutOtherSlot(w, e, id, s.conns[i]);
      }
    }
  }

  lemma UnusedSlot(w: World, e: Env, f: Env, c: Conn)
    requires SlotInv(w, e, c)
    ensures SlotInv(w, f, c.(used := false))
  {
    hide Followed, Attuned, Paced;
  }

  lemma ClosedKeeps(w: World, s: Server, id: nat, cause: CloseCause, now: int)
    requires Inv(w, s)
    ensures Inv(w, Closed(w, s, id, cause, now).0)
  {
    hide Inv, FindConn, Shut;
    if !s.env.closed && FindConn(s.conns, id).Some? {
      SettingsAside(w, s, s.env.(now := now));
      ShutKeeps(w, At(s, now), FindConn(s.conns, id).value, cause, now);
    }
  }

  lemma SentCaptured(e: Env, f: Env)
    requires SameSent(e, f) && f.cfg == e.cfg
    ensures Captured(e) ==> Captured(f)
  {
  }

  lemma {:induction false} ShutFromKeeps(w: World, s: Server, k: nat)
    requires Inv(w, s) && k <= |s.conns|
    ensures Inv(w, ShutFrom(w, s, k))
    decreases |s.conns| - k
  {
    hide Inv, Shut;
    if k < |s.conns| {
      if s.conns[k].used {
        ShutKeeps(w, s, k, ServerClosed, s.env.now);
        ShutFromKeeps(w, Shut(w, s, k, ServerClosed, s.env.now), k + 1);
      } else {
        ShutFromKeeps(w, s, k + 1);
      }
    }
  }

  lemma CloseKeeps(w: World, s: Server)
    requires Inv(w, s)
    ensures Inv(w, Close(w, s))
  {
    hide Inv, ShutFrom;
    if !s.env.closed {
      ShutFromKeeps(w, s, 0);
      var t := ShutFrom(w, s, 0);
      SettingsAside(w, t, t.env.(closed := true));
    }
  }

  // --------------------------------------------------------------------------------------
  // The clock
  // --------------------------------------------------------------------------------------

  lemma IdleKept(e: Env, c: Conn, now: int)
    requires e.log.cap > 0 && !c.idleReported
    ensures Kept(e, c, Say(e, c.info.conn, now, ClientIdle), c.(idleReported := true))
  {
    hide Beside, Logged, EnvLife, Say, TimesAsked;
    SayServed(e, c.info.conn, now, ClientIdle);
  }

  lemma IdleFollowed(lib: NumLib, max: nat, c: Conn)
    requires Followed(lib, max, c)
    ensures Followed(lib, max, c.(idleReported := true))
  {
    hide Good;
    assert Seen(c.(idleReported := true)) == Seen(c);
  }

  /** Nothing from slot `k` on has been called idle already. */
  predicate NoneIdle(conns: seq<Conn>, k: nat) {
    forall j :: k <= j < |conns| && conns[j].used ==> !conns[j].idleReported
  }

  lemma {:induction false} TickFromKeeps(w: World, s: Server, k: nat, now: int)
    requires Inv(w, s) && k <= |s.conns| && (now < TIME_NEVER || NoneIdle(s.conns, k))
    ensures Inv(w, TickFrom(s, k, now))
    decreases |s.conns| - k
  {
    hide Inv, Kept, Followed, Say;
    if k < |s.conns| {
      var c := s.conns[k];
      if c.used && IdleDeadline(s.env.cfg.policy, c) <= now {
        InvFields(w, s, k);
        IdleKept(s.env, c, now);
        IdleFollowed(w.lib, s.env.cfg.maxMessage, c);
        var f, d := Say(s.env, c.info.conn, now, ClientIdle), c.(idleReported := true);
        KeptFields(s.env, c, f, d);
        ServeOne(w, s, k, f, d);
        TickFromKeeps(w, Server(f, s.conns[k := d]), k + 1, now);
      } else {
        TickFromKeeps(w, s, k + 1, now);
      }
    }
  }

  lemma TickKeeps(w: World, s: Server, now: int)
    requires Inv(w, s) && (now < TIME_NEVER || NoneIdle(s.conns, 0))
    ensures Inv(w, Tick(s, now))
  {
    hide Inv, TickFrom;
    if !s.env.closed {
      SettingsAside(w, s, s.env.(now := now));
      TickFromKeeps(w, At(s, now), 0, now);
    }
  }

  // --------------------------------------------------------------------------------------
  // Polls
  // --------------------------------------------------------------------------------------

  lemma PollEventsKeeps(w: World, s: Server, max: nat)
    requires Inv(w, s)
    ensures Inv(w, PollEvents(s, max).0)
  {
    hide Followed, Orderly, For, MailOf, LifeOf, Accounted, WireLog.Traced, IsOpen, Distinct, Complaints;
    var e, t := s.env, PollEvents(s, max).0;
    PollIsAccounted(e.log, max);
    PolledCap(e.log, max);
    forall k | 0 <= k < |s.conns|
      ensures SlotInv(w, t.env, s.conns[k])
    {
      assert SlotInv(w, e, s.conns[k]);
    }
    forall id: nat
      ensures IdInv(t.env, IsOpen(s.conns, id), id)
    {
      assert IdInv(e, IsOpen(s.conns, id), id);
    }
  }

  lemma PolledCap(l: Log, max: nat)
    ensures Poll(l, max).0.cap == l.cap
  {
  }

  lemma PollWireKeeps(w: World, s: Server, max: nat)
    requires Inv(w, s)
    ensures Inv(w, PollWire(s, max).0)
  {
    hide Followed, Orderly, For, MailOf, LifeOf, Accounted, WireLog.Traced, IsOpen, Distinct, Complaints;
    var e, t := s.env, PollWire(s, max).0;
    if e.cfg.wireRing != 0 {
      WireLog.PollIsTraced(e.wire, max, |e.log.emitted|);
      PolledMarks(e.wire, max, |e.log.emitted|);
      assert e.log.emitted[|e.log.emitted|..] == [];
      assert Complaints([], WireDropped) == 0 by { NoComplaints(); }
    }
    forall k | 0 <= k < |s.conns|
      ensures SlotInv(w, t.env, s.conns[k])
    {
      assert SlotInv(w, e, s.conns[k]);
    }
    forall id: nat
      ensures IdInv(t.env, IsOpen(s.conns, id), id)
    {
      assert IdInv(e, IsOpen(s.conns, id), id);
    }
  }

  lemma NoComplaints()
    ensures Complaints([], WireDropped) == 0
  {
  }

  lemma PolledMarks(l: WireLog.Wire, max: nat, seen: nat)
    ensures var m := WireLog.PollWire(l, max, seen).0;
            (m.warned == l.warned && m.mark == l.mark) || (m.warned == Quiet && m.mark == seen)
  {
  }

  /** Everything before `i` is held back. */
  predicate HeldBefore(s: Server, i: nat)
    requires i <= |s.env.writes|
  {
    forall j :: 0 <= j < i ==> Held(s, s.env.writes[j])
  }

  lemma WriteIsOpen(w: World, s: Server, i: nat)
    requires Inv(w, s) && i < |s.env.writes|
    ensures IsOpen(s.conns, s.env.writes[i].conn)
  {
    hide Followed, Logged, Attuned, Paced, IsOpen, SlotInv, Distinct;
    var id := s.env.writes[i].conn;
    assert IdInv(s.env, IsOpen(s.conns, id), id);
    ForSome(s.env.writes, id, i);
  }

  lemma FoundOpen(conns: seq<Conn>, id: nat)
    requires IsOpen(conns, id)
    ensures FindConn(conns, id).Some?
  {
  }

  lemma PutOff(w: World, e: Env, f: Env, c: Conn)
    requires SlotInv(w, e, c) && c.used && f.cfg == e.cfg && EnvLife(f, c.info.conn) == EnvLife(e, c.info.conn)
    requires EnvMail(f, c.info.conn).last == Some(e.now)
    ensures SlotInv(w, f, if e.cfg.policy.writeSpacing > 0 then c.(nextWrite := e.now + e.cfg.policy.writeSpacing) else c)
  {
    hide EnvMail, EnvLife, Orderly, Good;
    assert Seen(c.(nextWrite := e.now + e.cfg.policy.writeSpacing)) == Seen(c);
  }

  lemma UntouchedSlot(w: World, e: Env, f: Env, c: Conn)
    requires SlotInv(w, e, c) && f.cfg == e.cfg
    requires c.used ==> EnvLife(f, c.info.conn) == EnvLife(e, c.info.conn) && EnvMail(f, c.info.conn).last == EnvMail(e, c.info.conn).last
    ensures SlotInv(w, f, c)
  {
    hide EnvMail, EnvLife, Orderly, Followed;
  }

  lemma HandOutEnv(s: Server, i: nat)
    requires i < |s.env.writes| && s.env.log.cap > 0
    ensures var e, f := s.env, HandOut(s, i).env;
            && f == e.(log := f.log, wire := f.wire, writes := Rings.Without(e.writes, i), trace := e.trace + [Polled(e.writes[i], e.now)])
            && f.log.cap == e.log.cap && (Logged(e) ==> Logged(f))
            && forall id: nat :: EnvLife(f, id) == EnvLife(e, id)
  {
    hide WireBytes, LifeOf, Accounted, WireLog.Traced, WireComplained;
    var e, x := s.env, s.env.writes[i];
    WireBytesUnmoved(e, x.conn, ServerToClient, Clear(x.data), e.now, false);
    var g := WireBytes(e, x.conn, ServerToClient, Clear(x.data), e.now, false);
    if Logged(e) {
      WireBytesIsLogged(e, x.conn, ServerToClient, Clear(x.data), e.now, false);
    }
    forall id: nat
      ensures EnvLife(HandOut(s, i).env, id) == EnvLife(e, id)
    {
      assert EnvLife(g, id) == EnvLife(e, id);
    }
  }

  lemma HeldAlike(s: Server, i: nat, j: nat)
    requires i <= |s.env.writes| && HeldBefore(s, i) && j < i
    ensures Held(s, s.env.writes[j])
  {
  }

  lemma HandOutKeeps(w: World, s: Server, i: nat)
    requires Inv(w, s) && i < |s.env.writes| && HeldBefore(s, i) && !Held(s, s.env.writes[i])
    ensures Inv(w, HandOut(s, i))
  {
    hide Logged, Followed, Attuned, IdInv, SlotInv, IsOpen, EnvMail, EnvLife, WireBytes, For, InOrder, Captured, Paced;
    var e, x := s.env, s.env.writes[i];
    var id := x.conn;
    var t := HandOut(s, i);
    WriteIsOpen(w, s, i);
    FoundOpen(s.conns, id);
    var k := FindConn(s.conns, id).value;
    HandOutEnv(s, i);
    HandedTaken(e, x, t.env);
    forall j | 0 <= j < i
      ensures e.writes[j].conn != id
    {
      HeldAlike(s, i, j);
    }
    assert SlotInv(w, e, s.conns[k]);
    SlotFields(w, e, s.conns[k]);
    forall j: nat
      ensures IdInv(t.env, IsOpen(t.conns, j), j)
      ensures EnvMail(t.env, j).last == if j == id then Some(e.now) else EnvMail(e, j).last
    {
      assert IdInv(e, IsOpen(s.conns, j), j);
      HandOutId(s, i, j, IsOpen(s.conns, j), k);
      if e.cfg.policy.writeSpacing > 0 {
        OpenStays(s.conns, k, t.conns[k], j);
      }
    }
    forall n | 0 <= n < |t.conns|
      ensures SlotInv(w, t.env, t.conns[n])
    {
      assert SlotInv(w, e, s.conns[n]);
      if n == k {
        PutOff(w, e, t.env, s.conns[k]);
      } else {
        UntouchedSlot(w, e, t.env, s.conns[n]);
      }
    }
  }

  lemma HandOutId(s: Server, i: nat, j: nat, open: bool, k: nat)
    requires i < |s.env.writes| && s.env.log.cap > 0 && IdInv(s.env, open, j) && k < |s.conns|
    requires forall n :: 0 <= n < i ==> s.env.writes[n].conn != s.env.writes[i].conn
    requires s.conns[k].info.conn == s.env.writes[i].conn && s.env.now >= s.conns[k].nextWrite && Paced(s.env, s.conns[k])
    requires s.env.writes[i].conn == j ==> open
    ensures IdInv(HandOut(s, i).env, open, j)
    ensures EnvMail(HandOut(s, i).env, j).last == if j == s.env.writes[i].conn then Some(s.env.now) else EnvMail(s.env, j).last
  {
    hide Logged, EnvLife, Orderly, For, MailOf, WireBytes;
    var e, f := s.env, HandOut(s, i).env;
    HandOutEnv(s, i);
    TakeInOrder(e, i, j, f);
    assert EnvLife(f, j) == EnvLife(e, j);
    if !open {
      NotTaken(e, f, i, j);
    }
  }

  lemma NotTaken(e: Env, f: Env, i: nat, id: nat)
    requires i < |e.writes| && e.writes[i].conn != id && EnvMail(e, id) == NO_MAIL && For(e.writes, id) == []
    requires f.cfg == e.cfg && f.writes == Rings.Without(e.writes, i) && f.trace == e.trace + [Polled(e.writes[i], e.now)]
    ensures EnvMail(f, id) == NO_MAIL && For(f.writes, id) == []
  {
    hide For, MailOf;
    MailSnoc(e.trace, Polled(e.writes[i], e.now), id, e.cfg.policy.writeSpacing);
    ForWithout(e.writes, i, id);
  }

  lemma {:induction false} FindSame(a: seq<Conn>, b: seq<Conn>, id: nat, i: nat)
    requires |a| == |b| && i <= |a|
    requires forall k :: 0 <= k < |a| ==> a[k].used == b[k].used && a[k].info.conn == b[k].info.conn
    ensures FindFrom(a, id, i) == FindFrom(b, id, i)
    decreases |a| - i
  {
    if i < |a| {
      FindSame(a, b, id, i + 1);
    }
  }

  lemma HandOutFinds(s: Server, i: nat, id: nat)
    requires i < |s.env.writes|
    ensures FindConn(HandOut(s, i).conns, id) == FindConn(s.conns, id)
  {
    hide WireBytes;
    FindSame(s.conns, HandOut(s, i).conns, id, 0);
  }

  lemma HandOutHolds(s: Server, i: nat)
    requires i < |s.env.writes| && HeldBefore(s, i) && s.env.log.cap > 0 && !Held(s, s.env.writes[i])
    requires FindConn(s.conns, s.env.writes[i].conn).Some?
    ensures HeldBefore(HandOut(s, i), i)
  {
    hide EnvLife, Logged, WireBytes, FindConn;
    var t := HandOut(s, i);
    HandOutEnv(s, i);
    forall j | 0 <= j < i
      ensures Held(t, t.env.writes[j])
    {
      HeldAlike(s, i, j);
      HandOutFinds(s, i, s.env.writes[j].conn);
      assert t.env.writes[j] == s.env.writes[j];
    }
  }

  lemma {:induction false} PollWritesFromKeeps(w: World, s: Server, i: nat, max: nat)
    requires Inv(w, s) && i <= |s.env.writes| && HeldBefore(s, i)
    ensures Inv(w, PollWritesFrom(s, i, max).0)
    decreases |s.env.writes| - i
  {
    hide Inv, HandOut, FindConn, IsOpen;
    if i < |s.env.writes| && max > 0 {
      if Held(s, s.env.writes[i]) {
        PollWritesFromKeeps(w, s, i + 1, max);
      } else {
        InvConfig(w, s);
        WriteIsOpen(w, s, i);
        FoundOpen(s.conns, s.env.writes[i].conn);
        HandOutKeeps(w, s, i);
        HandOutHolds(s, i);
        HandOutEnv(s, i);
        PollWritesFromKeeps(w, HandOut(s, i), i, max - 1);
      }
    }
  }

  lemma InvConfig(w: World, s: Server)
    requires Inv(w, s)
    ensures ConfigInv(s.env)
  {
  }

  // --------------------------------------------------------------------------------------
  // Runs
  // --------------------------------------------------------------------------------------

  /** The clock is told a time before the end of time. */
  predicate InTime(call: Call) {
    call.CallTick? ==> call.now < TIME_NEVER
  }

  /** Whatever a host calls, everything above still holds. */
  lemma DoKeeps(w: World, s: Server, call: Call)
    requires Inv(w, s) && Scanned(s) && InTime(call)
    ensures Inv(w, Do(w, s, call))
  {
    hide Inv, Open, Closed, OnBytes, Tick, SetPlayer, SendPlayerInfo, SetSession, PollWrites, PollEvents, PollWire, Close;
    match call {
      case CallOpen(id, peer, now) => OpenKeeps(w, s, id, peer, now);
      case CallClosed(id, cause, now) => ClosedKeeps(w, s, id, cause, now);
      case CallBytes(id, data, now) => OnBytesKeeps(w, s, id, data, now);
      case CallTick(now) => TickKeeps(w, s, now);
      case CallSetPlayer(player, now) => SetPlayerKeeps(w, s, player, now);
      case CallSendPlayer(id, info, now) => SendPlayerInfoKeeps(w, s, id, info, now);
      case CallSetSession(state, now) => SetSessionKeeps(w, s, state, now);
      case CallPollWrites(max) => PollWritesKeeps(w, s, max);
      case CallPollEvents(max) => PollEventsKeeps(w, s, max);
      case CallPollWire(max) => PollWireKeeps(w, s, max);
      case CallClose => CloseKeeps(w, s);
    }
  }

  lemma PollWritesKeeps(w: World, s: Server, max: nat)
    requires Inv(w, s)
    ensures Inv(w, PollWrites(s, max).0)
  {
    hide Inv;
    PollWritesFromKeeps(w, s, 0, max);
  }

  /** `s` is where `calls` lead a server created with `cfg`. */
  ghost predicate Reaches(w: World, cfg: Config, calls: seq<Call>, s: Server) {
    if calls == [] then s == NewServer(cfg)
    else
      exists p :: && Reaches(w, cfg, calls[..|calls| - 1], p) && Scanned(p)
                  && s == Do(w, p, calls[|calls| - 1])
  }

  /** One call on. */
  lemma CallOn(w: World, cfg: Config, calls: seq<Call>, p: Server, call: Call)
    requires Reaches(w, cfg, calls, p) && Scanned(p)
    ensures Reaches(w, cfg, calls + [call], Do(w, p, call))
  {
    hide Do;
    var all := calls + [call];
    assert all[..|all| - 1] == calls;
  }

  lemma NewIsScanned(cfg: Config)
    requires Usable(cfg)
    ensures Scanned(NewServer(cfg))
  {
  }

  lemma OneOn(w: World, cfg: Config, c0: Call)
    requires Usable(cfg) && Scanned(NewServer(cfg))
    ensures Reaches(w, cfg, [c0], Do(w, NewServer(cfg), c0))
  {
    hide Usable, NewServer, Scanned, Do;
    assert Reaches(w, cfg, [], NewServer(cfg));
    hide Reaches;
    CallOn(w, cfg, [], NewServer(cfg), c0);
    assert [] + [c0] == [c0];
  }

  lemma TwoOn(w: World, cfg: Config, c0: Call, c1: Call, s1: Server)
    requires Usable(cfg) && Scanned(NewServer(cfg)) && s1 == Do(w, NewServer(cfg), c0) && Scanned(s1)
    ensures Reaches(w, cfg, [c0, c1], Do(w, s1, c1))
  {
    hide Usable, NewServer, Scanned, Do;
    assert Reaches(w, cfg, [], NewServer(cfg));
    hide Reaches;
    CallOn(w, cfg, [], NewServer(cfg), c0);
    assert [] + [c0] == [c0];
    CallOn(w, cfg, [c0], s1, c1);
    assert [c0] + [c1] == [c0, c1];
  }

  lemma ThreeOn(w: World, cfg: Config, c0: Call, c1: Call, c2: Call, s1: Server, s2: Server)
    requires Usable(cfg) && Scanned(NewServer(cfg)) && s1 == Do(w, NewServer(cfg), c0)
    requires Scanned(s1) && s2 == Do(w, s1, c1) && Scanned(s2)
    ensures Reaches(w, cfg, [c0, c1, c2], Do(w, s2, c2))
  {
    hide Usable, NewServer, Scanned, Do, Reaches;
    TwoOn(w, cfg, c0, c1, s1);
    CallOn(w, cfg, [c0, c1], s2, c2);
    assert [c0, c1] + [c2] == [c0, c1, c2];
  }

  lemma {:induction false} EveryRun(w: World, cfg: Config, calls: seq<Call>, s: Server)
    requires Usable(cfg) && cfg.policy.closeThreshold < WORD
    requires forall i :: 0 <= i < |calls| ==> InTime(calls[i])
    requires Reaches(w, cfg, calls, s)
    ensures Inv(w, s)
    decreases |calls|
  {
    hide Inv, Do, NewServer, Usable;
    if calls == [] {
      NewIsInv(w, cfg);
    } else {
      var n := |calls| - 1;
      var p :| Reaches(w, cfg, calls[..n], p) && Scanned(p) && s == Do(w, p, calls[n]);
      EveryRun(w, cfg, calls[..n], p);
      DoKeeps(w, p, calls[n]);
    }
  }
}
