/** Who is sent what when the host changes the player or the session. */
module Sending {
  import opened Bytes
  import opened Message
  import P = Protocol
  import opened Encode
  import opened Events
  import opened EventLog
  import opened Hub
  import opened Conns
  import opened Sizes
  import opened Mails
  import opened Replies
  import opened Server
  import Runs

  /** The open connections in slots `k` to `j - 1`. */
  function OpenBetween(conns: seq<Conn>, k: nat, j: nat): nat
    requires k <= j <= |conns|
    decreases j - k
  {
    if k == j then 0 else (if conns[k].used then 1 else 0) + OpenBetween(conns, k + 1, j)
  }

  /** One of the first `room` open connections from slot `k` on is `id`. */
  predicate ReachedFrom(conns: seq<Conn>, k: nat, room: int, id: nat) {
    exists j :: k <= j < |conns| && conns[j].used && conns[j].info.conn == id && OpenBetween(conns, k, j) < room
  }

  lemma ReachedStep(conns: seq<Conn>, k: nat, room: int, id: nat)
    requires k < |conns| && Runs.Distinct(conns)
    ensures ReachedFrom(conns, k, room, id)
            == if conns[k].used
               then (room > 0 && conns[k].info.conn == id) || ReachedFrom(conns, k + 1, room - 1, id)
               else ReachedFrom(conns, k + 1, room, id)
    ensures conns[k].used && conns[k].info.conn == id ==> !ReachedFrom(conns, k + 1, room - 1, id)
  {
    if ReachedFrom(conns, k, room, id) {
      var j :| k <= j < |conns| && conns[j].used && conns[j].info.conn == id && OpenBetween(conns, k, j) < room;
      assert j > k ==> OpenBetween(conns, k, j) == (if conns[k].used then 1 else 0) + OpenBetween(conns, k + 1, j);
    }
    var rest := if conns[k].used then room - 1 else room;
    if ReachedFrom(conns, k + 1, rest, id) {
      var j :| k + 1 <= j < |conns| && conns[j].used && conns[j].info.conn == id && OpenBetween(conns, k + 1, j) < rest;
      assert OpenBetween(conns, k, j) == (if conns[k].used then 1 else 0) + OpenBetween(conns, k + 1, j);
    }
    if conns[k].used && conns[k].info.conn == id && room > 0 {
      assert OpenBetween(conns, k, k) == 0;
    }
  }

  lemma NoneReached(conns: seq<Conn>, k: nat, room: int, id: nat)
    requires room <= 0
    ensures !ReachedFrom(conns, k, room, id)
  {
  }

  function Room(e: Env): int {
    e.cfg.writeRing - |e.writes|
  }

  /**
   * `id` is open and the ring has room for a request to it and to every open connection in a slot
   * before its own.
   */
  predicate Reached(s: Server, id: nat) {
    ReachedFrom(s.conns, 0, Room(s.env), id)
  }

  lemma {:induction false} OpenBetweenGrows(conns: seq<Conn>, k: nat, j: nat)
    requires k <= j < |conns| && conns[j].used
    ensures OpenBetween(conns, k, j) < OpenBetween(conns, k, |conns|)
    decreases j - k
  {
    if k < j {
      OpenBetweenGrows(conns, k + 1, j);
    }
  }

  /** With room for everyone, the reached are the open ones. */
  lemma AllReached(s: Server, id: nat)
    requires Room(s.env) >= OpenBetween(s.conns, 0, |s.conns|)
    ensures Reached(s, id) <==> Runs.IsOpen(s.conns, id)
  {
    if Runs.IsOpen(s.conns, id) {
      var j :| 0 <= j < |s.conns| && s.conns[j].used && s.conns[j].info.conn == id;
      OpenBetweenGrows(s.conns, 0, j);
    }
  }

  /** What was reported of players and sessions sent to `id`. */
  function Notices(es: seq<Event>, id: nat): seq<Body> {
    if es == [] then []
    else
      var x := es[|es| - 1];
      Notices(es[..|es| - 1], id) + if x.conn == id && (x.body.PlayerSent? || x.body.SessionSent?) then [x.body] else []
  }

  /** For `id`, `x` was queued behind what was waiting and reported as `body` if `sent`; else nothing was. */
  predicate SentOne(e: Env, f: Env, id: nat, sent: bool, x: Write, body: Body) {
    && f.log.cap == e.log.cap
    && For(f.writes, id) == For(e.writes, id) + (if sent then [x] else [])
    && Notices(f.log.emitted, id) == Notices(e.log.emitted, id) + if sent then [body] else []
  }

  lemma NoticesSnoc(es: seq<Event>, x: Event, id: nat)
    ensures Notices(es + [x], id)
         == Notices(es, id) + if x.conn == id && (x.body.PlayerSent? || x.body.SessionSent?) then [x.body] else []
  {
    assert (es + [x])[..|es|] == es;
  }

  lemma SayNotices(e: Env, conn: nat, at: int, body: Body, id: nat)
    requires e.log.cap > 0
    ensures var f := Say(e, conn, at, body);
            && f.log.cap == e.log.cap
            && Notices(f.log.emitted, id)
               == Notices(e.log.emitted, id) + if conn == id && (body.PlayerSent? || body.SessionSent?) then [body] else []
  {
    hide Notices;
    var x := Event(e.log.sequence, conn, at, body);
    var l1 := Put(e.log.(sequence := Inc32(e.log.sequence)), x);
    NoticesSnoc(e.log.emitted, x, id);
    if l1.warned == Owed {
      NoticesSnoc(l1.emitted, Event(l1.sequence, CONN_NONE, e.now, Warning(EventsDropped, l1.dropped)), id);
    }
  }

  // --------------------------------------------------------------------------------------
  // The player
  // --------------------------------------------------------------------------------------

  function PlayerWrite(w: World, id: nat, p: PlayerInfo): Write {
    Write(id, Player, ResponseText(w.lib, 201, Some(Ascii("GSPro Player Information")), Some(p)))
  }

  predicate PlayerFits(w: World, p: PlayerInfo) {
    EncodeStatus(w.lib, 201, Some(Ascii("GSPro Player Information")), Some(p), 256) == P.Ok
  }

  lemma OnePlayerSent(w: World, e: Env, conn: nat, p: PlayerInfo, why: PlayerReason, at: int, id: nat)
    requires e.log.cap > 0
    ensures var f := SendPlayer(w, e, conn, p, why, at);
            var sent := PlayerFits(w, p) && Room(e) > 0;
            && SentOne(e, f, id, sent && conn == id, PlayerWrite(w, id, p), PlayerSent(p, why))
            && Room(f) == Room(e) - if sent then 1 else 0
  {
    hide Emit, ResponseText, EncodeStatus, Notices, Ascii;
    ForSnoc(e.writes, PlayerWrite(w, conn, p), id);
    SayNotices(QueueWrite(w, e, conn, Player, P.CODE_PLAYER_INFO, P.TEXT_PLAYER_INFO, Some(p)), conn, at, PlayerSent(p, why), id);
  }

  lemma {:induction false} PlayerSentFrom(w: World, e: Env, conns: seq<Conn>, k: nat, p: PlayerInfo, why: PlayerReason,
                                          at: int, id: nat)
    requires k <= |conns| && Runs.Distinct(conns) && e.log.cap > 0
    ensures SentOne(e, SendPlayerFrom(w, e, conns, k, p, why, at), id,
                    PlayerFits(w, p) && ReachedFrom(conns, k, Room(e), id), PlayerWrite(w, id, p), PlayerSent(p, why))
    decreases |conns| - k
  {
    hide SendPlayer, PlayerWrite, PlayerFits, For, ReachedFrom, Room, Notices;
    if k == |conns| {
      NoneFrom(conns, k, Room(e), id);
    } else {
      ReachedStep(conns, k, Room(e), id);
      if conns[k].used {
        var f := SendPlayer(w, e, conns[k].info.conn, p, why, at);
        OnePlayerSent(w, e, conns[k].info.conn, p, why, at, id);
        PlayerSentFrom(w, f, conns, k + 1, p, why, at, id);
        if Room(e) <= 0 {
          NoneReached(conns, k + 1, Room(f), id);
          NoneReached(conns, k + 1, Room(e) - 1, id);
        }
      } else {
        PlayerSentFrom(w, e, conns, k + 1, p, why, at, id);
      }
    }
  }

  lemma NoneFrom(conns: seq<Conn>, k: nat, room: int, id: nat)
    requires k >= |conns|
    ensures !ReachedFrom(conns, k, room, id)
  {
  }

  lemma {:induction false} PlayerStays(w: World, e: Env, conns: seq<Conn>, k: nat, p: PlayerInfo, why: PlayerReason, at: int)
    requires k <= |conns|
    ensures var f := SendPlayerFrom(w, e, conns, k, p, why, at); f.player == e.player && f.playerSet == e.playerSet
    decreases |conns| - k
  {
    hide Emit, Queues;
    if k < |conns| {
      PlayerStays(w, if conns[k].used then SendPlayer(w, e, conns[k].info.conn, p, why, at) else e, conns, k + 1, p, why, at);
    }
  }

  /** The player is news: none was set, or some field of it differs from the one that was; a distance that is no number always does. */
  predicate News(known: bool, was: PlayerInfo, p: PlayerInfo) {
    || !known || was.handed != p.handed || was.club != p.club || was.surface != p.surface || was.hasDistance != p.hasDistance
    || (p.hasDistance && (was.distance != p.distance || p.distance.NaN?))
  }

  /** The player says anything: a hand, a club, a distance or a surface. */
  predicate Speaks(p: PlayerInfo) {
    p.handed > 0 || p.club > 0 || p.hasDistance || |p.surface| > 0
  }

  lemma NewsIs(e: Env, p: PlayerInfo)
    ensures News(e.playerSet, e.player, p) <==> !e.playerSet || !SamePlayer(e.player, p)
    ensures Speaks(p) <==> HasAnything(p)
  {
  }

  /**
   * A player that differs from the stored one in any field and says anything goes to every open
   * connection, behind what is waiting for it, as far as the ring has room in slot order, and to no
   * other; an identical or an empty one goes to none. It is stored in any case.
   */
  lemma PlayerSetSends(w: World, s: Server, p: PlayerInfo, now: int, id: nat)
    requires !s.env.closed && Runs.Distinct(s.conns) && s.env.log.cap > 0
    ensures var (t, status) := SetPlayer(w, s, p, now);
            var sends := News(s.env.playerSet, s.env.player, p) && Speaks(p);
            && SentOne(s.env, t.env, id, sends && PlayerFits(w, p) && Reached(s, id), PlayerWrite(w, id, p), PlayerSent(p, Changed))
            && t.env.player == p && t.env.playerSet && t.conns == s.conns && status == P.Ok
  {
    hide SendPlayerFrom, PlayerWrite, PlayerFits, For, SamePlayer, HasAnything, ReachedFrom, Notices, News, Speaks;
    NewsIs(s.env, p);
    var e := s.env.(now := now, player := p, playerSet := true);
    PlayerSentFrom(w, e, s.conns, 0, p, Changed, now, id);
    PlayerStays(w, e, s.conns, 0, p, Changed, now);
  }

  /** The same on request: to one open connection, or to all; the stored player stays what it was. */
  lemma PlayerInfoSends(w: World, s: Server, to: nat, p: Option<PlayerInfo>, now: int, id: nat)
    requires !s.env.closed && Runs.Distinct(s.conns) && s.env.log.cap > 0
    ensures var (t, status) := SendPlayerInfo(w, s, to, p, now);
            var q := if p.Some? then p.value else s.env.player;
            && SentOne(s.env, t.env, id,
                       && PlayerFits(w, q)
                       && (if to == 0xffff_ffff then Reached(s, id) else to == id && Runs.IsOpen(s.conns, id) && Room(s.env) > 0),
                       PlayerWrite(w, id, q), PlayerSent(q, Explicit))
            && (status == P.Ok <==> to == 0xffff_ffff || Runs.IsOpen(s.conns, to))
            && (status != P.Ok ==> status == P.UnknownConnection)
            && t.env.player == s.env.player && t.env.playerSet == s.env.playerSet && t.conns == s.conns
  {
    hide SendPlayerFrom, SendPlayer, PlayerWrite, PlayerFits, For, FindConn, ReachedFrom, Notices;
    var q := if p.Some? then p.value else s.env.player;
    var e := s.env.(now := now);
    if to == CONN_ALL {
      PlayerSentFrom(w, e, s.conns, 0, q, Explicit, now, id);
      PlayerStays(w, e, s.conns, 0, q, Explicit, now);
    } else if Runs.IsOpen(s.conns, to) {
      Runs.FoundOpen(s.conns, to);
      OnePlayerSent(w, e, to, q, Explicit, now, id);
      OnePlayerStays(w, e, to, q, Explicit, now);
    } else {
      NotFound(s.conns, to);
    }
  }

  lemma OnePlayerStays(w: World, e: Env, conn: nat, p: PlayerInfo, why: PlayerReason, at: int)
    ensures var f := SendPlayer(w, e, conn, p, why, at); f.player == e.player && f.playerSet == e.playerSet
  {
    hide Emit, Queues;
  }

  lemma NotFound(conns: seq<Conn>, id: nat)
    requires !Runs.IsOpen(conns, id)
    ensures FindConn(conns, id) == None
  {
    hide FindFrom;
    var k := FindConn(conns, id);
  }

  // --------------------------------------------------------------------------------------
  // The session
  // --------------------------------------------------------------------------------------

  function SessionWrite(w: World, id: nat, state: Session): Write {
    if state == SessionEnded then Write(id, RoundEnded, ResponseText(w.lib, 203, Some(Ascii("GSPro round ended")), None))
    else Write(id, Ready, ResponseText(w.lib, 202, Some(Ascii("GSPro ready")), None))
  }

  lemma OneSessionSent(w: World, e: Env, conn: nat, state: Session, why: PlayerReason, at: int, id: nat)
    requires state != SessionNone && e.log.cap > 0
    ensures var f := SendSession(w, e, conn, state, why, at);
            && SentOne(e, f, id, Room(e) > 0 && conn == id, SessionWrite(w, id, state), SessionSent(state, why))
            && Room(f) == Room(e) - (if Room(e) > 0 then 1 else 0) && f.session == e.session
  {
    hide Emit, ResponseText, EncodeStatus, Notices, Ascii;
    FixedTextsFit(w.lib);
    ForSnoc(e.writes, SessionWrite(w, conn, state), id);
    SayNotices(QueueWrite(w, e, conn, Ready, P.CODE_READY, P.TEXT_READY, None), conn, at, SessionSent(state, why), id);
    SayNotices(QueueWrite(w, e, conn, RoundEnded, P.CODE_ROUND_ENDED, P.TEXT_ROUND_ENDED, None), conn, at, SessionSent(state, why), id);
  }

  lemma {:induction false} SessionSentFrom(w: World, e: Env, conns: seq<Conn>, k: nat, state: Session, at: int, id: nat)
    requires k <= |conns| && Runs.Distinct(conns) && state != SessionNone && e.log.cap > 0
    ensures var f := SendSessionFrom(w, e, conns, k, state, at);
            && SentOne(e, f, id, ReachedFrom(conns, k, Room(e), id), SessionWrite(w, id, state), SessionSent(state, Changed))
            && f.session == e.session
    decreases |conns| - k
  {
    hide SendSession, SessionWrite, For, ReachedFrom, Room, Notices;
    if k == |conns| {
      NoneFrom(conns, k, Room(e), id);
    } else {
      ReachedStep(conns, k, Room(e), id);
      if conns[k].used {
        var f := SendSession(w, e, conns[k].info.conn, state, Changed, at);
        OneSessionSent(w, e, conns[k].info.conn, state, Changed, at, id);
        SessionSentFrom(w, f, conns, k + 1, state, at, id);
        if Room(e) <= 0 {
          NoneReached(conns, k + 1, Room(f), id);
          NoneReached(conns, k + 1, Room(e) - 1, id);
        }
      } else {
        SessionSentFrom(w, e, conns, k + 1, state, at, id);
      }
    }
  }

  lemma {:induction false} NoSessionSent(w: World, e: Env, conns: seq<Conn>, k: nat, at: int)
    requires k <= |conns|
    ensures SendSessionFrom(w, e, conns, k, SessionNone, at) == e
    decreases |conns| - k
  {
    if k < |conns| {
      NoSessionSent(w, e, conns, k + 1, at);
    }
  }

  /**
   * A session state other than the present one goes to every open connection, as far as the ring
   * has room in slot order, and to no other; the present one goes to none, and neither does that
   * there is none. It is then the present one.
   */
  lemma SessionSetSends(w: World, s: Server, state: Session, now: int, id: nat)
    requires !s.env.closed && Runs.Distinct(s.conns) && s.env.log.cap > 0
    ensures var (t, status) := SetSession(w, s, state, now);
            && SentOne(s.env, t.env, id, state != s.env.session && state != SessionNone && Reached(s, id),
                       SessionWrite(w, id, state), SessionSent(state, Changed))
            && t.env.session == state && t.conns == s.conns && status == P.Ok
  {
    hide SendSessionFrom, SessionWrite, For, ReachedFrom, Notices;
    var e := s.env.(now := now, session := state);
    if state == SessionNone {
      NoSessionSent(w, e, s.conns, 0, now);
    } else {
      SessionSentFrom(w, e, s.conns, 0, state, now, id);
    }
  }
}
