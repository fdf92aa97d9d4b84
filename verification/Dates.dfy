/**
 * When things happened and how often: every event and every chunk bears the time of the call that
 * brought it about, and the message events are numbered through.
 */
module Dates {
  import opened Bytes
  import opened Message
  import P = Protocol
  import opened Decode
  import opened Encode
  import opened Redact
  import opened Events
  import opened EventLog
  import WireLog
  import opened Hub
  import opened Conns
  import Frame
  import opened Server
  import opened Runs

  /** The numbers of the message events, in order. */
  function Numbers(es: seq<Event>): seq<nat> {
    if es == [] then []
    else Numbers(es[..|es| - 1]) + if es[|es| - 1].body.Heard? then [es[|es| - 1].body.number] else []
  }

  /** They count up from zero, as far as 32 bits go, and the server's number is the next one. */
  predicate NumberedThrough(e: Env) {
    && (forall i :: 0 <= i < |Numbers(e.log.emitted)| ==> Numbers(e.log.emitted)[i] == i % 0x1_0000_0000)
    && e.number == |Numbers(e.log.emitted)| % 0x1_0000_0000
  }

  /** Events and chunks have only been added since, and those at `at`. */
  predicate Dated(e: Env, f: Env, at: int) {
    && e.log.emitted <= f.log.emitted && e.wire.pushed <= f.wire.pushed
    && (forall i :: |e.log.emitted| <= i < |f.log.emitted| ==> f.log.emitted[i].at == at)
    && (forall i :: |e.wire.pushed| <= i < |f.wire.pushed| ==> f.wire.pushed[i].at == at)
  }

  /** All of it in the present, and by the same clock. */
  predicate Present(e: Env, f: Env) {
    f.now == e.now && f.log.cap == e.log.cap && Dated(e, f, e.now)
  }

  /** No message was reported. */
  predicate Quietly(e: Env, f: Env) {
    Present(e, f) && f.number == e.number && Numbers(f.log.emitted) == Numbers(e.log.emitted)
  }

  /** Messages that were reported got the next numbers. */
  predicate Passed(e: Env, f: Env) {
    Present(e, f) && (NumberedThrough(e) ==> NumberedThrough(f))
  }

  lemma QuietThen(e: Env, f: Env, g: Env)
    requires Quietly(e, f) && Quietly(f, g)
    ensures Quietly(e, g)
  {
    hide Numbers;
  }

  lemma PassedThen(e: Env, f: Env, g: Env)
    requires Passed(e, f) && Passed(f, g)
    ensures Passed(e, g)
  {
    hide NumberedThrough;
  }

  lemma QuietPasses(e: Env, f: Env)
    requires Quietly(e, f)
    ensures Passed(e, f)
  {
    hide Numbers;
  }

  // --------------------------------------------------------------------------------------
  // Saying and taking down
  // --------------------------------------------------------------------------------------

  lemma NumbersSnoc(es: seq<Event>, x: Event)
    ensures Numbers(es + [x]) == Numbers(es) + if x.body.Heard? then [x.body.number] else []
  {
    assert (es + [x])[..|es|] == es;
  }

  lemma PutDated(l: Log, x: Event)
    ensures var m := Put(l, x);
            && m.cap == l.cap
            && m.emitted == (if l.cap == 0 then l.emitted else l.emitted + [x])
  {
  }

  /** An event, and with it at most a complaint of the same time. */
  lemma SayPresent(e: Env, conn: nat, body: Body)
    ensures var f := Say(e, conn, e.now, body);
            && Present(e, f) && f.number == e.number
            && Numbers(f.log.emitted)
               == Numbers(e.log.emitted) + if body.Heard? && e.log.cap > 0 then [body.number] else []
  {
    hide Put, Numbers;
    var l, x := e.log, Event(e.log.sequence, conn, e.now, body);
    var l0 := l.(sequence := Inc32(l.sequence));
    var l1 := Put(l0, x);
    PutDated(l0, x);
    NumbersSnoc(l.emitted, x);
    if l1.warned == Owed {
      var y := Event(l1.sequence, CONN_NONE, e.now, Warning(EventsDropped, l1.dropped));
      PutDated(l1.(warned := Said, sequence := Inc32(l1.sequence)), y);
      NumbersSnoc(l1.emitted, y);
    }
  }

  lemma SayQuiet(e: Env, conn: nat, body: Body)
    requires !body.Heard?
    ensures Quietly(e, Say(e, conn, e.now, body))
  {
    hide Say, Numbers;
    SayPresent(e, conn, body);
  }

  lemma WireOneQuiet(e: Env, chunk: Chunk)
    requires chunk.at == e.now
    ensures Quietly(e, WireOne(e, chunk))
  {
    hide Say, Numbers;
    var e1 := e.(wire := WireLog.Push(e.wire, chunk));
    assert Quietly(e, e1);
    if e1.wire.warned == Owed {
      var e2 := e1.(wire := e1.wire.(warned := Said));
      SayQuiet(e2, CONN_NONE, Warning(WireDropped, e1.wire.dropped));
      QuietThen(e, e2, WireOne(e, chunk));
    }
  }

  lemma {:induction false} WireAllQuiet(e: Env, chunks: seq<Chunk>)
    requires forall i :: 0 <= i < |chunks| ==> chunks[i].at == e.now
    ensures Quietly(e, WireAll(e, chunks))
    decreases |chunks|
  {
    hide WireOne, Numbers;
    if chunks != [] {
      WireOneQuiet(e, chunks[0]);
      WireAllQuiet(WireOne(e, chunks[0]), chunks[1..]);
      QuietThen(e, WireOne(e, chunks[0]), WireAll(e, chunks));
    }
  }

  lemma {:induction false} ChunksDated(conn: nat, direction: Direction, cells: seq<Cell>, at: int, withheld: bool)
    ensures forall i :: 0 <= i < |ChunksOf(conn, direction, cells, at, withheld)| ==>
              ChunksOf(conn, direction, cells, at, withheld)[i].at == at
    decreases |cells|
  {
    hide AnyHidden, CellBytes;
    if |cells| > CHUNK_MAX {
      ChunksDated(conn, direction, cells[CHUNK_MAX..], at, withheld);
    }
  }

  lemma WireBytesQuiet(e: Env, conn: nat, direction: Direction, cells: seq<Cell>, withheld: bool)
    ensures Quietly(e, WireBytes(e, conn, direction, cells, e.now, withheld))
  {
    hide WireAll, ChunksOf, Numbers;
    ChunksDated(conn, direction, cells, e.now, withheld);
    WireAllQuiet(e, ChunksOf(conn, direction, cells, e.now, withheld));
  }

  lemma WireClientQuiet(e: Env, conn: nat, data: seq<Byte>)
    ensures Quietly(e, WireClient(e, conn, data, e.now))
  {
    hide WireBytes, Paint, Numbers;
    if data != [] {
      WireBytesQuiet(e, conn, ClientToServer, if e.cfg.policy.recordIdentifiers then Clear(data) else Paint(data), false);
    }
  }

  lemma SayConnectionQuiet(w: World, e: Env, conn: nat, body: Body)
    requires !body.Heard?
    ensures Quietly(e, SayConnection(w, e, conn, body, e.now))
  {
    hide Say, WireBytes, Numbers, Quietly;
    var e1 := Say(e, conn, e.now, body);
    SayQuiet(e, conn, body);
    if body.ConnectionOpened? || body.ConnectionClosed? {
      var line := Upto(w.describe(Event(e.log.sequence, conn, e.now, body), e.cfg.policy.recordIdentifiers), META_MAX);
      SameClock(e, e1);
      WireBytesQuiet(e1, conn, Meta, Clear(line), !e.cfg.policy.recordIdentifiers);
      QuietThen(e, e1, SayConnection(w, e, conn, body, e.now));
    }
  }

  lemma SameClock(e: Env, f: Env)
    ensures Quietly(e, f) ==> f.now == e.now && f.log.cap == e.log.cap && f.number == e.number
    ensures Passed(e, f) ==> f.now == e.now && f.log.cap == e.log.cap
  {
    hide Numbers, NumberedThrough, Dated;
  }

  // --------------------------------------------------------------------------------------
  // One message, one error
  // --------------------------------------------------------------------------------------

  lemma QueueQuiet(w: World, e: Env, conn: nat, kind: WriteKind, code: int, text: seq<Byte>, player: Option<PlayerInfo>)
    ensures Quietly(e, QueueWrite(w, e, conn, kind, code, text, player))
  {
    hide Numbers, Queues;
  }

  lemma RefusePassed(w: World, e: Env, c: Conn, reason: ErrorReason, snippet: seq<Byte>, discarded: nat)
    ensures Passed(e, Refuse(w, e, c, reason, snippet, discarded, e.now).0)
  {
    hide WireClient, QueueWrite, Say, Quietly, Passed, Numbers;
    var id, d := c.info.conn, ErrorCounted(c);
    var f := FailureOf(d, reason, snippet, discarded);
    var e1 := WireClient(e, id, snippet, e.now);
    WireClientQuiet(e, id, snippet);
    SameClock(e, e1);
    var e2 := QueueWrite(w, e1, id, Failed, P.CODE_FAILURE, FailureText(reason), None);
    QueueQuiet(w, e1, id, Failed, P.CODE_FAILURE, FailureText(reason), None);
    SameClock(e1, e2);
    QuietThen(e, e1, e2);
    var e3 := Say(e2, id, e.now, ProtocolError(f));
    SayQuiet(e2, id, ProtocolError(f));
    SameClock(e2, e3);
    QuietThen(e, e2, e3);
    QuietPasses(e, e3);
    SayQuiet(e3, id, CloseRequested(f));
    QuietThen(e, e3, Say(e3, id, e.now, CloseRequested(f)));
    QuietPasses(e, Say(e3, id, e.now, CloseRequested(f)));
  }

  lemma ReplyQuiet(w: World, e: Env, conn: nat, m: Message)
    ensures Quietly(e, Reply(w, e, conn, m))
  {
    hide QueueWrite, Quietly;
    QueueQuiet(w, e, conn, Failed, P.CODE_FAILURE, P.TEXT_INCOMPLETE, None);
    QueueQuiet(w, e, conn, Ack, P.CODE_SHOT_RECEIVED, AckText(e.cfg), None);
  }

  lemma QuietNothing(e: Env)
    ensures Quietly(e, e)
  {
    hide Numbers;
  }

  lemma NotesQuiet(w: World, e: Env, c: Conn, m: Message)
    ensures Quietly(e, Notes(w, e, c, m, e.now).0)
  {
    hide Say, SayConnection, Quietly, Latest;
    var id := c.info.conn;
    var (e1, c1) := NoteActive(e, c, e.now);
    QuietNothing(e);
    SayQuiet(e, id, ClientActive);
    assert Quietly(e, e1);
    SameClock(e, e1);
    var (e2, c2) := NoteIdentity(w, e1, c1, m, e.now);
    QuietNothing(e1);
    SayConnectionQuiet(w, e1, id, Identified(c1.info.(identified := true, deviceId := m.deviceId)));
    SayQuiet(e1, id, Warning(DeviceIdChanged, 0));
    assert Quietly(e1, e2);
    QuietThen(e, e1, e2);
    SameClock(e, e2);
    var (e3, c3) := NoteState(e2, c2, m, e.now);
    QuietNothing(e2);
    SayQuiet(e2, id, ClientState(Latest(m, LaunchMonitorIsReady, c2.info.ready), Latest(m, LaunchMonitorBallDetected, c2.info.ballDetected),
                                 c2.info.ready, c2.info.ballDetected));
    assert Quietly(e2, e3);
    QuietThen(e, e2, e3);
  }

  /** One message with the next number. */
  lemma NextNumber(e: Env, e1: Env, e2: Env, e3: Env, f: Env)
    requires Quietly(e, e1) && e2 == e1.(number := Inc32(e1.number)) && Quietly(e2, e3)
    requires Present(e3, f) && f.number == e3.number && Numbers(f.log.emitted) == Numbers(e3.log.emitted) + [e1.number]
    ensures Passed(e, f)
  {
    hide Numbers;
    IncIsModulo(|Numbers(e.log.emitted)|);
  }

  lemma AcceptPassed(w: World, e: Env, c: Conn, json: seq<Byte>, m: Message)
    requires e.log.cap > 0
    ensures Passed(e, Accept(w, e, c, json, m, e.now).0)
  {
    hide WireClient, Reply, Notes, Say, Quietly, Passed, Present, Numbers, Marked;
    var id := c.info.conn;
    var e1 := WireClient(e, id, json, e.now);
    WireClientQuiet(e, id, json);
    SameClock(e, e1);
    var e2 := e1.(number := Inc32(e1.number));
    var e3 := Reply(w, e2, id, m);
    ReplyQuiet(w, e2, id, m);
    SameClock(e2, e3);
    var c1 := MessageCounted(c, m, json, e.now);
    var (e4, d) := Notes(w, e3, c1, m, e.now);
    NotesQuiet(w, e3, c1, m);
    QuietThen(e2, e3, e4);
    SameClock(e2, e4);
    SayPresent(e4, id, Heard(Marked(c, m), e1.number));
    NextNumber(e, e1, e2, e4, Say(e4, id, e.now, Heard(Marked(c, m), e1.number)));
  }

  // --------------------------------------------------------------------------------------
  // Bytes
  // --------------------------------------------------------------------------------------

  lemma PassedNothing(e: Env)
    ensures Passed(e, e)
  {
    hide NumberedThrough;
  }

  lemma FrameBytePassed(w: World, e: Env, c: Conn)
    requires e.log.cap > 0 && c.scan < |c.rx|
    ensures Passed(e, FrameByte(w, e, c, e.now).0)
  {
    hide Refuse, Accept, Frame.Advance, DecodeMessage, Passed;
    var (g, step) := Frame.Advance(c.framer, c.rx[c.scan]);
    var c1 := c.(framer := g, scan := c.scan + 1);
    var json := c1.rx[..c1.scan];
    PassedNothing(e);
    if step == Frame.Garbage {
      RefusePassed(w, e, c, LeadingGarbage, c.rx[c.scan..], |c.rx| - c.scan);
    } else if step == Frame.Close {
      match DecodeMessage(w.lib, json) {
        case None => RefusePassed(w, e, c1, BadJson, json, |json|);
        case Some(m) => AcceptPassed(w, e, c1, json, m);
      }
    } else {
      RefusePassed(w, e, c1, TooLarge, json, |c.rx|);
    }
  }

  lemma {:induction false} FramePendingPassed(w: World, e: Env, c: Conn)
    requires e.log.cap > 0 && c.scan <= |c.rx|
    ensures Passed(e, FramePending(w, e, c, e.now).env)
    decreases Unscanned(c)
  {
    hide FrameByte, Frame.Advance, Compact, Passed;
    PassedNothing(e);
    if c.scan != |c.rx| {
      if !Frame.InMessage(c.framer) && IsWs(c.rx[c.scan]) {
        FramePendingPassed(w, e, Pass(c));
      } else if Frame.InMessage(c.framer) || !WritesFull(e) {
        var d := if Frame.InMessage(c.framer) then c else Compact(c);
        FrameByteShrinks(w, e, d, e.now);
        FrameBytePassed(w, e, d);
        var (e1, d1, end) := FrameByte(w, e, d, e.now);
        SameClock(e, e1);
        if end == None {
          FramePendingPassed(w, e1, d1);
          PassedThen(e, e1, FramePending(w, e, c, e.now).env);
        }
      }
    }
  }

  lemma {:induction false} AbsorbPassed(w: World, e: Env, c: Conn, data: seq<Byte>)
    requires e.log.cap > 0 && c.scan <= |c.rx|
    ensures Passed(e, Absorb(w, e, c, data, e.now).0)
    decreases |data|, |c.rx|
  {
    hide FramePending, Passed, Room;
    var take := if Room(e, c) < |data| then Room(e, c) else |data|;
    var c1 := Append(c, data[..take]);
    FramePendingKeeps(w, e, c1, e.now);
    FramePendingPassed(w, e, c1);
    var t := FramePending(w, e, c1, e.now);
    SameClock(e, t.env);
    if t.ending == Discarded {
      AbsorbPassed(w, t.env, Spoil(t.conn, |data| - take), []);
      PassedThen(e, t.env, Absorb(w, e, c, data, e.now).0);
    } else if t.ending != Refused && take != |data| && take != 0 {
      AbsorbPassed(w, t.env, t.conn, data[take..]);
      PassedThen(e, t.env, Absorb(w, e, c, data, e.now).0);
    }
  }

  lemma TakeBytesPassed(w: World, e: Env, c: Conn, data: seq<Byte>)
    requires e.log.cap > 0 && c.scan <= |c.rx|
    ensures Passed(e, TakeBytes(w, e, c, data, e.now).0)
  {
    hide Absorb, Passed, Quietly, Say, Room;
    var c0 := c.(story := c.story.(offered := c.story.offered + data));
    AbsorbPassed(w, e, c0, data);
    var (e1, d, rest, full) := Absorb(w, e, c0, data, e.now);
    SameClock(e, e1);
    if full {
      var f := TakeBytes(w, e, c, data, e.now).0;
      SayQuiet(e1, c.info.conn, Warning(WriteRingFull, |Append(d, rest).rx| % WORD));
      SayQuiet(e1, c.info.conn, Warning(WriteRingFull, |rest| % WORD));
      QuietPasses(e1, f);
      PassedThen(e, e1, f);
    }
  }

  // --------------------------------------------------------------------------------------
  // The other calls
  // --------------------------------------------------------------------------------------

  lemma SendPlayerQuiet(w: World, e: Env, conn: nat, p: PlayerInfo, why: PlayerReason)
    ensures Quietly(e, SendPlayer(w, e, conn, p, why, e.now))
  {
    hide QueueWrite, Say, Quietly, Queues;
    QuietNothing(e);
    var e1 := QueueWrite(w, e, conn, Player, P.CODE_PLAYER_INFO, P.TEXT_PLAYER_INFO, Some(p));
    QueueQuiet(w, e, conn, Player, P.CODE_PLAYER_INFO, P.TEXT_PLAYER_INFO, Some(p));
    SameClock(e, e1);
    SayQuiet(e1, conn, PlayerSent(p, why));
    QuietThen(e, e1, Say(e1, conn, e.now, PlayerSent(p, why)));
  }

  lemma SendSessionQuiet(w: World, e: Env, conn: nat, state: Session, why: PlayerReason)
    ensures Quietly(e, SendSession(w, e, conn, state, why, e.now))
  {
    hide QueueWrite, Say, Quietly, Queues;
    QuietNothing(e);
    var e1 := QueueWrite(w, e, conn, Ready, P.CODE_READY, P.TEXT_READY, None);
    QueueQuiet(w, e, conn, Ready, P.CODE_READY, P.TEXT_READY, None);
    SameClock(e, e1);
    SayQuiet(e1, conn, SessionSent(state, why));
    QuietThen(e, e1, Say(e1, conn, e.now, SessionSent(state, why)));
    var e2 := QueueWrite(w, e, conn, RoundEnded, P.CODE_ROUND_ENDED, P.TEXT_ROUND_ENDED, None);
    QueueQuiet(w, e, conn, RoundEnded, P.CODE_ROUND_ENDED, P.TEXT_ROUND_ENDED, None);
    SameClock(e, e2);
    SayQuiet(e2, conn, SessionSent(state, why));
    QuietThen(e, e2, Say(e2, conn, e.now, SessionSent(state, why)));
  }

  lemma AnnounceQuiet(w: World, e: Env, id: nat)
    ensures Quietly(e, Announce(w, e, id, e.now))
  {
    hide SendPlayer, SendSession, Quietly, HasAnything;
    QuietNothing(e);
    SendPlayerQuiet(w, e, id, e.player, OnConnect);
    var e1 := if e.cfg.policy.announcePlayer && e.playerSet && HasAnything(e.player)
              then SendPlayer(w, e, id, e.player, OnConnect, e.now) else e;
    SameClock(e, e1);
    SendSessionQuiet(w, e1, id, SessionActive, OnConnect);
    var f := Announce(w, e, id, e.now);
    assert f == e1 || f == SendSession(w, e1, id, SessionActive, OnConnect, e.now);
    if f != e1 {
      QuietThen(e, e1, f);
    }
  }

  lemma OpenPassed(w: World, s: Server, id: nat, peer: seq<Byte>, now: int)
    ensures var f := Open(w, s, id, peer, now).0.env; f == s.env || Passed(s.env.(now := now), f)
  {
    hide SayConnection, Announce, Quietly, Passed, FindConn, FreeFrom, Fresh;
    if Open(w, s, id, peer, now).0.env != s.env {
      var e := s.env.(now := now);
      var c := Fresh(id, peer, now);
      SayConnectionQuiet(w, e, id, ConnectionOpened(c.info));
      var e1 := SayConnection(w, e, id, ConnectionOpened(c.info), now);
      SameClock(e, e1);
      AnnounceQuiet(w, e1, id);
      QuietThen(e, e1, Announce(w, e1, id, now));
      QuietPasses(e, Announce(w, e1, id, now));
    }
  }

  lemma ShutPassed(w: World, s: Server, k: nat, cause: CloseCause)
    requires k < |s.conns|
    ensures Passed(s.env, Shut(w, s, k, cause, s.env.now).env)
  {
    hide SayConnection, Numbers;
    var c := s.conns[k];
    SayConnectionQuiet(w, s.env, c.info.conn, ConnectionClosed(c.info, cause));
  }

  lemma {:induction false} ShutFromPassed(w: World, s: Server, k: nat)
    requires k <= |s.conns|
    ensures Passed(s.env, ShutFrom(w, s, k).env)
    decreases |s.conns| - k
  {
    hide Shut, Passed;
    PassedNothing(s.env);
    if k < |s.conns| {
      if s.conns[k].used {
        ShutPassed(w, s, k, ServerClosed);
        var t := Shut(w, s, k, ServerClosed, s.env.now);
        ShutLength(w, s, k, ServerClosed);
        ShutFromPassed(w, t, k + 1);
        PassedThen(s.env, t.env, ShutFrom(w, s, k).env);
      } else {
        ShutFromPassed(w, s, k + 1);
      }
    }
  }

  lemma ShutLength(w: World, s: Server, k: nat, cause: CloseCause)
    requires k < |s.conns|
    ensures |Shut(w, s, k, cause, s.env.now).conns| == |s.conns|
  {
  }

  lemma {:induction false} TickFromPassed(s: Server, k: nat)
    requires k <= |s.conns|
    ensures Passed(s.env, TickFrom(s, k, s.env.now).env)
    decreases |s.conns| - k
  {
    hide Say, Passed, Quietly, IdleDeadline;
    PassedNothing(s.env);
    if k < |s.conns| {
      var c := s.conns[k];
      if c.used && IdleDeadline(s.env.cfg.policy, c) <= s.env.now {
        var f := Say(s.env, c.info.conn, s.env.now, ClientIdle);
        SayQuiet(s.env, c.info.conn, ClientIdle);
        SameClock(s.env, f);
        QuietPasses(s.env, f);
        TickFromPassed(Server(f, s.conns[k := c.(idleReported := true)]), k + 1);
        PassedThen(s.env, f, TickFrom(s, k, s.env.now).env);
      } else {
        TickFromPassed(s, k + 1);
      }
    }
  }

  lemma {:induction false} SendPlayerFromQuiet(w: World, e: Env, conns: seq<Conn>, k: nat, p: PlayerInfo, why: PlayerReason)
    requires k <= |conns|
    ensures Quietly(e, SendPlayerFrom(w, e, conns, k, p, why, e.now))
    decreases |conns| - k
  {
    hide SendPlayer, Quietly;
    QuietNothing(e);
    if k < |conns| {
      SendPlayerQuiet(w, e, conns[k].info.conn, p, why);
      var e1 := if conns[k].used then SendPlayer(w, e, conns[k].info.conn, p, why, e.now) else e;
      SameClock(e, e1);
      SendPlayerFromQuiet(w, e1, conns, k + 1, p, why);
      QuietThen(e, e1, SendPlayerFrom(w, e, conns, k, p, why, e.now));
    }
  }

  lemma {:induction false} SendSessionFromQuiet(w: World, e: Env, conns: seq<Conn>, k: nat, state: Session)
    requires k <= |conns|
    ensures Quietly(e, SendSessionFrom(w, e, conns, k, state, e.now))
    decreases |conns| - k
  {
    hide SendSession, Quietly;
    QuietNothing(e);
    if k < |conns| {
      SendSessionQuiet(w, e, conns[k].info.conn, state, Changed);
      var e1 := if conns[k].used then SendSession(w, e, conns[k].info.conn, state, Changed, e.now) else e;
      SameClock(e, e1);
      SendSessionFromQuiet(w, e1, conns, k + 1, state);
      QuietThen(e, e1, SendSessionFrom(w, e, conns, k, state, e.now));
    }
  }

  lemma HandOutPassed(s: Server, i: nat)
    requires i < |s.env.writes|
    ensures Passed(s.env, HandOut(s, i).env)
  {
    hide WireBytes, Numbers, FindConn;
    var x := s.env.writes[i];
    WireBytesQuiet(s.env, x.conn, ServerToClient, Clear(x.data), false);
  }

  lemma HandOutFewer(s: Server, i: nat)
    requires i < |s.env.writes|
    ensures |HandOut(s, i).env.writes| == |s.env.writes| - 1
    ensures Passed(s.env, HandOut(s, i).env) ==> HandOut(s, i).env.now == s.env.now
  {
    hide WireBytes, FindConn, NumberedThrough, Dated;
  }

  lemma {:induction false} PollWritesFromPassed(s: Server, i: nat, max: nat)
    requires i <= |s.env.writes|
    ensures Passed(s.env, PollWritesFrom(s, i, max).0.env)
    decreases |s.env.writes| - i
  {
    hide HandOut, Held, Passed;
    PassedNothing(s.env);
    if i < |s.env.writes| && max > 0 {
      if Held(s, s.env.writes[i]) {
        PollWritesFromPassed(s, i + 1, max);
      } else {
        HandOutPassed(s, i);
        HandOutFewer(s, i);
        PollWritesFromPassed(HandOut(s, i), i, max - 1);
        PassedThen(s.env, HandOut(s, i).env, PollWritesFrom(s, i, max).0.env);
      }
    }
  }

  // --------------------------------------------------------------------------------------
  // Any call, any run
  // --------------------------------------------------------------------------------------

  /** The time a call is made at: the time it names, else the server's. */
  function When(s: Server, call: Call): int {
    match call
    case CallOpen(_, _, now) => now
    case CallClosed(_, _, now) => now
    case CallBytes(_, _, now) => now
    case CallTick(now) => now
    case CallSetPlayer(_, now) => now
    case CallSendPlayer(_, _, now) => now
    case CallSetSession(_, now) => now
    case _ => s.env.now
  }

  predicate Told(e: Env, f: Env, at: int) {
    Dated(e, f, at) && f.log.cap == e.log.cap && (NumberedThrough(e) ==> NumberedThrough(f))
  }

  lemma PassedIsTold(e: Env, f: Env, now: int)
    requires Passed(e.(now := now), f)
    ensures Told(e, f, now)
  {
    hide Numbers;
  }

  lemma UntoldIsTold(e: Env, f: Env, at: int)
    requires f.log.emitted == e.log.emitted && f.wire.pushed == e.wire.pushed && f.number == e.number && f.log.cap == e.log.cap
    ensures Told(e, f, at)
  {
    hide Numbers;
  }

  lemma ServedTold(w: World, s: Server, call: Call)
    requires Scanned(s) && s.env.log.cap > 0
    requires call.CallOpen? || call.CallClosed? || call.CallBytes? || call.CallTick?
    ensures Told(s.env, Do(w, s, call).env, When(s, call))
  {
    hide Told, Passed, Shut, TakeBytes, Open, TickFrom, FindConn, SetPlayer, SendPlayerInfo, SetSession, PollWrites,
         PollEvents, PollWire, Close;
    var e, f, now := s.env, Do(w, s, call).env, When(s, call);
    UntoldIsTold(e, e, now);
    if f != e {
      match call {
        case CallOpen(id, peer, _) =>
          OpenPassed(w, s, id, peer, now);
        case CallClosed(id, cause, _) =>
          ShutPassed(w, At(s, now), FindConn(s.conns, id).value, cause);
        case CallBytes(id, data, _) =>
          TakeBytesPassed(w, e.(now := now), s.conns[FindConn(s.conns, id).value], data);
        case CallTick(_) =>
          TickFromPassed(At(s, now), 0);
      }
      PassedIsTold(e, f, now);
    }
  }

  lemma SentTold(w: World, s: Server, call: Call)
    requires Scanned(s)
    requires call.CallSetPlayer? || call.CallSendPlayer? || call.CallSetSession?
    ensures Told(s.env, Do(w, s, call).env, When(s, call))
  {
    hide Open, Closed, OnBytes, Tick, PollWrites, PollEvents, PollWire, Close, Told, Quietly, SendPlayerFrom,
         SendPlayer, SendSessionFrom, FindConn, HasAnything, SamePlayer;
    var e, f, now := s.env, Do(w, s, call).env, When(s, call);
    UntoldIsTold(e, f.(log := e.log, wire := e.wire, number := e.number), now);
    var g := e.(now := now);
    match call {
      case CallSetPlayer(p, _) =>
        var g1 := g.(player := p, playerSet := true);
        SendPlayerFromQuiet(w, g1, s.conns, 0, p, Changed);
        TurnedTold(e, g1, SendPlayerFrom(w, g1, s.conns, 0, p, Changed, now));
        TurnedTold(e, g1, g1);
      case CallSendPlayer(id, p, _) =>
        var q := if p.Some? then p.value else e.player;
        SendPlayerFromQuiet(w, g, s.conns, 0, q, Explicit);
        SendPlayerQuiet(w, g, id, q, Explicit);
        TurnedTold(e, g, SendPlayerFrom(w, g, s.conns, 0, q, Explicit, now));
        TurnedTold(e, g, SendPlayer(w, g, id, q, Explicit, now));
        TurnedTold(e, g, g);
      case CallSetSession(state, _) =>
        var g1 := g.(session := state);
        SendSessionFromQuiet(w, g1, s.conns, 0, state);
        TurnedTold(e, g1, SendSessionFrom(w, g1, s.conns, 0, state, now));
        TurnedTold(e, g, g);
    }
  }

  /** With the clock set, and nothing said about it. */
  lemma TurnedTold(e: Env, g: Env, f: Env)
    requires g.log == e.log && g.wire == e.wire && g.number == e.number
    requires f == g || Quietly(g, f)
    ensures Told(e, f, g.now)
  {
    hide Numbers;
  }

  lemma PolledTold(w: World, s: Server, call: Call)
    requires Scanned(s)
    requires call.CallPollWrites? || call.CallPollEvents? || call.CallPollWire? || call.CallClose?
    ensures Told(s.env, Do(w, s, call).env, s.env.now)
  {
    hide Told, Passed, PollWritesFrom, ShutFrom, Open, Closed, OnBytes, Tick, SetPlayer, SendPlayerInfo, SetSession;
    var e, f := s.env, Do(w, s, call).env;
    UntoldIsTold(e, e, e.now);
    assert e == e.(now := e.now);
    match call {
      case CallPollWrites(max) =>
        PollWritesFromPassed(s, 0, max);
        PassedIsTold(e, f, e.now);
      case CallPollEvents(max) =>
        UntoldIsTold(e, f, e.now);
      case CallPollWire(max) =>
        UntoldIsTold(e, f, e.now);
      case CallClose =>
        if !e.closed {
          ShutFromPassed(w, s, 0);
          PassedIsTold(e, ShutFrom(w, s, 0).env, e.now);
          SealedTold(e, ShutFrom(w, s, 0).env, e.now);
        }
    }
  }

  lemma SealedTold(e: Env, f: Env, at: int)
    requires Told(e, f, at)
    ensures Told(e, f.(closed := true), at)
  {
    hide Numbers;
  }

  /**
   * Whatever is called: events and chunks are only added, all of them at the time of the call, and
   * messages that are reported get the next numbers.
   */
  lemma CallDated(w: World, s: Server, call: Call)
    requires Scanned(s) && s.env.log.cap > 0
    ensures var e, f := s.env, Do(w, s, call).env;
            && f.log.cap == e.log.cap
            && e.log.emitted <= f.log.emitted && e.wire.pushed <= f.wire.pushed
            && (forall i :: |e.log.emitted| <= i < |f.log.emitted| ==> f.log.emitted[i].at == When(s, call))
            && (forall i :: |e.wire.pushed| <= i < |f.wire.pushed| ==> f.wire.pushed[i].at == When(s, call))
            && (NumberedThrough(e) ==> NumberedThrough(f))
  {
    hide Do, NumberedThrough;
    if call.CallOpen? || call.CallClosed? || call.CallBytes? || call.CallTick? {
      ServedTold(w, s, call);
    } else if call.CallSetPlayer? || call.CallSendPlayer? || call.CallSetSession? {
      SentTold(w, s, call);
    } else {
      PolledTold(w, s, call);
    }
  }

  /** Over every run the message events, of whichever connection, are numbered through from zero. */
  lemma {:induction false} MessagesNumbered(w: World, cfg: Config, calls: seq<Call>, s: Server)
    requires Usable(cfg) && Reaches(w, cfg, calls, s)
    ensures s.env.log.cap > 0 && NumberedThrough(s.env)
    decreases |calls|
  {
    hide Do;
    if calls != [] {
      var n := |calls| - 1;
      var p :| Reaches(w, cfg, calls[..n], p) && Scanned(p) && s == Do(w, p, calls[n]);
      MessagesNumbered(w, cfg, calls[..n], p);
      CallDated(w, p, calls[n]);
    }
  }
}
