/**
 * What the event log tells of one connection id: whether idle and active alternate, and how close
 * requests stand to the run of errors. Told over every event ever emitted, dropped ones included.
 */
module Lives {
  import opened Bytes
  import opened Message
  import opened Redact
  import opened Events
  import opened EventLog
  import opened WireLog
  import opened Hub

  /**
   * Since the connection opened at `born`: the messages reported, the last of them at `spoke`, and
   * the errors since that one with the close requests among those; the name it was identified by,
   * how often it gave another, and what it last said of its readiness and of a ball.
   */
  datatype Life = Life(sound: bool, open: bool, idle: bool, run: nat, asked: nat, heard: seq<Message>,
                       born: int, spoke: int, named: Option<seq<Byte>>, renamed: nat, ready: bool, detected: bool)

  const BORN: Life := Life(true, false, false, 0, 0, [], 0, TIME_UNKNOWN, None, 0, false, false)

  /**
   * One event. Unsound are an opening or a closing, an idle or an active out of turn, a second name
   * or an empty one, a state that is not a change from the one before it, an error that miscounts
   * the run, and a close request off the threshold.
   */
  function Live(l: Life, x: Event, id: nat, threshold: nat): Life {
    if x.conn != id then l
    else
      match x.body
      case ConnectionOpened(_) => BORN.(sound := l.sound && !l.open, open := true, born := x.at)
      case ConnectionClosed(_, _) => l.(sound := l.sound && l.open, open := false)
      case ClientIdle => l.(sound := l.sound && !l.idle, idle := true)
      case ClientActive => l.(sound := l.sound && l.idle, idle := false)
      case Identified(info) => l.(sound := l.sound && l.named == None && info.deviceId != [], named := Some(info.deviceId))
      case ClientState(ready, detected, previousReady, previousDetected) =>
        l.(sound := && l.sound && previousReady == l.ready && previousDetected == l.detected
                    && (ready != previousReady || detected != previousDetected),
           ready := ready, detected := detected)
      case Heard(m, _) => l.(run := 0, asked := 0, heard := l.heard + [m], spoke := x.at)
      case ProtocolError(f) => l.(sound := l.sound && f.consecutive == (l.run + 1) % WORD, run := l.run + 1)
      case CloseRequested(_) => l.(sound := l.sound && threshold > 0 && l.run % WORD == threshold, asked := l.asked + 1)
      case Warning(code, _) => if code == DeviceIdChanged then l.(renamed := l.renamed + 1) else l
      case _ => l
  }

  function LifeOf(es: seq<Event>, id: nat, threshold: nat): Life {
    if es == [] then BORN else Live(LifeOf(es[..|es| - 1], id, threshold), es[|es| - 1], id, threshold)
  }

  function EnvLife(e: Env, id: nat): Life {
    LifeOf(e.log.emitted, id, e.cfg.policy.closeThreshold)
  }

  /** How often a run of errors of this length has been at the threshold. */
  function TimesAsked(run: nat, threshold: nat): nat {
    if threshold == 0 || run < threshold then 0 else (run - threshold) / WORD + 1
  }

  /**
   * Idle and active have alternated, beginning with idle; a close has been asked for exactly as
   * often as the run of errors was at the threshold, and each time at that moment.
   */
  predicate Orderly(l: Life, threshold: nat) {
    l.sound && l.asked == TimesAsked(l.run, threshold)
  }

  // --------------------------------------------------------------------------------------
  // One event
  // --------------------------------------------------------------------------------------

  lemma LifeSnoc(es: seq<Event>, x: Event, id: nat, threshold: nat)
    ensures LifeOf(es + [x], id, threshold) == Live(LifeOf(es, id, threshold), x, id, threshold)
  {
    assert (es + [x])[..|es|] == es;
  }

  /** A warning changes no life. */
  lemma SayLives(e: Env, conn: nat, at: int, body: Body, id: nat)
    requires e.log.cap > 0
    ensures EnvLife(Say(e, conn, at, body), id)
         == Live(EnvLife(e, id), Event(e.log.sequence, conn, at, body), id, e.cfg.policy.closeThreshold)
    ensures Say(e, conn, at, body) == e.(log := Say(e, conn, at, body).log)
    ensures Say(e, conn, at, body).log.cap == e.log.cap
  {
    hide LifeOf;
    var x := Event(e.log.sequence, conn, at, body);
    var l1 := Put(e.log.(sequence := Inc32(e.log.sequence)), x);
    LifeSnoc(e.log.emitted, x, id, e.cfg.policy.closeThreshold);
    if l1.warned == Owed {
      LifeSnoc(l1.emitted, Event(l1.sequence, CONN_NONE, e.now, Warning(EventsDropped, l1.dropped)), id,
               e.cfg.policy.closeThreshold);
    }
  }

  // --------------------------------------------------------------------------------------
  // The wire log changes no life
  // --------------------------------------------------------------------------------------

  /** `f` is `e` with more in its logs, none of it about the lives of connections. */
  ghost predicate Unmoved(e: Env, f: Env) {
    && f == e.(log := f.log, wire := f.wire)
    && f.log.cap == e.log.cap
    && forall id: nat :: EnvLife(f, id) == EnvLife(e, id)
  }

  lemma WireOneUnmoved(e: Env, chunk: Chunk)
    requires e.log.cap > 0
    ensures Unmoved(e, WireOne(e, chunk))
  {
    hide LifeOf, Push, Emit;
    var e1 := e.(wire := Push(e.wire, chunk));
    if e1.wire.warned == Owed {
      var e2 := e1.(wire := e1.wire.(warned := Said));
      forall id: nat
        ensures EnvLife(WireOne(e, chunk), id) == EnvLife(e, id)
      {
        SayLives(e2, CONN_NONE, e2.now, Warning(WireDropped, e1.wire.dropped), id);
      }
      SayLives(e2, CONN_NONE, e2.now, Warning(WireDropped, e1.wire.dropped), 0);
    }
  }

  lemma {:induction false} WireAllUnmoved(e: Env, chunks: seq<Chunk>)
    requires e.log.cap > 0
    ensures Unmoved(e, WireAll(e, chunks))
    decreases |chunks|
  {
    hide LifeOf, WireOne, EnvLife;
    if chunks != [] {
      WireOneUnmoved(e, chunks[0]);
      WireAllUnmoved(WireOne(e, chunks[0]), chunks[1..]);
    }
  }

  lemma WireBytesUnmoved(e: Env, conn: nat, direction: Direction, cells: seq<Cell>, at: int, withheld: bool)
    requires e.log.cap > 0
    ensures Unmoved(e, WireBytes(e, conn, direction, cells, at, withheld))
  {
    hide WireAll, EnvLife, ChunksOf;
    if e.cfg.wireRing != 0 {
      WireAllUnmoved(e, ChunksOf(conn, direction, cells, at, withheld));
    }
  }

  lemma WireClientUnmoved(e: Env, conn: nat, data: seq<Byte>, at: int)
    requires e.log.cap > 0
    ensures Unmoved(e, WireClient(e, conn, data, at))
  {
    hide WireBytes, EnvLife, Paint;
    if data != [] {
      WireBytesUnmoved(e, conn, ClientToServer,
                       if e.cfg.policy.recordIdentifiers then Clear(data) else Paint(data), at, false);
    }
  }

  lemma SayConnectionLives(w: World, e: Env, conn: nat, body: Body, at: int, id: nat)
    requires e.log.cap > 0
    ensures EnvLife(SayConnection(w, e, conn, body, at), id)
         == Live(EnvLife(e, id), Event(e.log.sequence, conn, at, body), id, e.cfg.policy.closeThreshold)
    ensures var f := SayConnection(w, e, conn, body, at);
            f == e.(log := f.log, wire := f.wire) && f.log.cap == e.log.cap
  {
    hide WireBytes, EnvLife, Say, Live;
    SayLives(e, conn, at, body, id);
    if body.ConnectionOpened? || body.ConnectionClosed? {
      var line := Upto(w.describe(Event(e.log.sequence, conn, at, body), e.cfg.policy.recordIdentifiers), META_MAX);
      WireBytesUnmoved(Say(e, conn, at, body), conn, Meta, Clear(line), at, !e.cfg.policy.recordIdentifiers);
    }
  }
}
