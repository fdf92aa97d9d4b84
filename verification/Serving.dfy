/**
 * Serving one connection leaves the others alone, and keeps the logs, the mails and the lives:
 * everything a message or an error sets off, down to the whole of `on_bytes`.
 */
module Serving {
  import opened Bytes
  import opened Message
  import opened Protocol
  import opened Decode
  import opened Redact
  import opened Events
  import opened EventLog
  import opened WireLog
  import opened Hub
  import opened Conns
  import opened Frame
  import opened Logs
  import opened Lives
  import opened Mails
  import opened Accounts
  import opened Captures

  /** What serving `id` does to the mail and the life of `j`. */
  predicate Beside(e: Env, f: Env, id: nat, j: nat) {
    && (InOrder(e, j) ==> InOrder(f, j))
    && EnvMail(f, j) == EnvMail(e, j).(queued := EnvMail(f, j).queued)
    && (j != id ==> EnvMail(f, j) == EnvMail(e, j) && For(f.writes, j) == For(e.writes, j) && EnvLife(f, j) == EnvLife(e, j))
  }

  /** `f` is `e` after something was done for connection `id`. */
  ghost predicate Served(e: Env, f: Env, id: nat) {
    && f == e.(log := f.log, wire := f.wire, writes := f.writes, trace := f.trace, number := f.number)
    && f.log.cap == e.log.cap
    && (Logged(e) ==> Logged(f)) && SameSent(e, f)
    && forall j: nat :: Beside(e, f, id, j)
  }

  lemma ServedTwice(e: Env, f: Env, g: Env, id: nat)
    requires Served(e, f, id) && Served(f, g, id)
    ensures Served(e, g, id)
  {
    hide Logged, InOrder, EnvMail, EnvLife, For, Outgoing, Handed;
    forall j: nat
      ensures Beside(e, g, id, j)
    {
      assert Beside(e, f, id, j) && Beside(f, g, id, j);
    }
  }

  lemma SayServed(e: Env, conn: nat, at: int, body: Body)
    requires e.log.cap > 0 && Plain(body)
    ensures Served(e, Say(e, conn, at, body), conn)
    ensures EnvLife(Say(e, conn, at, body), conn)
         == Live(EnvLife(e, conn), Event(e.log.sequence, conn, at, body), conn, e.cfg.policy.closeThreshold)
  {
    hide Logged, EnvLife, For, MailOf, Say, Live, Plain, SameSent;
    if Logged(e) {
      SayIsLogged(e, conn, at, body);
    }
    SaySent(e, conn, at, body);
    var f := Say(e, conn, at, body);
    SayLives(e, conn, at, body, conn);
    forall j: nat
      ensures Beside(e, f, conn, j)
    {
      SayLives(e, conn, at, body, j);
      OtherEvent(EnvLife(e, j), Event(e.log.sequence, conn, at, body), j, e.cfg.policy.closeThreshold);
    }
  }

  lemma OtherEvent(l: Life, x: Event, id: nat, threshold: nat)
    ensures x.conn != id ==> Live(l, x, id, threshold) == l
  {
  }

  lemma WireClientServed(e: Env, conn: nat, data: seq<Byte>, at: int)
    requires e.log.cap > 0
    ensures Served(e, WireClient(e, conn, data, at), conn)
    ensures EnvLife(WireClient(e, conn, data, at), conn) == EnvLife(e, conn)
  {
    hide Logged, EnvLife, For, MailOf, WireClient, SameSent;
    WireClientSent(e, conn, data, at);
    if Logged(e) {
      WireClientIsLogged(e, conn, data, at);
    }
    WireClientUnmoved(e, conn, data, at);
  }

  lemma QueueServed(w: World, e: Env, conn: nat, kind: WriteKind, code: int, text: seq<Byte>, player: Option<PlayerInfo>)
    ensures var f := QueueWrite(w, e, conn, kind, code, text, player);
            && Served(e, f, conn) && EnvLife(f, conn) == EnvLife(e, conn)
            && f == e.(writes := f.writes, trace := f.trace)
  {
    hide EnvMail, For, LifeOf, Queues, InOrder, Accounted, Traced, WireComplained, SameSent;
    QueueSent(w, e, conn, kind, code, text, player);
    var f := QueueWrite(w, e, conn, kind, code, text, player);
    QueueKeeps(w, e, conn, kind, code, text, player);
    forall j: nat
      ensures Beside(e, f, conn, j)
    {
      QueueInOrder(w, e, conn, kind, code, text, player, j);
    }
  }

  lemma QueueKeeps(w: World, e: Env, conn: nat, kind: WriteKind, code: int, text: seq<Byte>, player: Option<PlayerInfo>)
    ensures var f := QueueWrite(w, e, conn, kind, code, text, player); f == e.(writes := f.writes, trace := f.trace)
  {
  }

  lemma SayConnectionServed(w: World, e: Env, conn: nat, body: Body, at: int)
    requires e.log.cap > 0 && Plain(body)
    ensures Served(e, SayConnection(w, e, conn, body, at), conn)
    ensures EnvLife(SayConnection(w, e, conn, body, at), conn)
         == Live(EnvLife(e, conn), Event(e.log.sequence, conn, at, body), conn, e.cfg.policy.closeThreshold)
  {
    hide Logged, EnvLife, For, MailOf, SayConnection, Live, Plain, SameSent;
    SayConnectionSent(w, e, conn, body, at);
    if Logged(e) {
      SayConnectionIsLogged(w, e, conn, body, at);
    }
    var f := SayConnection(w, e, conn, body, at);
    SayConnectionLives(w, e, conn, body, at, conn);
    forall j: nat
      ensures Beside(e, f, conn, j)
    {
      SayConnectionLives(w, e, conn, body, at, j);
      OtherEvent(EnvLife(e, j), Event(e.log.sequence, conn, at, body), j, e.cfg.policy.closeThreshold);
    }
  }

  // --------------------------------------------------------------------------------------
  // Errors and messages
  // --------------------------------------------------------------------------------------

  /**
   * The connection's fields agree with what the event log tells of it, and say what its messages
   * and its errors say.
   */
  predicate Matches(l: Life, c: Conn, threshold: nat) {
    && Orderly(l, threshold) && l.open && l.idle == c.idleReported && c.info.consecutiveErrors == l.run % WORD
    && l.heard == Reported(c.story.heard) && l.born == c.info.openedUs && l.spoke == c.info.lastMessageUs
    && CountsTold(c.info, c.story.heard, c.story.errors)
    && NameKept(l, c.info, c.story.heard) && StateKept(l, c.info, c.story.heard)
  }

  predicate NameKept(l: Life, info: Info, heard: seq<Message>) {
    && l.named == (if info.identified then Some(info.deviceId) else None)
    && l.renamed == OtherNames(heard) && NameTold(info, heard)
  }

  predicate StateKept(l: Life, info: Info, heard: seq<Message>) {
    l.ready == info.ready && l.detected == info.ballDetected && StateTold(info, heard)
  }

  predicate Attuned(e: Env, c: Conn) {
    e.cfg.policy.closeThreshold < WORD && Matches(EnvLife(e, c.info.conn), c, e.cfg.policy.closeThreshold)
  }

  /** The same connection still, of which serving has changed nothing but what it may. */
  predicate StillOpen(c: Conn, d: Conn) {
    d.used == c.used && d.info.conn == c.info.conn && d.info.openedUs == c.info.openedUs && d.nextWrite == c.nextWrite
  }

  lemma OneMoreError(run: nat, threshold: nat)
    requires threshold < WORD
    ensures TimesAsked(run + 1, threshold)
         == TimesAsked(run, threshold) + if threshold > 0 && (run + 1) % WORD == threshold then 1 else 0
  {
    if threshold > 0 && run + 1 >= threshold {
      var n := run + 1 - threshold;
      var q := (run + 1) / WORD;
      assert run + 1 == q * WORD + (run + 1) % WORD;
      if (run + 1) % WORD == threshold {
        assert n == q * WORD;
        if n > 0 {
          assert n - 1 == (q - 1) * WORD + (WORD - 1);
        }
      } else {
        var p := n / WORD;
        assert n == p * WORD + n % WORD;
        if n % WORD == 0 {
          assert run + 1 == p * WORD + threshold;
        } else {
          assert n - 1 == p * WORD + (n % WORD - 1);
        }
      }
    }
  }

  lemma SayFailureServed(e: Env, c: Conn, d: Conn, f: Failure, at: int)
    requires e.log.cap > 0 && d == ErrorCounted(c) && f.consecutive == d.info.consecutiveErrors
    ensures Served(e, SayFailure(e, d, f, at), c.info.conn)
    ensures Attuned(e, c) ==> Attuned(SayFailure(e, d, f, at), d)
  {
    hide Logged, EnvLife, Beside, SameSent, Say, TimesAsked;
    var conn, e1 := c.info.conn, Say(e, c.info.conn, at, ProtocolError(f));
    SayServed(e, conn, at, ProtocolError(f));
    SayServed(e1, conn, at, CloseRequested(f));
    var l := EnvLife(e, conn);
    IncIsModulo(l.run);
    if e.cfg.policy.closeThreshold < WORD {
      OneMoreError(l.run, e.cfg.policy.closeThreshold);
    }
    if e.cfg.policy.closeThreshold > 0 && d.info.consecutiveErrors == e.cfg.policy.closeThreshold {
      ServedTwice(e, e1, SayFailure(e, d, f, at), conn);
    }
  }

  lemma RefuseServed(w: World, e: Env, c: Conn, reason: ErrorReason, snippet: seq<Byte>, discarded: nat, at: int)
    requires e.log.cap > 0
    ensures var (f, d) := Refuse(w, e, c, reason, snippet, discarded, at);
            && Served(e, f, c.info.conn) && StillOpen(c, d) && (Attuned(e, c) ==> Attuned(f, d))
  {
    hide Logged, EnvLife, Beside, SameSent, SayFailure, Matches, WireClient, QueueWrite;
    var id := c.info.conn;
    var e1 := WireClient(e, id, snippet, at);
    var d := ErrorCounted(c);
    var e2 := QueueWrite(w, e1, id, Failed, CODE_FAILURE, FailureText(reason), None);
    WireClientServed(e, id, snippet, at);
    QueueServed(w, e1, id, Failed, CODE_FAILURE, FailureText(reason), None);
    ServedTwice(e, e1, e2, id);
    SayFailureServed(e2, c, d, FailureOf(d, reason, snippet, discarded), at);
    ServedTwice(e, e2, SayFailure(e2, d, FailureOf(d, reason, snippet, discarded), at), id);
  }

  lemma ServedNothing(e: Env, id: nat)
    ensures Served(e, e, id)
  {
    hide Logged, InOrder, EnvMail, EnvLife, For;
  }

  lemma ReplyServed(w: World, e: Env, conn: nat, m: Message)
    ensures Served(e, Reply(w, e, conn, m), conn) && EnvLife(Reply(w, e, conn, m), conn) == EnvLife(e, conn)
  {
    hide Served, EnvLife, QueueWrite;
    if Rejected(e.cfg, m) {
      QueueServed(w, e, conn, Failed, CODE_FAILURE, TEXT_INCOMPLETE, None);
    } else {
      QueueServed(w, e, conn, Ack, CODE_SHOT_RECEIVED, AckText(e.cfg), None);
    }
  }

  /** Name and state apart, a life in which the last message is to be reported next. */
  predicate Between(l: Life, c: Conn, threshold: nat) {
    && Orderly(l, threshold) && l.open && l.idle == c.idleReported && l.born == c.info.openedUs
    && |c.story.heard| > 0 && l.heard == Reported(c.story.heard[..|c.story.heard| - 1])
    && CountsTold(c.info, c.story.heard, c.story.errors)
  }

  /** All that the notes on a message leave alone. */
  predicate Unnoted(c: Conn, d: Conn) {
    && StillOpen(c, d) && d.story == c.story
    && d.info == c.info.(identified := d.info.identified, deviceId := d.info.deviceId, ready := d.info.ready,
                         ballDetected := d.info.ballDetected)
  }

  lemma NoteActiveServed(e: Env, c: Conn, at: int)
    requires e.log.cap > 0
    ensures var (f, d) := NoteActive(e, c, at);
            && Served(e, f, c.info.conn) && Unnoted(c, d) && d.info == c.info
            && (Between(EnvLife(e, c.info.conn), c, e.cfg.policy.closeThreshold) ==>
                  && Between(EnvLife(f, c.info.conn), d, e.cfg.policy.closeThreshold)
                  && EnvLife(f, c.info.conn) == EnvLife(e, c.info.conn).(idle := d.idleReported))
  {
    hide Logged, EnvLife, Beside, SameSent, Say, TimesAsked, Reported, CountsTold;
    SayServed(e, c.info.conn, at, ClientActive);
    ServedNothing(e, c.info.conn);
  }

  /** The name a message gives is noted the first time, and complained about when it is another. */
  lemma NoteIdentityServed(w: World, e: Env, c: Conn, m: Message, heard: seq<Message>, at: int)
    requires e.log.cap > 0
    ensures var (f, d) := NoteIdentity(w, e, c, m, at);
            var l, n := EnvLife(e, c.info.conn), EnvLife(f, c.info.conn);
            && Served(e, f, c.info.conn) && Unnoted(c, d) && d.idleReported == c.idleReported
            && d.info.ready == c.info.ready && d.info.ballDetected == c.info.ballDetected
            && n == l.(sound := n.sound, named := n.named, renamed := n.renamed)
            && (NameKept(l, c.info, heard) ==> NameKept(n, d.info, heard + [m]) && n.sound == l.sound)
  {
    hide Logged, EnvLife, Beside, SameSent, Say, SayConnection;
    var d := c.(info := c.info.(identified := true, deviceId := m.deviceId));
    SayConnectionServed(w, e, c.info.conn, Identified(d.info), at);
    SayServed(e, c.info.conn, at, Warning(DeviceIdChanged, 0));
    ServedNothing(e, c.info.conn);
    assert (heard + [m])[..|heard|] == heard;
  }

  /** The state a message gives is noted when it is a change. */
  lemma NoteStateServed(e: Env, c: Conn, m: Message, heard: seq<Message>, at: int)
    requires e.log.cap > 0
    ensures var (f, d) := NoteState(e, c, m, at);
            var l, n := EnvLife(e, c.info.conn), EnvLife(f, c.info.conn);
            && Served(e, f, c.info.conn) && Unnoted(c, d) && d.idleReported == c.idleReported
            && d.info.identified == c.info.identified && d.info.deviceId == c.info.deviceId
            && n == l.(sound := n.sound, ready := n.ready, detected := n.detected)
            && (StateKept(l, c.info, heard) ==> StateKept(n, d.info, heard + [m]) && n.sound == l.sound)
  {
    hide Logged, EnvLife, Beside, SameSent, Say;
    var ready := Latest(m, LaunchMonitorIsReady, c.info.ready);
    var detected := Latest(m, LaunchMonitorBallDetected, c.info.ballDetected);
    SayServed(e, c.info.conn, at, ClientState(ready, detected, c.info.ready, c.info.ballDetected));
    ServedNothing(e, c.info.conn);
    assert (heard + [m])[..|heard|] == heard;
  }

  /** The notes on the last message, taken in a life that agrees with the connection but for them. */
  lemma NotesServed(w: World, e: Env, c: Conn, m: Message, heard: seq<Message>, at: int)
    requires e.log.cap > 0
    ensures var (f, d) := Notes(w, e, c, m, at);
            var l, n := EnvLife(e, c.info.conn), EnvLife(f, c.info.conn);
            && Served(e, f, c.info.conn) && Unnoted(c, d)
            && (Between(l, c, e.cfg.policy.closeThreshold) && NameKept(l, c.info, heard) && StateKept(l, c.info, heard) ==>
                  && Between(n, d, e.cfg.policy.closeThreshold)
                  && NameKept(n, d.info, heard + [m]) && StateKept(n, d.info, heard + [m]))
  {
    hide Logged, EnvLife, Beside, SameSent, Say, SayConnection, TimesAsked, NoteIdentity, NoteState, NoteActive,
         Served, Reported, FirstName, Newest, OtherNames, Shots, LastShot;
    var (e1, c1) := NoteActive(e, c, at);
    var (e2, c2) := NoteIdentity(w, e1, c1, m, at);
    var (e3, c3) := NoteState(e2, c2, m, at);
    NoteActiveServed(e, c, at);
    SameCfg(e, e1, c.info.conn);
    NoteIdentityServed(w, e1, c1, m, heard, at);
    SameCfg(e1, e2, c.info.conn);
    NoteStateServed(e2, c2, m, heard, at);
    ServedTwice(e, e1, e2, c.info.conn);
    ServedTwice(e, e2, e3, c.info.conn);
  }

  lemma SameCfg(e: Env, f: Env, id: nat)
    requires Served(e, f, id)
    ensures f.cfg == e.cfg && f.log.cap == e.log.cap
  {
    hide Beside, Logged;
  }

  lemma NumberServed(e: Env, number: nat, id: nat)
    ensures Served(e, e.(number := number), id) && EnvLife(e.(number := number), id) == EnvLife(e, id)
  {
    hide For, MailOf, LifeOf, Accounted, Traced, WireComplained;
  }

  /** Nothing is left to do for the last message but to report it, as `m`. */
  predicate Ready(l: Life, c: Conn, m: Message, threshold: nat, at: int) {
    && threshold < WORD && Between(l, c, threshold)
    && NameKept(l, c.info, c.story.heard) && StateKept(l, c.info, c.story.heard)
    && c.info.consecutiveErrors == 0 && c.info.lastMessageUs == at
    && Reported(c.story.heard) == Reported(c.story.heard[..|c.story.heard| - 1]) + [m]
  }

  lemma HeardServed(e: Env, c: Conn, m: Message, number: nat, at: int)
    requires e.log.cap > 0
    ensures var f, l := Say(e, c.info.conn, at, Heard(m, number)), EnvLife(e, c.info.conn);
            && Served(e, f, c.info.conn)
            && (Ready(l, c, m, e.cfg.policy.closeThreshold, at) ==> Attuned(f, c))
  {
    hide Logged, EnvLife, Beside, SameSent, Say, Reported, NameTold, StateTold, CountsTold, OtherNames;
    SayServed(e, c.info.conn, at, Heard(m, number));
  }

  /** What is noted on the message is what its shot number is to those before it. */
  lemma MarkedIsReported(c: Conn, m: Message)
    requires CountsTold(c.info, c.story.heard, c.story.errors)
    ensures Reported(c.story.heard + [m]) == Reported(c.story.heard) + [Marked(c, m)]
  {
    assert (c.story.heard + [m])[..|c.story.heard|] == c.story.heard;
  }

  lemma CountedTold(c: Conn, m: Message, json: seq<Byte>, at: int)
    ensures var d := MessageCounted(c, m, json, at);
            && d.story.heard == c.story.heard + [m] && d.story.heard[..|d.story.heard| - 1] == c.story.heard
            && (CountsTold(c.info, c.story.heard, c.story.errors) ==> CountsTold(d.info, d.story.heard, d.story.errors))
  {
    var heard := c.story.heard + [m];
    assert heard[..|c.story.heard|] == c.story.heard;
    IncIsModulo(|c.story.heard|);
    IncIsModulo(Shots(c.story.heard));
  }

  lemma AcceptServed(w: World, e: Env, c: Conn, json: seq<Byte>, m: Message, at: int)
    requires e.log.cap > 0
    ensures var (f, d) := Accept(w, e, c, json, m, at);
            && Served(e, f, c.info.conn) && StillOpen(c, d) && (Attuned(e, c) ==> Attuned(f, d))
  {
    hide Logged, EnvLife, Beside, SameSent, Say, WireClient, Reply, Notes, Orderly, Marked, Reported, NameKept,
         StateKept, CountsTold;
    var id := c.info.conn;
    var e1 := WireClient(e, id, json, at);
    var e2 := e1.(number := Inc32(e1.number));
    var e3 := Reply(w, e2, id, m);
    var c1 := MessageCounted(c, m, json, at);
    var (e4, d) := Notes(w, e3, c1, m, at);
    WireClientServed(e, id, json, at);
    NumberServed(e1, Inc32(e1.number), id);
    ServedTwice(e, e1, e2, id);
    ReplyServed(w, e2, id, m);
    ServedTwice(e, e2, e3, id);
    NotesServed(w, e3, c1, m, c.story.heard, at);
    ServedTwice(e, e3, e4, id);
    CountedTold(c, m, json, at);
    NamesUncounted(EnvLife(e, id), c, m, json, at);
    if Attuned(e, c) {
      MarkedIsReported(c, m);
    }
    HeardServed(e4, d, Marked(c, m), e1.number, at);
    ServedTwice(e, e4, Say(e4, id, at, Heard(Marked(c, m), e1.number)), id);
  }

  lemma NamesUncounted(l: Life, c: Conn, m: Message, json: seq<Byte>, at: int)
    ensures var d := MessageCounted(c, m, json, at);
            && NameKept(l, d.info, c.story.heard) == NameKept(l, c.info, c.story.heard)
            && StateKept(l, d.info, c.story.heard) == StateKept(l, c.info, c.story.heard)
  {
  }

  // --------------------------------------------------------------------------------------
  // Bytes
  // --------------------------------------------------------------------------------------

  /** What framing and absorbing keep. */
  ghost predicate Kept(e: Env, c: Conn, f: Env, d: Conn) {
    Served(e, f, c.info.conn) && StillOpen(c, d) && (Attuned(e, c) ==> Attuned(f, d))
  }

  lemma KeptFields(e: Env, c: Conn, f: Env, d: Conn)
    requires Kept(e, c, f, d)
    ensures f.cfg == e.cfg && f.now == e.now && f.log.cap == e.log.cap && f.closed == e.closed
    ensures d.used == c.used && d.nextWrite == c.nextWrite && d.info.conn == c.info.conn
  {
    hide Attuned, Beside;
  }

  lemma KeptTwice(e: Env, c: Conn, f: Env, d: Conn, g: Env, h: Conn)
    requires Kept(e, c, f, d) && Kept(f, d, g, h)
    ensures Kept(e, c, g, h)
  {
    hide Served, Attuned;
    ServedTwice(e, f, g, c.info.conn);
  }

  /** Two connections that differ in their buffer and history only. */
  predicate Alike(c: Conn, d: Conn) {
    StillOpen(c, d) && d.info == c.info && d.idleReported == c.idleReported
    && d.story.heard == c.story.heard && d.story.errors == c.story.errors
  }

  lemma KeptAlike(e: Env, c: Conn, f: Env, d: Conn, c0: Conn, d0: Conn)
    requires Kept(e, c, f, d) && Alike(c, c0) && Alike(d, d0)
    ensures Kept(e, c0, f, d0)
  {
    hide Served, EnvLife, Orderly;
  }

  lemma DeliverKept(w: World, e: Env, c: Conn, json: seq<Byte>, at: int)
    requires e.log.cap > 0
    ensures var (f, d, ok) := Deliver(w, e, c, json, at); Kept(e, c, f, d)
  {
    hide Served, Attuned, StillOpen, Refuse, Accept, DecodeMessage;
    match DecodeMessage(w.lib, json) {
      case None => RefuseServed(w, e, c, BadJson, json, |json|, at);
      case Some(m) => AcceptServed(w, e, c, json, m, at);
    }
  }

  lemma FrameByteKept(w: World, e: Env, c: Conn, at: int)
    requires e.log.cap > 0 && c.scan < |c.rx|
    ensures var (f, d, end) := FrameByte(w, e, c, at); Kept(e, c, f, d)
  {
    hide Served, Attuned, Refuse, Deliver, Kept, Advance;
    var (g, step) := Advance(c.framer, c.rx[c.scan]);
    var c1 := c.(framer := g, scan := c.scan + 1);
    RefuseKept(w, e, c, LeadingGarbage, c.rx[c.scan..], |c.rx| - c.scan, at);
    DeliverKept(w, e, c1, c1.rx[..c1.scan], at);
    DeliverKeeps(w, e, c1, c1.rx[..c1.scan], at);
    RefuseKept(w, e, c1, TooLarge, c1.rx[..c1.scan], |c1.rx|, at);
    NothingKept(e, c1);
    var (f, d, end) := FrameByte(w, e, c, at);
    if step == Garbage {
      var (f1, d1) := Refuse(w, e, c, LeadingGarbage, c.rx[c.scan..], |c.rx| - c.scan, at);
      KeptAlike(e, c, f, d1, c, d);
    } else if step == Close {
      var (f1, d1, ok) := Deliver(w, e, c1, c1.rx[..c1.scan], at);
      KeptAlike(e, c1, f, d1, c, d);
    } else if c1.scan > e.cfg.maxMessage {
      var (f1, d1) := Refuse(w, e, c1, TooLarge, c1.rx[..c1.scan], |c1.rx|, at);
      KeptAlike(e, c1, f, d1, c, d);
    } else {
      KeptAlike(e, c1, e, c1, c, d);
    }
  }

  lemma RefuseKept(w: World, e: Env, c: Conn, reason: ErrorReason, snippet: seq<Byte>, discarded: nat, at: int)
    requires e.log.cap > 0
    ensures var (f, d) := Refuse(w, e, c, reason, snippet, discarded, at); Kept(e, c, f, d)
  {
    hide Served, Attuned, StillOpen, Refuse;
    RefuseServed(w, e, c, reason, snippet, discarded, at);
  }

  lemma NothingKept(e: Env, c: Conn)
    ensures Kept(e, c, e, c)
  {
    hide Served, Attuned;
    ServedNothing(e, c.info.conn);
  }

  lemma {:induction false} FramePendingKept(w: World, e: Env, c: Conn, at: int)
    requires e.log.cap > 0 && c.scan <= |c.rx|
    ensures var t := FramePending(w, e, c, at); Kept(e, c, t.env, t.conn)
    decreases Unscanned(c)
  {
    hide Kept, FrameByte, Advance;
    NothingKept(e, c);
    if c.scan == |c.rx| || (!InMessage(c.framer) && !IsWs(c.rx[c.scan]) && WritesFull(e)) {
      KeptAlike(e, c, e, c, c, FramePending(w, e, c, at).conn);
    } else if !InMessage(c.framer) && IsWs(c.rx[c.scan]) {
      var c1 := Pass(c);
      FramePendingKept(w, e, c1, at);
      var t := FramePending(w, e, c1, at);
      KeptAlike(e, c1, t.env, t.conn, c, t.conn);
    } else {
      var d := if InMessage(c.framer) then c else Compact(c);
      FrameByteShrinks(w, e, d, at);
      FrameByteKept(w, e, d, at);
      var (e1, d1, end) := FrameByte(w, e, d, at);
      KeptAlike(e, d, e1, d1, c, d1);
      if end == None {
        KeptFields(e, c, e1, d1);
        FramePendingKept(w, e1, d1, at);
        var t := FramePending(w, e1, d1, at);
        KeptTwice(e, c, e1, d1, t.env, t.conn);
      }
    }
  }

  lemma AbsorbConnId(w: World, e: Env, c: Conn, data: seq<Byte>, at: int)
    requires e.log.cap > 0 && c.scan <= |c.rx|
    ensures Absorb(w, e, c, data, at).1.info.conn == c.info.conn
  {
    hide Absorb, Kept;
    AbsorbKept(w, e, c, data, at);
    var (f, d, rest, full) := Absorb(w, e, c, data, at);
    KeptFields(e, c, f, d);
  }

  lemma {:induction false} AbsorbKept(w: World, e: Env, c: Conn, data: seq<Byte>, at: int)
    requires e.log.cap > 0 && c.scan <= |c.rx|
    ensures var (f, d, rest, full) := Absorb(w, e, c, data, at); Kept(e, c, f, d) && d.scan <= |d.rx|
    decreases |data|, |c.rx|
  {
    hide Kept, FramePending, Room;
    var take := if Room(e, c) < |data| then Room(e, c) else |data|;
    var c1 := Append(c, data[..take]);
    FramePendingKeeps(w, e, c1, at);
    FramePendingKept(w, e, c1, at);
    var t := FramePending(w, e, c1, at);
    var c2 := if t.ending == Discarded then Spoil(t.conn, |data| - take) else t.conn;
    KeptAlike(e, c1, t.env, t.conn, c, c2);
    KeptFields(e, c, t.env, c2);
    var more := if t.ending == Discarded then [] else data[take..];
    if t.ending == Discarded || (t.ending != Refused && take != |data| && take != 0) {
      AbsorbKept(w, t.env, c2, more, at);
      var (f, d, rest, full) := Absorb(w, t.env, c2, more, at);
      KeptTwice(e, c, t.env, c2, f, d);
    }
  }

  lemma WarnKept(e: Env, c: Conn, value: nat, at: int)
    requires e.log.cap > 0
    ensures Kept(e, c, Say(e, c.info.conn, at, Warning(WriteRingFull, value)), c)
  {
    hide Logged, EnvLife, Beside, SameSent, Say, Orderly;
    SayServed(e, c.info.conn, at, Warning(WriteRingFull, value));
  }

  lemma TakeBytesKept(w: World, e: Env, c: Conn, data: seq<Byte>, at: int)
    requires e.log.cap > 0 && c.scan <= |c.rx|
    ensures var (f, d, status) := TakeBytes(w, e, c, data, at); Kept(e, c, f, d) && d.scan <= |d.rx|
  {
    hide Kept, Absorb, Say, Room;
    var c0 := c.(story := c.story.(offered := c.story.offered + data));
    AbsorbKept(w, e, c0, data, at);
    var (e1, d, rest, full) := Absorb(w, e, c0, data, at);
    KeptAlike(e, c0, e1, d, c, d);
    KeptFields(e, c, e1, d);
    var (f, d2, status) := TakeBytes(w, e, c, data, at);
    if full {
      WarnKept(e1, d, |Append(d, rest).rx| % WORD, at);
      WarnKept(e1, d, |rest| % WORD, at);
      KeptTwice(e, c, e1, d, f, d);
    }
    KeptAlike(e, c, f, d, c, d2);
  }
}
