/** What is reported and taken down when something cannot be used, and when it can. */
module Failures {
  import opened Bytes
  import opened Message
  import opened Decode
  import opened Redact
  import opened Events
  import opened EventLog
  import opened Hub
  import opened Conns
  import opened Frame
  import opened Logs
  import opened Serving
  import opened Replies
  import opened Captures
  import Leading
  import P = Protocol

  // --------------------------------------------------------------------------------------
  // What is reported
  // --------------------------------------------------------------------------------------

  /** Reported for `conn` at `at`. */
  predicate Reports(x: Event, conn: nat, at: int, body: Body) {
    x.conn == conn && x.at == at && x.body == body
  }

  /** More events: `body`, and besides it only warnings. */
  ghost predicate SaysOnly(es: seq<Event>, fs: seq<Event>, conn: nat, at: int, body: Body) {
    && es <= fs
    && exists i :: && |es| <= i < |fs| && Reports(fs[i], conn, at, body)
                   && forall j :: |es| <= j < |fs| && j != i ==> fs[j].body.Warning?
  }

  /** More events: an error, then the request to close that it gives rise to, and besides them only warnings. */
  ghost predicate SaysBoth(es: seq<Event>, fs: seq<Event>, conn: nat, at: int, f: Failure) {
    && es <= fs
    && exists i, k :: && |es| <= i < k < |fs| && Reports(fs[i], conn, at, ProtocolError(f)) && Reports(fs[k], conn, at, CloseRequested(f))
                      && forall j :: |es| <= j < |fs| && j != i && j != k ==> fs[j].body.Warning?
  }

  /** The error that makes one more of a connection's run of them. */
  function Fault(c: Conn, reason: ErrorReason, snippet: seq<Byte>, discarded: nat): Failure {
    Failure(reason, if discarded > 0xffff_ffff then 0xffff_ffff else discarded, (c.info.consecutiveErrors + 1) % 0x1_0000_0000,
            if |snippet| > 32 then snippet[..32] else snippet)
  }

  /**
   * What an error says: its reason, the bytes thrown away as far as they can be counted, its place
   * in the run of errors, the first 32 octets of what failed; and a request to close with it exactly
   * if its place is the policy's threshold.
   */
  lemma RefuseReports(w: World, e: Env, c: Conn, reason: ErrorReason, snippet: seq<Byte>, discarded: nat, at: int)
    requires e.log.cap > 0
    ensures var (f, d) := Refuse(w, e, c, reason, snippet, discarded, at);
            var fault, threshold := Fault(c, reason, snippet, discarded), e.cfg.policy.closeThreshold;
            if threshold > 0 && fault.consecutive == threshold
            then SaysBoth(e.log.emitted, f.log.emitted, c.info.conn, at, fault)
            else SaysOnly(e.log.emitted, f.log.emitted, c.info.conn, at, ProtocolError(fault))
  {
    hide WireClient, QueueWrite, Say;
    var id := c.info.conn;
    WireClientWrites(e, id, snippet, at);
    WireClientEvents(e, id, snippet, at);
    var e1 := WireClient(e, id, snippet, at);
    var d := ErrorCounted(c);
    QueueEvents(w, e1, id, Failed, P.CODE_FAILURE, FailureText(reason));
    QueueKeeps(w, e1, id, Failed, P.CODE_FAILURE, FailureText(reason), None);
    var e2 := QueueWrite(w, e1, id, Failed, P.CODE_FAILURE, FailureText(reason), None);
    var fault := FailureOf(d, reason, snippet, discarded);
    assert fault == Fault(c, reason, snippet, discarded);
    Leading.SaidEvents(e2, id, at, ProtocolError(fault));
    var e3 := Say(e2, id, at, ProtocolError(fault));
    Leading.SaidEvents(e3, id, at, CloseRequested(fault));
    var f := SayFailure(e2, d, fault, at);
    SayCfg(e2, id, at, ProtocolError(fault));
    var i := |e1.log.emitted|;
    assert Reports(f.log.emitted[i], id, at, ProtocolError(fault)) by {
      assert e3.log.emitted[i] == f.log.emitted[i];
    }
    if e.cfg.policy.closeThreshold > 0 && fault.consecutive == e.cfg.policy.closeThreshold {
      assert Reports(f.log.emitted[|e3.log.emitted|], id, at, CloseRequested(fault));
    }
  }

  lemma SayCfg(e: Env, conn: nat, at: int, body: Body)
    ensures Say(e, conn, at, body).cfg == e.cfg
  {
    hide Emit;
  }

  // --------------------------------------------------------------------------------------
  // What cannot be used
  // --------------------------------------------------------------------------------------

  /** Some event in `fs` behind `es` reports the error. */
  ghost predicate Faults(es: seq<Event>, fs: seq<Event>, conn: nat, at: int, f: Failure) {
    exists i :: |es| <= i < |fs| && Reports(fs[i], conn, at, ProtocolError(f))
  }

  lemma RefuseFaults(w: World, e: Env, c: Conn, reason: ErrorReason, snippet: seq<Byte>, discarded: nat, at: int)
    requires e.log.cap > 0
    ensures Faults(e.log.emitted, Refuse(w, e, c, reason, snippet, discarded, at).0.log.emitted, c.info.conn, at,
                   Fault(c, reason, snippet, discarded))
  {
    hide Refuse, Reports, Fault;
    RefuseReports(w, e, c, reason, snippet, discarded, at);
  }

  /** The byte at hand completes an object, the framer having seen an opening brace for it. */
  predicate Completes(c: Conn)
    requires c.scan < |c.rx|
  {
    c.framer.depth == 1 && !c.framer.inString && c.rx[c.scan] == RBRACE
  }

  /**
   * A byte of an object leads to an error in exactly three cases, and each is reported as what it
   * is: a message that does not begin with a brace, an object completed that is not one to the
   * decoder, and one longer than the bound that is not complete.
   */
  lemma ByteFaults(w: World, e: Env, c: Conn, at: int)
    requires e.log.cap > 0 && c.scan < |c.rx| && (!InMessage(c.framer) ==> c.scan == 0 && !IsWs(c.rx[0]))
    ensures var (f, d, end) := FrameByte(w, e, c, at);
            var garbage := !InMessage(c.framer) && c.rx[c.scan] != LBRACE;
            var json := !garbage && Completes(c) && DecodeMessage(w.lib, c.rx[..c.scan + 1]) == None;
            var large := !garbage && !Completes(c) && c.scan + 1 > e.cfg.maxMessage;
            && (end == Some(Discarded) <==> garbage || json || large)
            && (garbage ==> Faults(e.log.emitted, f.log.emitted, c.info.conn, at, Fault(c, LeadingGarbage, c.rx[c.scan..], |c.rx| - c.scan)))
            && (json ==> Faults(e.log.emitted, f.log.emitted, c.info.conn, at, Fault(c, BadJson, c.rx[..c.scan + 1], c.scan + 1)))
            && (large ==> Faults(e.log.emitted, f.log.emitted, c.info.conn, at, Fault(c, TooLarge, c.rx[..c.scan + 1], |c.rx|)))
  {
    hide Refuse, Accept, DecodeMessage, Faults;
    var (g, step) := Advance(c.framer, c.rx[c.scan]);
    var c1 := c.(framer := g, scan := c.scan + 1);
    RefuseFaults(w, e, c, LeadingGarbage, c.rx[c.scan..], |c.rx| - c.scan, at);
    RefuseFaults(w, e, c1, BadJson, c1.rx[..c1.scan], c1.scan, at);
    RefuseFaults(w, e, c1, TooLarge, c1.rx[..c1.scan], |c1.rx|, at);
    DeliverKeeps(w, e, c1, c1.rx[..c1.scan], at);
    assert |c1.rx[..c1.scan]| == c1.scan;
  }

  // --------------------------------------------------------------------------------------
  // What is taken down
  // --------------------------------------------------------------------------------------

  /** From `e` to `f` the client's bytes were taken down, masked unless policy says otherwise, and nothing else. */
  predicate ClientTaken(e: Env, f: Env, conn: nat, data: seq<Byte>, at: int) {
    && e.wire.pushed <= f.wire.pushed
    && if e.cfg.wireRing == 0 || data == [] then f.wire.pushed == e.wire.pushed
       else
         var cs := f.wire.pushed[|e.wire.pushed|..];
         && Carries(cs, conn, ClientToServer, if e.cfg.policy.recordIdentifiers then Clear(data) else Paint(data), at, false)
         && Joined(cs) == if e.cfg.policy.recordIdentifiers then data else Mask(data)
  }

  lemma ClientIsTaken(e: Env, conn: nat, data: seq<Byte>, at: int)
    ensures ClientTaken(e, WireClient(e, conn, data, at), conn, data, at)
  {
    hide WireBytes, Paint, Joined, IsChunk;
    if e.cfg.wireRing == 0 {
      WireOff(e, conn, ClientToServer, if e.cfg.policy.recordIdentifiers then Clear(data) else Paint(data), at, false);
    } else if data != [] {
      WireCarries(e, conn, ClientToServer, if e.cfg.policy.recordIdentifiers then Clear(data) else Paint(data), at, false);
      assert CellBytes(Clear(data)) == data;
    }
  }

  lemma SayPushes(e: Env, conn: nat, at: int, body: Body)
    ensures Say(e, conn, at, body).wire == e.wire && Say(e, conn, at, body).cfg == e.cfg
  {
    hide Emit;
  }

  /** An object accepted is in the wire log, and an error puts there what it is about. */
  lemma AcceptTakesDown(w: World, e: Env, c: Conn, json: seq<Byte>, m: Message, at: int)
    ensures ClientTaken(e, Accept(w, e, c, json, m, at).0, c.info.conn, json, at)
  {
    hide WireClient, QueueWrite, Say, ClientTaken, SayConnection;
    var id := c.info.conn;
    ClientIsTaken(e, id, json, at);
    var e1 := WireClient(e, id, json, at);
    var e2 := e1.(number := Inc32(e1.number));
    QueueKeeps(w, e2, id, Failed, P.CODE_FAILURE, P.TEXT_INCOMPLETE, None);
    QueueKeeps(w, e2, id, Ack, P.CODE_SHOT_RECEIVED, AckText(e2.cfg), None);
    var e3 := Reply(w, e2, id, m);
    var c1 := MessageCounted(c, m, json, at);
    NotesPush(w, e3, c1, m, at);
    var (e4, d) := Notes(w, e3, c1, m, at);
    SayPushes(e4, id, at, Heard(Marked(c, m), e1.number));
    TakenAlike(e, e1, Accept(w, e, c, json, m, at).0, id, json, at);
  }

  lemma TakenAlike(e: Env, f: Env, g: Env, conn: nat, data: seq<Byte>, at: int)
    requires ClientTaken(e, f, conn, data, at) && g.wire == f.wire
    ensures ClientTaken(e, g, conn, data, at)
  {
  }

  lemma NotesPush(w: World, e: Env, c: Conn, m: Message, at: int)
    ensures Notes(w, e, c, m, at).0.wire == e.wire
  {
    hide Say;
    var (e1, c1) := NoteActive(e, c, at);
    var (e2, c2) := NoteIdentity(w, e1, c1, m, at);
    SayPushes(e, c.info.conn, at, ClientActive);
    SayPushes(e1, c1.info.conn, at, Identified(c1.info.(identified := true, deviceId := m.deviceId)));
    SayPushes(e1, c1.info.conn, at, Warning(DeviceIdChanged, 0));
    SayPushes(e2, c2.info.conn, at,
              ClientState(Latest(m, LaunchMonitorIsReady, c2.info.ready), Latest(m, LaunchMonitorBallDetected, c2.info.ballDetected),
                          c2.info.ready, c2.info.ballDetected));
  }

  lemma RefuseTakesDown(w: World, e: Env, c: Conn, reason: ErrorReason, snippet: seq<Byte>, discarded: nat, at: int)
    ensures ClientTaken(e, Refuse(w, e, c, reason, snippet, discarded, at).0, c.info.conn, snippet, at)
  {
    hide WireClient, QueueWrite, Say, ClientTaken;
    var id := c.info.conn;
    ClientIsTaken(e, id, snippet, at);
    var e1 := WireClient(e, id, snippet, at);
    var d := ErrorCounted(c);
    QueueKeeps(w, e1, id, Failed, P.CODE_FAILURE, FailureText(reason), None);
    var e2 := QueueWrite(w, e1, id, Failed, P.CODE_FAILURE, FailureText(reason), None);
    var fault := FailureOf(d, reason, snippet, discarded);
    SayPushes(e2, id, at, ProtocolError(fault));
    SayPushes(Say(e2, id, at, ProtocolError(fault)), id, at, CloseRequested(fault));
    TakenAlike(e, e1, Refuse(w, e, c, reason, snippet, discarded, at).0, id, snippet, at);
  }

  /**
   * An opening and a closing put one line each into the wire log: the first 255 octets of the event
   * as it is described, marked as redacted unless policy has identifiers recorded. Other events put none.
   */
  lemma LineTaken(w: World, e: Env, conn: nat, body: Body, at: int)
    requires e.cfg.wireRing > 0
    ensures var f := SayConnection(w, e, conn, body, at);
            && e.wire.pushed <= f.wire.pushed
            && var cs := f.wire.pushed[|e.wire.pushed|..];
               if body.ConnectionOpened? || body.ConnectionClosed? then
                 var line := w.describe(Event(e.log.sequence, conn, at, body), e.cfg.policy.recordIdentifiers);
                 Carries(cs, conn, Meta, Clear(if |line| > 255 then line[..255] else line), at, !e.cfg.policy.recordIdentifiers)
               else cs == []
  {
    hide WireBytes, Say, IsChunk, Joined;
    SayPushes(e, conn, at, body);
    if body.ConnectionOpened? || body.ConnectionClosed? {
      var line := Upto(w.describe(Event(e.log.sequence, conn, at, body), e.cfg.policy.recordIdentifiers), META_MAX);
      WireCarries(Say(e, conn, at, body), conn, Meta, Clear(line), at, !e.cfg.policy.recordIdentifiers);
    }
  }
}
