/** How many replies a call queues, exactly when they are fewer than its messages, and when each is queued. */
module Replies {
  import opened Bytes
  import opened Message
  import opened Numbers
  import P = Protocol
  import opened Decode
  import opened Encode
  import opened Redact
  import opened Events
  import opened EventLog
  import opened WireLog
  import opened Hub
  import opened Conns
  import opened Frame
  import opened Sizes

  /** Whatever the server may have to answer fits a request; it depends on the policy's text alone. */
  predicate AnswersFit(lib: NumLib, e: Env) {
    TextFits(lib, P.CODE_SHOT_RECEIVED, AckText(e.cfg))
  }

  lemma AnswersFitExactly(lib: NumLib, e: Env)
    ensures AnswersFit(lib, e) <==> |Json.PrintItems(EscapeBytes(CStr(AckText(e.cfg))))| <= 230
  {
    TextFitsExactly(lib, P.CODE_SHOT_RECEIVED, AckText(e.cfg));
  }

  /** The write ring is as it was. */
  predicate SameWrites(e: Env, f: Env) {
    f.writes == e.writes && f.trace == e.trace && f.cfg == e.cfg
  }

  lemma SayWrites(e: Env, conn: nat, at: int, body: Body)
    ensures SameWrites(e, Say(e, conn, at, body))
  {
    hide Emit;
  }

  lemma WireOneWrites(e: Env, chunk: Chunk)
    ensures SameWrites(e, WireOne(e, chunk))
  {
    hide Emit, Push;
  }

  lemma {:induction false} WireAllWrites(e: Env, chunks: seq<Chunk>)
    ensures SameWrites(e, WireAll(e, chunks))
    decreases |chunks|
  {
    hide WireOne;
    if chunks != [] {
      WireOneWrites(e, chunks[0]);
      WireAllWrites(WireOne(e, chunks[0]), chunks[1..]);
    }
  }

  lemma WireClientWrites(e: Env, conn: nat, data: seq<Byte>, at: int)
    ensures SameWrites(e, WireClient(e, conn, data, at))
  {
    hide WireAll, ChunksOf, Paint;
    if data != [] && e.cfg.wireRing != 0 {
      WireAllWrites(e, ChunksOf(conn, ClientToServer,
                                if e.cfg.policy.recordIdentifiers then Clear(data) else Paint(data), at, false));
    }
  }

  lemma SayConnectionWrites(w: World, e: Env, conn: nat, body: Body, at: int)
    ensures SameWrites(e, SayConnection(w, e, conn, body, at))
  {
    hide Say, WireAll, ChunksOf;
    SayWrites(e, conn, at, body);
    var e1 := Say(e, conn, at, body);
    var line := Upto(w.describe(Event(e.log.sequence, conn, at, body), e.cfg.policy.recordIdentifiers), META_MAX);
    if e.cfg.wireRing != 0 {
      WireAllWrites(e1, ChunksOf(conn, Meta, Clear(line), at, !e.cfg.policy.recordIdentifiers));
    }
  }

  // --------------------------------------------------------------------------------------
  // Counting replies
  // --------------------------------------------------------------------------------------

  /** Messages delivered and errors reported. */
  function Completions(c: Conn): nat {
    c.story.messages + c.story.errors
  }

  /** One request more for `conn` if the ring had room for it; its place in the event log is now. */
  predicate OneMore(e: Env, f: Env, conn: nat) {
    && f.cfg == e.cfg
    && if WritesFull(e) then f.writes == e.writes && f.trace == e.trace
       else
         && |f.writes| == |e.writes| + 1 && |f.trace| == |e.trace| + 1
         && f.writes[..|e.writes|] == e.writes && f.trace[..|e.trace|] == e.trace
         && f.writes[|e.writes|].conn == conn
         && f.trace[|e.trace|].Queued? && f.trace[|e.trace|].write == f.writes[|e.writes|]
  }

  lemma QueueOneMore(w: World, e: Env, conn: nat, kind: WriteKind, code: int, text: seq<Byte>)
    requires TextFits(w.lib, code, text) && P.CodeIsOurs(code)
    ensures OneMore(e, QueueWrite(w, e, conn, kind, code, text, None), conn)
    ensures !WritesFull(e) ==>
              QueueWrite(w, e, conn, kind, code, text, None).trace[|e.trace|].seen == |e.log.emitted|
  {
    hide ResponseText;
  }

  lemma OneMoreAround(e: Env, e1: Env, f1: Env, f: Env, conn: nat)
    requires SameWrites(e, e1) && OneMore(e1, f1, conn) && SameWrites(f1, f)
    ensures OneMore(e, f, conn)
  {
  }

  lemma SayFailureWrites(e: Env, c: Conn, f: Failure, at: int)
    ensures SameWrites(e, SayFailure(e, c, f, at))
  {
    hide Say;
    SayWrites(e, c.info.conn, at, ProtocolError(f));
    SayWrites(Say(e, c.info.conn, at, ProtocolError(f)), c.info.conn, at, CloseRequested(f));
  }

  lemma RefuseOneMore(w: World, e: Env, c: Conn, reason: ErrorReason, snippet: seq<Byte>, discarded: nat, at: int)
    ensures var (f, d) := Refuse(w, e, c, reason, snippet, discarded, at);
            OneMore(e, f, c.info.conn) && Completions(d) == Completions(c) + 1
  {
    hide QueueWrite, WireClient, SayFailure, OneMore, TextFits;
    var id := c.info.conn;
    FixedTextsFit(w.lib);
    WireClientWrites(e, id, snippet, at);
    var e1 := WireClient(e, id, snippet, at);
    QueueOneMore(w, e1, id, Failed, P.CODE_FAILURE, FailureText(reason));
    var e2 := QueueWrite(w, e1, id, Failed, P.CODE_FAILURE, FailureText(reason), None);
    var d := ErrorCounted(c);
    SayFailureWrites(e2, d, FailureOf(d, reason, snippet, discarded), at);
    OneMoreAround(e, e1, e2, SayFailure(e2, d, FailureOf(d, reason, snippet, discarded), at), id);
  }

  lemma ReplyOneMore(w: World, e: Env, conn: nat, m: Message)
    requires AnswersFit(w.lib, e)
    ensures OneMore(e, Reply(w, e, conn, m), conn)
    ensures !WritesFull(e) ==> Reply(w, e, conn, m).trace[|e.trace|].seen == |e.log.emitted|
  {
    hide QueueWrite, TextFits;
    FixedTextsFit(w.lib);
    if Rejected(e.cfg, m) {
      QueueOneMore(w, e, conn, Failed, P.CODE_FAILURE, P.TEXT_INCOMPLETE);
    } else {
      QueueOneMore(w, e, conn, Ack, P.CODE_SHOT_RECEIVED, AckText(e.cfg));
    }
  }

  lemma NotesWrites(w: World, e: Env, c: Conn, m: Message, at: int)
    ensures SameWrites(e, Notes(w, e, c, m, at).0)
  {
    hide Say, SayConnection;
    var (e1, c1) := NoteActive(e, c, at);
    var (e2, c2) := NoteIdentity(w, e1, c1, m, at);
    SayWrites(e, c.info.conn, at, ClientActive);
    SayConnectionWrites(w, e1, c1.info.conn, Identified(c1.info.(identified := true, deviceId := m.deviceId)), at);
    SayWrites(e1, c1.info.conn, at, Warning(DeviceIdChanged, 0));
    SayWrites(e2, c2.info.conn, at,
              ClientState(Latest(m, LaunchMonitorIsReady, c2.info.ready), Latest(m, LaunchMonitorBallDetected, c2.info.ballDetected),
                          c2.info.ready, c2.info.ballDetected));
  }

  lemma AcceptOneMore(w: World, e: Env, c: Conn, json: seq<Byte>, m: Message, at: int)
    requires AnswersFit(w.lib, e)
    ensures var (f, d) := Accept(w, e, c, json, m, at);
            OneMore(e, f, c.info.conn) && Completions(d) == Completions(c) + 1
  {
    hide Reply, WireClient, Notes, Say, OneMore, TextFits;
    var id := c.info.conn;
    WireClientWrites(e, id, json, at);
    var e1 := WireClient(e, id, json, at);
    var e2 := e1.(number := Inc32(e1.number));
    ReplyOneMore(w, e2, id, m);
    var e3 := Reply(w, e2, id, m);
    var c1 := MessageCounted(c, m, json, at);
    NotesWrites(w, e3, c1, m, at);
    NotesKeep(w, e3, c1, m, at);
    var (e4, d) := Notes(w, e3, c1, m, at);
    SayWrites(e4, id, at, Heard(Marked(c, m), e1.number));
    OneMoreAround(e, e2, e3, Say(e4, id, at, Heard(Marked(c, m), e1.number)), id);
  }

  lemma DeliverOneMore(w: World, e: Env, c: Conn, json: seq<Byte>, at: int)
    requires AnswersFit(w.lib, e)
    ensures var (f, d, ok) := Deliver(w, e, c, json, at);
            OneMore(e, f, c.info.conn) && Completions(d) == Completions(c) + 1
  {
    hide Refuse, Accept, DecodeMessage, OneMore;
    match DecodeMessage(w.lib, json) {
      case None => RefuseOneMore(w, e, c, BadJson, json, |json|, at);
      case Some(m) => AcceptOneMore(w, e, c, json, m, at);
    }
  }

  // --------------------------------------------------------------------------------------
  // Framing
  // --------------------------------------------------------------------------------------

  /** A slot is free whenever a message is being received: the reply to it will have a place. */
  predicate ReplyReady(e: Env, c: Conn) {
    InMessage(c.framer) ==> !WritesFull(e)
  }

  /** As many requests more as completions. */
  predicate Answered(e: Env, c: Conn, f: Env, d: Conn) {
    |f.trace| - |e.trace| == Completions(d) - Completions(c) && f.cfg == e.cfg
  }

  /** No request more, and at most one completion, of the message that was being received. */
  predicate Unanswered(e: Env, c: Conn, f: Env, d: Conn) {
    && SameWrites(e, f)
    && (Completions(d) == Completions(c) || (Completions(d) == Completions(c) + 1 && InMessage(c.framer)))
    && (Completions(d) > Completions(c) ==> !InMessage(d.framer))
    && (!InMessage(c.framer) ==> !InMessage(d.framer))
  }

  lemma FrameByteReplies(w: World, e: Env, c: Conn, at: int)
    requires c.scan < |c.rx| && AnswersFit(w.lib, e)
    requires InMessage(c.framer) || !WritesFull(e)
    ensures var (f, d, end) := FrameByte(w, e, c, at);
            if WritesFull(e) then Unanswered(e, c, f, d) else Answered(e, c, f, d) && ReplyReady(f, d)
  {
    hide Refuse, Deliver, TextFits, Compact;
    var (g, step) := Advance(c.framer, c.rx[c.scan]);
    var c1 := c.(framer := g, scan := c.scan + 1);
    if step == Garbage {
      RefuseOneMore(w, e, c, LeadingGarbage, c.rx[c.scan..], |c.rx| - c.scan, at);
    } else if step == Close {
      DeliverOneMore(w, e, c1, c1.rx[..c1.scan], at);
      DeliverKeeps(w, e, c1, c1.rx[..c1.scan], at);
      var (f, d, ok) := Deliver(w, e, c1, c1.rx[..c1.scan], at);
      CompactFramer(d);
    } else if c1.scan > e.cfg.maxMessage {
      RefuseOneMore(w, e, c1, TooLarge, c1.rx[..c1.scan], |c1.rx|, at);
    }
  }

  lemma CompactFramer(c: Conn)
    requires c.scan <= |c.rx|
    ensures Compact(c).framer == c.framer && Compact(c).story == c.story
  {
  }

  lemma {:induction false} FramePendingReplies(w: World, e: Env, c: Conn, at: int)
    requires c.scan <= |c.rx| && AnswersFit(w.lib, e)
    ensures var t := FramePending(w, e, c, at);
            && (ReplyReady(e, c) ==> Answered(e, c, t.env, t.conn) && ReplyReady(t.env, t.conn))
            && (WritesFull(e) ==> Unanswered(e, c, t.env, t.conn))
    decreases Unscanned(c)
  {
    hide FrameByte, Advance, TextFits, Compact;
    if c.scan == |c.rx| {
      CompactFramer(c);
    } else if !InMessage(c.framer) && IsWs(c.rx[c.scan]) {
      FramePendingReplies(w, e, Pass(c), at);
    } else if !InMessage(c.framer) && WritesFull(e) {
      CompactFramer(c);
    } else {
      var d := if InMessage(c.framer) then c else Compact(c);
      CompactFramer(c);
      FrameByteShrinks(w, e, d, at);
      FrameByteReplies(w, e, d, at);
      var (e1, d1, end) := FrameByte(w, e, d, at);
      if end == None {
        FramePendingReplies(w, e1, d1, at);
      }
    }
  }

  lemma {:induction false} AbsorbReplies(w: World, e: Env, c: Conn, data: seq<Byte>, at: int)
    requires c.scan <= |c.rx| && AnswersFit(w.lib, e)
    ensures var (f, d, rest, full) := Absorb(w, e, c, data, at);
            && (ReplyReady(e, c) ==> Answered(e, c, f, d) && ReplyReady(f, d))
            && (WritesFull(e) ==> Unanswered(e, c, f, d))
    decreases |data|, |c.rx|
  {
    hide FramePending, Room, TextFits;
    var take := if Room(e, c) < |data| then Room(e, c) else |data|;
    var c1 := Append(c, data[..take]);
    FramePendingKeeps(w, e, c1, at);
    FramePendingReplies(w, e, c1, at);
    var t := FramePending(w, e, c1, at);
    if t.ending == Discarded {
      AbsorbReplies(w, t.env, Spoil(t.conn, |data| - take), [], at);
    } else if t.ending != Refused && take != |data| && take != 0 {
      AbsorbReplies(w, t.env, t.conn, data[take..], at);
    }
  }

  /**
   * In one call as many replies are queued as messages are delivered and errors reported, exactly
   * if a slot was free for the message being received when the call came, or nothing was completed.
   */
  lemma RepliesExactly(w: World, e: Env, c: Conn, data: seq<Byte>, at: int)
    requires c.scan <= |c.rx| && AnswersFit(w.lib, e)
    ensures var (f, d, status) := TakeBytes(w, e, c, data, at);
            && (|f.trace| - |e.trace| == Completions(d) - Completions(c)
                <==> ReplyReady(e, c) || Completions(d) == Completions(c))
            && (ReplyReady(e, c) ==> ReplyReady(f, d))
            && (!ReplyReady(e, c) ==> |f.trace| == |e.trace| && Completions(d) <= Completions(c) + 1)
  {
    hide Absorb, Say, TextFits, Room;
    var c0 := c.(story := c.story.(offered := c.story.offered + data));
    AbsorbReplies(w, e, c0, data, at);
    var (e1, d, rest, full) := Absorb(w, e, c0, data, at);
    SayWrites(e1, c.info.conn, at, Warning(WriteRingFull, |Append(d, rest).rx| % WORD));
    SayWrites(e1, c.info.conn, at, Warning(WriteRingFull, |rest| % WORD));
  }

  // --------------------------------------------------------------------------------------
  // A message that straddles two calls can lose its reply
  // --------------------------------------------------------------------------------------

  const EMPTY_OBJECT: seq<Byte> := [LBRACE, RBRACE]

  /** `{}` completed: delivered, and answered if there is a slot for the answer. */
  lemma HalfFramed(w: World, e: Env, c: Conn, at: int)
    requires AnswersFit(w.lib, e) && e.cfg.maxMessage >= LEAST_MESSAGE
    requires c.framer == State(1, false, false) && c.rx == EMPTY_OBJECT && c.scan == 1
    ensures var t := FramePending(w, e, c, at);
            && t.ending == Drained && OneMore(e, t.env, c.info.conn)
            && DecodeMessage(w.lib, EMPTY_OBJECT).Some?
            && t.conn.story == Delivering(c.story, EMPTY_OBJECT, DecodeMessage(w.lib, EMPTY_OBJECT).value)
  {
    hide Deliver, TextFits, DecodeMessage, OneMore;
    assert c.rx[..2] == EMPTY_OBJECT;
    var c2 := c.(framer := RESET, scan := 2);
    EmptyObjectDecodes(w.lib);
    DeliverEmpty(w, e, c2, at);
    var (f, d, ok) := Deliver(w, e, c2, EMPTY_OBJECT, at);
    assert FrameByte(w, e, c, at) == (f, Compact(d), None);
    assert FramePending(w, f, Compact(d), at) == Turn(f, Compact(d), Drained);
  }

  lemma SecondHalf(w: World, e: Env, c: Conn, at: int)
    requires AnswersFit(w.lib, e) && e.cfg.maxMessage >= LEAST_MESSAGE
    requires c.framer == State(1, false, false) && c.rx == [LBRACE] && c.scan == 1
    ensures var (f, d, status) := TakeBytes(w, e, c, [RBRACE], at);
            && status == P.Ok && OneMore(e, f, c.info.conn)
            && d.story.messages == c.story.messages + 1 && d.story.errors == c.story.errors
            && d.story.delivered == c.story.delivered + [EMPTY_OBJECT]
  {
    hide FramePending, TextFits, OneMore, DecodeMessage;
    var c0 := c.(story := c.story.(offered := c.story.offered + [RBRACE]));
    var c1 := Append(c0, [RBRACE]);
    assert [RBRACE][..1] == [RBRACE] && [RBRACE][1..] == [];
    assert c1.rx == EMPTY_OBJECT;
    HalfFramed(w, e, c1, at);
    var t := FramePending(w, e, c1, at);
    assert Absorb(w, e, c0, [RBRACE], at) == (t.env, t.conn, [], false);
  }

  /** `{}` cut in two, with the write ring filled between the calls: delivered, and not answered. */
  lemma StraddlingMessageUnanswered(w: World, e: Env, c: Conn, at: int)
    requires AnswersFit(w.lib, e) && WritesFull(e) && e.cfg.maxMessage >= LEAST_MESSAGE
    requires c.framer == State(1, false, false) && c.rx == [LBRACE] && c.scan == 1
    ensures var (f, d, status) := TakeBytes(w, e, c, [RBRACE], at);
            && d.story.messages == c.story.messages + 1 && f.trace == e.trace && f.writes == e.writes
            && status == P.Ok
  {
    hide TakeBytes, TextFits;
    SecondHalf(w, e, c, at);
  }

  lemma EmptyObjectDecodes(lib: NumLib)
    ensures DecodeMessage(lib, EMPTY_OBJECT).Some?
  {
  }

  lemma DeliverEmpty(w: World, e: Env, c: Conn, at: int)
    requires AnswersFit(w.lib, e) && DecodeMessage(w.lib, EMPTY_OBJECT).Some?
    requires c.rx == EMPTY_OBJECT && c.scan == 2 && c.framer == RESET
    ensures var (f, d, ok) := Deliver(w, e, c, EMPTY_OBJECT, at);
            && ok && OneMore(e, f, c.info.conn)
            && d.story == Delivering(c.story, EMPTY_OBJECT, DecodeMessage(w.lib, EMPTY_OBJECT).value)
            && d.rx == c.rx && d.scan == c.scan && d.framer == c.framer
  {
    hide Accept, Refuse, DecodeMessage, TextFits, OneMore;
    DeliverOneMore(w, e, c, EMPTY_OBJECT, at);
    DeliverKeeps(w, e, c, EMPTY_OBJECT, at);
    AcceptStory(w, e, c, EMPTY_OBJECT, DecodeMessage(w.lib, EMPTY_OBJECT).value, at);
  }

  lemma AcceptStory(w: World, e: Env, c: Conn, json: seq<Byte>, m: Message, at: int)
    ensures Accept(w, e, c, json, m, at).1.story
         == Delivering(c.story, json, m)
  {
    hide WireClient, Reply, Notes, Say;
    var e1 := WireClient(e, c.info.conn, json, at);
    NotesKeep(w, Reply(w, e1.(number := Inc32(e1.number)), c.info.conn, m), MessageCounted(c, m, json, at), m, at);
  }

  // --------------------------------------------------------------------------------------
  // The reply comes first
  // --------------------------------------------------------------------------------------

  /** More events, the new ones being warnings only. */
  predicate OnlyWarned(es: seq<Event>, fs: seq<Event>) {
    es <= fs && forall i :: |es| <= i < |fs| ==> fs[i].body.Warning?
  }

  lemma SayEvents(e: Env, conn: nat, at: int, body: Body)
    requires e.log.cap > 0
    ensures var fs := Say(e, conn, at, body).log.emitted;
            && e.log.emitted < fs && fs[|e.log.emitted|].body == body && fs[|e.log.emitted|].conn == conn
            && (body.Warning? ==> OnlyWarned(e.log.emitted, fs))
    ensures Say(e, conn, at, body).log.cap == e.log.cap
  {
  }

  lemma WireOneEvents(e: Env, chunk: Chunk)
    requires e.log.cap > 0
    ensures OnlyWarned(e.log.emitted, WireOne(e, chunk).log.emitted) && WireOne(e, chunk).log.cap == e.log.cap
  {
    hide Push, Say;
    var e1 := e.(wire := Push(e.wire, chunk));
    SayEvents(e1.(wire := e1.wire.(warned := Said)), CONN_NONE, e1.now, Warning(WireDropped, e1.wire.dropped));
  }

  lemma {:induction false} WireAllEvents(e: Env, chunks: seq<Chunk>)
    requires e.log.cap > 0
    ensures OnlyWarned(e.log.emitted, WireAll(e, chunks).log.emitted) && WireAll(e, chunks).log.cap == e.log.cap
    decreases |chunks|
  {
    hide WireOne;
    if chunks != [] {
      WireOneEvents(e, chunks[0]);
      WireAllEvents(WireOne(e, chunks[0]), chunks[1..]);
    }
  }

  lemma WireClientEvents(e: Env, conn: nat, data: seq<Byte>, at: int)
    requires e.log.cap > 0
    ensures var f := WireClient(e, conn, data, at);
            OnlyWarned(e.log.emitted, f.log.emitted) && f.log.cap == e.log.cap
  {
    hide WireAll, ChunksOf, Paint;
    if data != [] && e.cfg.wireRing != 0 {
      WireAllEvents(e, ChunksOf(conn, ClientToServer,
                                if e.cfg.policy.recordIdentifiers then Clear(data) else Paint(data), at, false));
    }
  }

  lemma SayConnectionEvents(w: World, e: Env, conn: nat, body: Body, at: int)
    requires e.log.cap > 0
    ensures var f := SayConnection(w, e, conn, body, at);
            e.log.emitted <= f.log.emitted && f.log.cap == e.log.cap
  {
    hide Say, WireAll, ChunksOf;
    SayEvents(e, conn, at, body);
    var e1 := Say(e, conn, at, body);
    var line := Upto(w.describe(Event(e.log.sequence, conn, at, body), e.cfg.policy.recordIdentifiers), META_MAX);
    WireAllEvents(e1, ChunksOf(conn, Meta, Clear(line), at, !e.cfg.policy.recordIdentifiers));
  }

  lemma NotesEvents(w: World, e: Env, c: Conn, m: Message, at: int)
    requires e.log.cap > 0
    ensures var f := Notes(w, e, c, m, at).0; e.log.emitted <= f.log.emitted && f.log.cap == e.log.cap
  {
    hide Say, SayConnection;
    var (e1, c1) := NoteActive(e, c, at);
    SayEvents(e, c.info.conn, at, ClientActive);
    var (e2, c2) := NoteIdentity(w, e1, c1, m, at);
    SayConnectionEvents(w, e1, c1.info.conn, Identified(c1.info.(identified := true, deviceId := m.deviceId)), at);
    SayEvents(e1, c1.info.conn, at, Warning(DeviceIdChanged, 0));
    SayEvents(e2, c2.info.conn, at,
              ClientState(Latest(m, LaunchMonitorIsReady, c2.info.ready), Latest(m, LaunchMonitorBallDetected, c2.info.ballDetected),
                          c2.info.ready, c2.info.ballDetected));
  }

  lemma QueueEvents(w: World, e: Env, conn: nat, kind: WriteKind, code: int, text: seq<Byte>)
    ensures QueueWrite(w, e, conn, kind, code, text, None).log == e.log
  {
    hide ResponseText;
  }

  /**
   * When a message's reply is queued, nothing but warnings has been emitted for the message, its own
   * event included: whatever an overflowing event ring drops, the reply stands.
   */
  lemma ReplyBeforeEvent(w: World, e: Env, c: Conn, json: seq<Byte>, m: Message, at: int)
    requires e.log.cap > 0 && AnswersFit(w.lib, e) && !WritesFull(e)
    ensures var f := Accept(w, e, c, json, m, at).0;
            && |f.trace| == |e.trace| + 1
            && f.trace[|e.trace|].Queued? && f.trace[|e.trace|].write.conn == c.info.conn
            && var seen := f.trace[|e.trace|].seen;
               && |e.log.emitted| <= seen < |f.log.emitted|
               && (forall i :: |e.log.emitted| <= i < seen ==> f.log.emitted[i].body.Warning?)
               && exists i :: seen <= i < |f.log.emitted| && IsHeard(f.log.emitted[i], c.info.conn, Marked(c, m))
  {
    hide WireClient, Reply, Notes, Say, TextFits;
    var id := c.info.conn;
    WireClientWrites(e, id, json, at);
    WireClientEvents(e, id, json, at);
    var e1 := WireClient(e, id, json, at);
    var e2 := e1.(number := Inc32(e1.number));
    ReplyOneMore(w, e2, id, m);
    ReplyEvents(w, e2, id, m);
    var e3 := Reply(w, e2, id, m);
    var c1 := MessageCounted(c, m, json, at);
    NotesWrites(w, e3, c1, m, at);
    NotesEvents(w, e3, c1, m, at);
    NotesKeep(w, e3, c1, m, at);
    var (e4, d) := Notes(w, e3, c1, m, at);
    SayEvents(e4, id, at, Heard(Marked(c, m), e1.number));
    SayWrites(e4, id, at, Heard(Marked(c, m), e1.number));
    var f := Say(e4, id, at, Heard(Marked(c, m), e1.number));
    assert IsHeard(f.log.emitted[|e4.log.emitted|], id, Marked(c, m));
  }

  predicate IsHeard(x: Event, conn: nat, m: Message) {
    x.conn == conn && x.body.Heard? && x.body.message == m
  }

  lemma ReplyEvents(w: World, e: Env, conn: nat, m: Message)
    ensures Reply(w, e, conn, m).log == e.log
  {
    hide QueueWrite;
    QueueEvents(w, e, conn, Failed, P.CODE_FAILURE, P.TEXT_INCOMPLETE);
    QueueEvents(w, e, conn, Ack, P.CODE_SHOT_RECEIVED, AckText(e.cfg));
  }
}
