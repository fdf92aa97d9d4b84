/** No event that a reply belongs to is ever ahead of that reply, at any moment of a call. */
module Leading {
  import opened Bytes
  import opened Message
  import opened Numbers
  import P = Protocol
  import opened Decode
  import opened Encode
  import opened Events
  import opened EventLog
  import opened Hub
  import opened Conns
  import opened Frame
  import opened Sizes
  import opened Serving
  import opened Replies

  /** A message or an error reported for `id`. */
  predicate IsReport(x: Event, id: nat) {
    x.conn == id && (x.body.Heard? || x.body.ProtocolError?)
  }

  function Reports(es: seq<Event>, id: nat): nat {
    if es == [] then 0 else Reports(es[..|es| - 1], id) + if IsReport(es[|es| - 1], id) then 1 else 0
  }

  /** The requests queued for `id` while fewer than `n` events had been emitted. */
  function Answers(steps: seq<Hub.Step>, n: nat, id: nat): nat {
    if steps == [] then 0
    else
      var x := steps[|steps| - 1];
      Answers(steps[..|steps| - 1], n, id) + if x.Queued? && x.write.conn == id && x.seen < n then 1 else 0
  }

  lemma {:induction false} ReportsConcat(a: seq<Event>, b: seq<Event>, id: nat)
    ensures Reports(a + b, id) == Reports(a, id) + Reports(b, id)
    decreases |b|
  {
    if b == [] {
      assert a + b == a;
    } else {
      var n := |b| - 1;
      assert (a + b)[..|a + b| - 1] == a + b[..n];
      ReportsConcat(a, b[..n], id);
    }
  }

  lemma {:induction false} AnswersConcat(a: seq<Hub.Step>, b: seq<Hub.Step>, n: nat, id: nat)
    ensures Answers(a + b, n, id) == Answers(a, n, id) + Answers(b, n, id)
    decreases |b|
  {
    if b == [] {
      assert a + b == a;
    } else {
      var k := |b| - 1;
      assert (a + b)[..|a + b| - 1] == a + b[..k];
      AnswersConcat(a, b[..k], n, id);
    }
  }

  lemma {:induction false} AnswersGrow(a: seq<Hub.Step>, m: nat, n: nat, id: nat)
    requires m <= n
    ensures Answers(a, m, id) <= Answers(a, n, id)
    decreases |a|
  {
    if a != [] {
      AnswersGrow(a[..|a| - 1], m, n, id);
    }
  }

  lemma {:induction false} NoReports(es: seq<Event>, id: nat)
    requires forall i :: 0 <= i < |es| ==> !IsReport(es[i], id)
    ensures Reports(es, id) == 0
    decreases |es|
  {
    if es != [] {
      NoReports(es[..|es| - 1], id);
    }
  }

  // --------------------------------------------------------------------------------------
  // Replies lead
  // --------------------------------------------------------------------------------------

  predicate LedAt(e: Env, f: Env, id: nat, n: nat)
    requires |e.log.emitted| <= n <= |f.log.emitted| && |e.trace| <= |f.trace|
  {
    Reports(f.log.emitted[|e.log.emitted|..n], id) <= Answers(f.trace[|e.trace|..], n, id)
  }

  /** From `e` to `f` only events and requests were added, and reports never got ahead of requests. */
  ghost predicate Led(e: Env, f: Env, id: nat) {
    && e.log.emitted <= f.log.emitted && e.trace <= f.trace && f.log.cap == e.log.cap
    && forall n :: |e.log.emitted| <= n <= |f.log.emitted| ==> LedAt(e, f, id, n)
  }

  lemma LedTwice(e: Env, f: Env, g: Env, id: nat)
    requires Led(e, f, id) && Led(f, g, id)
    ensures Led(e, g, id)
  {
    var a, b, c := |e.log.emitted|, |f.log.emitted|, |g.log.emitted|;
    var s, t := f.trace[|e.trace|..], g.trace[|f.trace|..];
    assert g.trace[|e.trace|..] == s + t;
    forall n | a <= n <= c
      ensures LedAt(e, g, id, n)
    {
      AnswersConcat(s, t, n, id);
      if n <= b {
        assert g.log.emitted[a..n] == f.log.emitted[a..n];
        assert LedAt(e, f, id, n);
      } else {
        assert g.log.emitted[a..n] == f.log.emitted[a..b] + g.log.emitted[b..n];
        ReportsConcat(f.log.emitted[a..b], g.log.emitted[b..n], id);
        assert LedAt(e, f, id, b) && LedAt(f, g, id, n);
        AnswersGrow(s, b, n, id);
      }
    }
  }

  /** Nothing reported leads whatever was queued. */
  lemma QuietLeads(e: Env, f: Env, id: nat)
    requires e.log.emitted <= f.log.emitted && e.trace <= f.trace && f.log.cap == e.log.cap
    requires forall i :: |e.log.emitted| <= i < |f.log.emitted| ==> !IsReport(f.log.emitted[i], id)
    ensures Led(e, f, id)
  {
    forall n | |e.log.emitted| <= n <= |f.log.emitted|
      ensures LedAt(e, f, id, n)
    {
      NoReports(f.log.emitted[|e.log.emitted|..n], id);
    }
  }

  /** One request queued, and behind it at most one report. */
  lemma OneLeads(e: Env, f: Env, id: nat)
    requires e.log.emitted <= f.log.emitted && f.log.cap == e.log.cap && |f.trace| == |e.trace| + 1 && e.trace <= f.trace
    requires f.trace[|e.trace|].Queued? && f.trace[|e.trace|].write.conn == id && f.trace[|e.trace|].seen == |e.log.emitted|
    requires Reports(f.log.emitted[|e.log.emitted|..], id) <= 1
    ensures Led(e, f, id)
  {
    var a, z := |e.log.emitted|, |f.log.emitted|;
    var q := f.trace[|e.trace|..];
    assert q == [f.trace[|e.trace|]];
    forall n | a <= n <= z
      ensures LedAt(e, f, id, n)
    {
      var x := f.log.emitted[a..n];
      assert f.log.emitted[a..] == x + f.log.emitted[n..];
      ReportsConcat(x, f.log.emitted[n..], id);
      assert q[..|q| - 1] == [];
      if n == a {
        assert x == [];
      }
    }
  }

  // --------------------------------------------------------------------------------------
  // What is reported when
  // --------------------------------------------------------------------------------------

  lemma SayReports(e: Env, conn: nat, at: int, body: Body)
    requires e.log.cap > 0
    ensures var f := Say(e, conn, at, body);
            && e.log.emitted <= f.log.emitted && f.log.cap == e.log.cap && f.trace == e.trace
            && Reports(f.log.emitted[|e.log.emitted|..], conn) == (if body.Heard? || body.ProtocolError? then 1 else 0)
            && (!body.Heard? && !body.ProtocolError? ==>
                  forall i :: |e.log.emitted| <= i < |f.log.emitted| ==> !IsReport(f.log.emitted[i], conn))
  {
    hide Reports;
    var f := Say(e, conn, at, body);
    var more := f.log.emitted[|e.log.emitted|..];
    var x := Event(e.log.sequence, conn, at, body);
    SaidEvents(e, conn, at, body);
    assert more == [x] + more[1..];
    ReportsConcat([x], more[1..], conn);
    NoReports(more[1..], conn);
    OneReport(x, conn);
  }

  lemma OneReport(x: Event, id: nat)
    ensures Reports([x], id) == if IsReport(x, id) then 1 else 0
  {
    assert [x][..0] == [];
  }

  /** The event, and behind it nothing but a warning. */
  lemma SaidEvents(e: Env, conn: nat, at: int, body: Body)
    requires e.log.cap > 0
    ensures var f := Say(e, conn, at, body);
            && e.log.emitted < f.log.emitted && f.log.cap == e.log.cap && f.trace == e.trace
            && f.log.emitted[|e.log.emitted|] == Event(e.log.sequence, conn, at, body)
            && forall i :: |e.log.emitted| < i < |f.log.emitted| ==> f.log.emitted[i].body.Warning?
  {
  }

  lemma WarnedLeads(e: Env, f: Env, id: nat)
    requires OnlyWarned(e.log.emitted, f.log.emitted) && SameWrites(e, f) && f.log.cap == e.log.cap
    ensures Led(e, f, id)
  {
    QuietLeads(e, f, id);
  }

  lemma QuietSay(e: Env, conn: nat, at: int, body: Body)
    requires e.log.cap > 0 && !body.Heard? && !body.ProtocolError?
    ensures Led(e, Say(e, conn, at, body), conn)
  {
    hide Say;
    SayReports(e, conn, at, body);
    QuietLeads(e, Say(e, conn, at, body), conn);
  }

  lemma WireLeads(e: Env, conn: nat, data: seq<Byte>, at: int)
    requires e.log.cap > 0
    ensures Led(e, WireClient(e, conn, data, at), conn)
  {
    hide WireClient;
    WireClientEvents(e, conn, data, at);
    WireClientWrites(e, conn, data, at);
    WarnedLeads(e, WireClient(e, conn, data, at), conn);
  }

  // --------------------------------------------------------------------------------------
  // Errors and messages
  // --------------------------------------------------------------------------------------

  /** A 501 is queued before its error is reported. */
  lemma RefuseLeads(w: World, e: Env, c: Conn, reason: ErrorReason, snippet: seq<Byte>, discarded: nat, at: int)
    requires e.log.cap > 0 && !WritesFull(e)
    ensures Led(e, Refuse(w, e, c, reason, snippet, discarded, at).0, c.info.conn)
  {
    hide QueueWrite, WireClient, Say, TextFits, Led, Reports, WritesFull;
    var id := c.info.conn;
    FixedTextsFit(w.lib);
    WireClientWrites(e, id, snippet, at);
    WireClientEvents(e, id, snippet, at);
    WireLeads(e, id, snippet, at);
    var e1 := WireClient(e, id, snippet, at);
    SameRoom(e, e1);
    var text := FailureText(reason);
    QueueOneMore(w, e1, id, Failed, P.CODE_FAILURE, text);
    QueueEvents(w, e1, id, Failed, P.CODE_FAILURE, text);
    var e2 := QueueWrite(w, e1, id, Failed, P.CODE_FAILURE, text, None);
    var d := ErrorCounted(c);
    var f := FailureOf(d, reason, snippet, discarded);
    var e3 := Say(e2, id, at, ProtocolError(f));
    SayReports(e2, id, at, ProtocolError(f));
    QueuedThenSaid(e1, e2, e3, id);
    LedTwice(e, e1, e3, id);
    QuietSay(e3, id, at, CloseRequested(f)) by { LedCap(e, e3, id); }
    LedTwice(e, e3, Say(e3, id, at, CloseRequested(f)), id);
  }

  lemma SameRoom(e: Env, f: Env)
    requires SameWrites(e, f)
    ensures WritesFull(f) == WritesFull(e)
  {
  }

  lemma LedCap(e: Env, f: Env, id: nat)
    requires Led(e, f, id)
    ensures f.log.cap == e.log.cap
  {
  }

  lemma QueuedThenSaid(e: Env, e1: Env, f: Env, id: nat)
    requires OneMore(e, e1, id) && !WritesFull(e) && e1.trace[|e.trace|].seen == |e.log.emitted| && e1.log == e.log
    requires e1.log.emitted <= f.log.emitted && f.trace == e1.trace && f.log.cap == e1.log.cap
    requires Reports(f.log.emitted[|e1.log.emitted|..], id) <= 1
    ensures Led(e, f, id)
  {
    hide Led;
    OneLeads(e, f, id);
  }

  lemma QuietTwice(e: Env, f: Env, g: Env, id: nat)
    requires Quiet(e, f, id) && Quiet(f, g, id)
    ensures Quiet(e, g, id)
  {
  }

  /** Only events that are no reports were added. */
  predicate Quiet(e: Env, f: Env, id: nat) {
    && e.log.emitted <= f.log.emitted && f.log.cap == e.log.cap && f.trace == e.trace
    && forall i :: |e.log.emitted| <= i < |f.log.emitted| ==> !IsReport(f.log.emitted[i], id)
  }

  lemma SayQuiet(e: Env, conn: nat, at: int, body: Body)
    requires e.log.cap > 0 && !body.Heard? && !body.ProtocolError?
    ensures Quiet(e, Say(e, conn, at, body), conn)
  {
    hide Say;
    SayReports(e, conn, at, body);
  }

  lemma IdentifiedQuiet(w: World, e: Env, conn: nat, info: Info, at: int)
    requires e.log.cap > 0
    ensures Quiet(e, SayConnection(w, e, conn, Identified(info), at), conn)
  {
    hide Say;
    SayQuiet(e, conn, at, Identified(info));
  }

  lemma NotesQuiet(w: World, e: Env, c: Conn, m: Message, at: int)
    requires e.log.cap > 0
    ensures var f := Notes(w, e, c, m, at).0; Quiet(e, f, c.info.conn)
  {
    hide Say, SayConnection, Latest;
    var id := c.info.conn;
    var (e1, c1) := NoteActive(e, c, at);
    SayQuiet(e, id, at, ClientActive);
    var (e2, c2) := NoteIdentity(w, e1, c1, m, at);
    IdentifiedQuiet(w, e1, id, c1.info.(identified := true, deviceId := m.deviceId), at);
    SayQuiet(e1, id, at, Warning(DeviceIdChanged, 0));
    var (e3, c3) := NoteState(e2, c2, m, at);
    SayQuiet(e2, id, at, ClientState(Latest(m, LaunchMonitorIsReady, c2.info.ready), Latest(m, LaunchMonitorBallDetected, c2.info.ballDetected),
                                     c2.info.ready, c2.info.ballDetected));
    QuietTwice(e, e1, e2, id);
    QuietTwice(e, e2, e3, id);
  }

  /** A message's reply is queued before its event. */
  lemma AcceptLeads(w: World, e: Env, c: Conn, json: seq<Byte>, m: Message, at: int)
    requires e.log.cap > 0 && !WritesFull(e) && AnswersFit(w.lib, e)
    ensures Led(e, Accept(w, e, c, json, m, at).0, c.info.conn)
  {
    hide WireClient, Reply, Notes, Say, TextFits, Led, Reports, WritesFull, Quiet;
    var id := c.info.conn;
    WireClientWrites(e, id, json, at);
    WireClientEvents(e, id, json, at);
    WireLeads(e, id, json, at);
    var e1 := WireClient(e, id, json, at);
    SameRoom(e, e1);
    var e2 := e1.(number := Inc32(e1.number));
    SameRoom(e1, e2);
    ReplyOneMore(w, e2, id, m);
    ReplyEvents(w, e2, id, m);
    var e3 := Reply(w, e2, id, m);
    var c1 := MessageCounted(c, m, json, at);
    NotesQuiet(w, e3, c1, m, at);
    NotesKeep(w, e3, c1, m, at);
    var (e4, d) := Notes(w, e3, c1, m, at);
    QuietShape(e3, e4, id);
    SayReports(e4, id, at, Heard(Marked(c, m), e1.number));
    var f := Say(e4, id, at, Heard(Marked(c, m), e1.number));
    QuietThenReport(e3, e4, f, id);
    QueuedThenSaid(e2, e3, f, id);
    NumberLeads(e, e1, e2, id);
    LedTwice(e, e2, f, id);
  }

  lemma QuietShape(e: Env, f: Env, id: nat)
    requires Quiet(e, f, id)
    ensures e.log.emitted <= f.log.emitted && f.log.cap == e.log.cap && f.trace == e.trace
  {
  }

  lemma QuietThenReport(e: Env, f: Env, g: Env, id: nat)
    requires Quiet(e, f, id) && f.log.emitted <= g.log.emitted && Reports(g.log.emitted[|f.log.emitted|..], id) <= 1
    ensures e.log.emitted <= g.log.emitted && Reports(g.log.emitted[|e.log.emitted|..], id) <= 1
  {
    var a, b := |e.log.emitted|, |f.log.emitted|;
    assert g.log.emitted[a..] == f.log.emitted[a..] + g.log.emitted[b..];
    ReportsConcat(f.log.emitted[a..], g.log.emitted[b..], id);
    NoReports(f.log.emitted[a..], id);
  }

  lemma NumberLeads(e: Env, e1: Env, e2: Env, id: nat)
    requires Led(e, e1, id) && e2 == e1.(number := e2.number)
    ensures Led(e, e2, id)
  {
    forall n | |e.log.emitted| <= n <= |e2.log.emitted|
      ensures LedAt(e, e2, id, n)
    {
      assert LedAt(e, e1, id, n);
    }
  }

  // --------------------------------------------------------------------------------------
  // A call
  // --------------------------------------------------------------------------------------

  lemma NothingLeads(e: Env, id: nat)
    ensures Led(e, e, id)
  {
    QuietLeads(e, e, id);
  }

  lemma DeliverLeads(w: World, e: Env, c: Conn, json: seq<Byte>, at: int)
    requires e.log.cap > 0 && !WritesFull(e) && AnswersFit(w.lib, e)
    ensures Led(e, Deliver(w, e, c, json, at).0, c.info.conn)
  {
    hide Refuse, Accept, DecodeMessage, Led, TextFits, WritesFull;
    match DecodeMessage(w.lib, json) {
      case None => RefuseLeads(w, e, c, BadJson, json, |json|, at);
      case Some(m) => AcceptLeads(w, e, c, json, m, at);
    }
  }

  lemma FrameByteLeads(w: World, e: Env, c: Conn, at: int)
    requires e.log.cap > 0 && c.scan < |c.rx| && AnswersFit(w.lib, e) && !WritesFull(e)
    ensures Led(e, FrameByte(w, e, c, at).0, c.info.conn)
  {
    hide Refuse, Deliver, TextFits, Led, WritesFull, Advance;
    NothingLeads(e, c.info.conn);
    var (g, step) := Advance(c.framer, c.rx[c.scan]);
    var c1 := c.(framer := g, scan := c.scan + 1);
    if step == Garbage {
      RefuseLeads(w, e, c, LeadingGarbage, c.rx[c.scan..], |c.rx| - c.scan, at);
    } else if step == Close {
      DeliverLeads(w, e, c1, c1.rx[..c1.scan], at);
    } else if c1.scan > e.cfg.maxMessage {
      RefuseLeads(w, e, c1, TooLarge, c1.rx[..c1.scan], |c1.rx|, at);
    }
  }

  lemma {:induction false} FramePendingLeads(w: World, e: Env, c: Conn, at: int)
    requires e.log.cap > 0 && c.scan <= |c.rx| && AnswersFit(w.lib, e) && ReplyReady(e, c)
    ensures var t := FramePending(w, e, c, at); Led(e, t.env, c.info.conn) && ReplyReady(t.env, t.conn)
    decreases Unscanned(c)
  {
    hide FrameByte, Advance, TextFits, Compact, Led, WritesFull, Answered;
    FramePendingReplies(w, e, c, at);
    NothingLeads(e, c.info.conn);
    if c.scan == |c.rx| {
    } else if !InMessage(c.framer) && IsWs(c.rx[c.scan]) {
      FramePendingLeads(w, e, Pass(c), at);
    } else if !InMessage(c.framer) && WritesFull(e) {
    } else {
      var d := if InMessage(c.framer) then c else Compact(c);
      CompactConn(c);
      FrameByteShrinks(w, e, d, at);
      FrameByteReplies(w, e, d, at);
      FrameByteLeads(w, e, d, at);
      FrameByteKept(w, e, d, at);
      var (e1, d1, end) := FrameByte(w, e, d, at);
      KeptFields(e, d, e1, d1);
      if end == None {
        FramePendingLeads(w, e1, d1, at);
        LedTwice(e, e1, FramePending(w, e1, d1, at).env, c.info.conn);
      }
    }
  }

  lemma CompactConn(c: Conn)
    requires c.scan <= |c.rx|
    ensures Compact(c).info == c.info && Compact(c).framer == c.framer
  {
  }

  lemma {:induction false} AbsorbLeads(w: World, e: Env, c: Conn, data: seq<Byte>, at: int)
    requires e.log.cap > 0 && c.scan <= |c.rx| && AnswersFit(w.lib, e) && ReplyReady(e, c)
    ensures Led(e, Absorb(w, e, c, data, at).0, c.info.conn)
    decreases |data|, |c.rx|
  {
    hide FramePending, Room, TextFits, Led, WritesFull, Kept;
    var take := if Room(e, c) < |data| then Room(e, c) else |data|;
    var c1 := Append(c, data[..take]);
    FramePendingKeeps(w, e, c1, at);
    FramePendingLeads(w, e, c1, at);
    FramePendingKept(w, e, c1, at);
    var t := FramePending(w, e, c1, at);
    KeptFields(e, c1, t.env, t.conn);
    if t.ending == Discarded {
      AbsorbLeads(w, t.env, Spoil(t.conn, |data| - take), [], at);
      LedTwice(e, t.env, Absorb(w, t.env, Spoil(t.conn, |data| - take), [], at).0, c.info.conn);
    } else if t.ending != Refused && take != |data| && take != 0 {
      AbsorbLeads(w, t.env, t.conn, data[take..], at);
      LedTwice(e, t.env, Absorb(w, t.env, t.conn, data[take..], at).0, c.info.conn);
    }
  }

  /**
   * In a call that comes between messages or with a slot free, at every moment at least as many
   * replies have been queued as messages and errors reported: no report is ever ahead of its reply.
   */
  lemma RepliesLead(w: World, e: Env, c: Conn, data: seq<Byte>, at: int)
    requires e.log.cap > 0 && c.scan <= |c.rx| && AnswersFit(w.lib, e) && ReplyReady(e, c)
    ensures Led(e, TakeBytes(w, e, c, data, at).0, c.info.conn)
  {
    hide Absorb, Say, TextFits, Led, Room, Kept;
    var c0 := c.(story := c.story.(offered := c.story.offered + data));
    AbsorbLeads(w, e, c0, data, at);
    AbsorbKept(w, e, c0, data, at);
    var (e1, d, rest, full) := Absorb(w, e, c0, data, at);
    KeptFields(e, c0, e1, d);
    if full {
      var a, b := Warning(WriteRingFull, |Append(d, rest).rx| % WORD), Warning(WriteRingFull, |rest| % WORD);
      QuietSay(e1, c.info.conn, at, a);
      QuietSay(e1, c.info.conn, at, b);
      LedTwice(e, e1, Say(e1, c.info.conn, at, a), c.info.conn);
      LedTwice(e, e1, Say(e1, c.info.conn, at, b), c.info.conn);
    }
  }
}
