/**
 * What the requests say that messages and errors are answered with, in the protocol's own codes
 * and words: one message, one error, and a whole call.
 */
module Answers {
  import opened Bytes
  import opened Message
  import opened Numbers
  import opened Decode
  import opened Encode
  import opened Events
  import opened EventLog
  import opened Hub
  import opened Conns
  import opened Frame
  import opened Sizes
  import opened Serving
  import opened Replies
  import Json
  import P = Protocol

  /** A response of a code and a text. */
  predicate Says(w: World, x: Write, code: int, text: seq<Byte>)
    requires P.CodeIsOurs(code)
  {
    x.data == ResponseText(w.lib, code, Some(text), None)
  }

  /** `x` answers `m`: an incomplete shot is refused if policy says so, and everything else acknowledged. */
  predicate Answers(w: World, policy: Policy, conn: nat, m: Message, x: Write) {
    && x.conn == conn
    && (x.kind == Failed <==> policy.rejectIncomplete && BallIncomplete in m.flags)
    && (x.kind == Ack <==> !policy.rejectIncomplete || BallIncomplete !in m.flags)
    && (x.kind == Failed ==> Says(w, x, 501, Ascii("Incomplete ball data")))
    && (x.kind == Ack ==> Says(w, x, 200, if policy.ackText != [] then policy.ackText else Ascii("Shot received successfully")))
  }

  /** The text fits the request it would be sent in. */
  predicate Sendable(text: seq<Byte>) {
    |Json.PrintItems(EscapeBytes(CStr(text)))| <= 230
  }

  /** The messages that get an answer: all of them, unless policy's acknowledgement is too long to be sent. */
  function Answerable(policy: Policy, ms: seq<Message>): seq<Message> {
    if ms == [] then []
    else
      (if policy.ackText == [] || Sendable(policy.ackText) || (policy.rejectIncomplete && BallIncomplete in ms[0].flags)
       then [ms[0]] else [])
      + Answerable(policy, ms[1..])
  }

  /** One request for each message, in order. */
  predicate AnswersAll(w: World, policy: Policy, conn: nat, ms: seq<Message>, xs: seq<Write>) {
    |xs| == |ms| && forall i :: 0 <= i < |ms| ==> Answers(w, policy, conn, ms[i], xs[i])
  }

  /** `x` answers an error. */
  predicate AnswersError(w: World, conn: nat, reason: ErrorReason, x: Write) {
    && x.conn == conn && x.kind == Failed
    && Says(w, x, 501, if reason == TooLarge then Ascii("Payload too large") else Ascii("Bad JSON data"))
  }

  // --------------------------------------------------------------------------------------
  // One message, one error
  // --------------------------------------------------------------------------------------

  /** `m`'s answer is put behind the requests waiting, if the ring has room and the answer fits. */
  lemma ReplyAnswers(w: World, e: Env, conn: nat, m: Message)
    ensures var f := Reply(w, e, conn, m);
            && e.writes <= f.writes && f.cfg == e.cfg
            && (WritesFull(e) ==> f.writes == e.writes)
            && (!WritesFull(e) ==> AnswersAll(w, e.cfg.policy, conn, Answerable(e.cfg.policy, [m]), f.writes[|e.writes|..]))
  {
    hide ResponseText, EncodeStatus, Json.PrintItems, EscapeBytes, CStr, Ascii;
    FixedTextsFit(w.lib);
    TextFitsExactly(w.lib, 200, e.cfg.policy.ackText);
    assert [m][1..] == [];
    assert Answerable(e.cfg.policy, [m][1..]) == [];
  }

  /** A message accepted: what is behind the requests that were waiting is its answer. */
  lemma AcceptAnswers(w: World, e: Env, c: Conn, json: seq<Byte>, m: Message, at: int)
    ensures var (f, d) := Accept(w, e, c, json, m, at);
            && e.writes <= f.writes && f.cfg == e.cfg
            && d.story.heard == c.story.heard + [m] && d.story.errors == c.story.errors && d.info.conn == c.info.conn
            && (WritesFull(e) ==> f.writes == e.writes)
            && (!WritesFull(e) ==>
                  AnswersAll(w, e.cfg.policy, c.info.conn, Answerable(e.cfg.policy, [m]), f.writes[|e.writes|..]))
  {
    hide Reply, WireClient, Notes, Say, AnswersAll, Answerable, Marked;
    var id := c.info.conn;
    WireClientWrites(e, id, json, at);
    var e1 := WireClient(e, id, json, at);
    var e2 := e1.(number := Inc32(e1.number));
    ReplyAnswers(w, e2, id, m);
    var e3 := Reply(w, e2, id, m);
    var c1 := MessageCounted(c, m, json, at);
    NotesWrites(w, e3, c1, m, at);
    NotesKeep(w, e3, c1, m, at);
    var (e4, d) := Notes(w, e3, c1, m, at);
    SayWrites(e4, id, at, Heard(Marked(c, m), e1.number));
  }

  /** An error reported: answered in its own words, for every one of its texts fits. */
  lemma RefuseAnswers(w: World, e: Env, c: Conn, reason: ErrorReason, snippet: seq<Byte>, discarded: nat, at: int)
    ensures var (f, d) := Refuse(w, e, c, reason, snippet, discarded, at);
            && e.writes <= f.writes && f.cfg == e.cfg
            && d.story == c.story.(errors := c.story.errors + 1) && d.info.conn == c.info.conn
            && (WritesFull(e) ==> f.writes == e.writes)
            && (!WritesFull(e) ==>
                  |f.writes| == |e.writes| + 1 && AnswersError(w, c.info.conn, reason, f.writes[|e.writes|]))
  {
    hide WireClient, SayFailure, ResponseText, EncodeStatus, Ascii;
    var id := c.info.conn;
    FixedTextsFit(w.lib);
    WireClientWrites(e, id, snippet, at);
    var e1 := WireClient(e, id, snippet, at);
    var d := ErrorCounted(c);
    var e2 := QueueWrite(w, e1, id, Failed, P.CODE_FAILURE, FailureText(reason), None);
    SayFailureWrites(e2, d, FailureOf(d, reason, snippet, discarded), at);
  }

  // --------------------------------------------------------------------------------------
  // A whole call
  // --------------------------------------------------------------------------------------

  /** The requests are one answer for each message that gets one, in order. */
  predicate Answered(w: World, policy: Policy, conn: nat, heard: seq<Message>, xs: seq<Write>) {
    AnswersAll(w, policy, conn, Answerable(policy, heard), xs)
  }

  /** One answer for each message, and behind them the answer to an error. */
  predicate EndsInError(w: World, policy: Policy, conn: nat, heard: seq<Message>, xs: seq<Write>) {
    && xs != [] && Answered(w, policy, conn, heard, xs[..|xs| - 1])
    && (AnswersError(w, conn, BadJson, xs[|xs| - 1]) || AnswersError(w, conn, TooLarge, xs[|xs| - 1]))
  }

  /**
   * From `e` and `c` to `f` and `d` the messages heard since were answered, each in its turn, and
   * so was an error if there was one, which was the last thing to happen.
   */
  ghost predicate Spoken(w: World, e: Env, c: Conn, f: Env, d: Conn) {
    && f.cfg == e.cfg && d.info.conn == c.info.conn
    && e.writes <= f.writes && c.story.heard <= d.story.heard
    && (if d.story.errors == c.story.errors
        then Answered(w, e.cfg.policy, c.info.conn, d.story.heard[|c.story.heard|..], f.writes[|e.writes|..])
        else && d.story.errors == c.story.errors + 1
             && EndsInError(w, e.cfg.policy, c.info.conn, d.story.heard[|c.story.heard|..], f.writes[|e.writes|..]))
  }

  lemma {:induction false} AnswerableConcat(policy: Policy, a: seq<Message>, b: seq<Message>)
    ensures Answerable(policy, a + b) == Answerable(policy, a) + Answerable(policy, b)
  {
    hide Sendable;
    if a == [] {
      assert a + b == b;
    } else {
      assert (a + b)[1..] == a[1..] + b;
      AnswerableConcat(policy, a[1..], b);
    }
  }

  lemma AnsweredConcat(w: World, policy: Policy, conn: nat, a: seq<Message>, b: seq<Message>, xs: seq<Write>, ys: seq<Write>)
    requires Answered(w, policy, conn, a, xs)
    ensures Answered(w, policy, conn, b, ys) ==> Answered(w, policy, conn, a + b, xs + ys)
    ensures EndsInError(w, policy, conn, b, ys) ==> EndsInError(w, policy, conn, a + b, xs + ys)
  {
    hide Answerable, Answers, AnswersError;
    AnswerableConcat(policy, a, b);
    if ys != [] {
      assert (xs + ys)[..|xs + ys| - 1] == xs + ys[..|ys| - 1];
      assert (xs + ys)[|xs + ys| - 1] == ys[|ys| - 1];
    }
  }

  lemma SpokenTwice(w: World, e: Env, c: Conn, f: Env, d: Conn, g: Env, h: Conn)
    requires Spoken(w, e, c, f, d) && d.story.errors == c.story.errors && Spoken(w, f, d, g, h)
    ensures Spoken(w, e, c, g, h)
  {
    hide Answered, EndsInError;
    var a, b := d.story.heard[|c.story.heard|..], h.story.heard[|d.story.heard|..];
    var xs, ys := f.writes[|e.writes|..], g.writes[|f.writes|..];
    assert h.story.heard[|c.story.heard|..] == a + b;
    assert g.writes[|e.writes|..] == xs + ys;
    AnsweredConcat(w, e.cfg.policy, c.info.conn, a, b, xs, ys);
  }

  lemma SilentSpoken(w: World, e: Env, c: Conn, f: Env, d: Conn)
    requires f.cfg == e.cfg && f.writes == e.writes && d.info.conn == c.info.conn
    requires d.story.heard == c.story.heard && d.story.errors == c.story.errors
    ensures Spoken(w, e, c, f, d)
  {
    assert f.writes[|e.writes|..] == [] && d.story.heard[|c.story.heard|..] == [];
  }

  /** The ring being full, nothing is queued. */
  predicate Mute(e: Env, f: Env) {
    WritesFull(e) ==> f.writes == e.writes && f.cfg == e.cfg
  }

  lemma DeliverSpoken(w: World, e: Env, c: Conn, json: seq<Byte>, at: int)
    ensures var (f, d, ok) := Deliver(w, e, c, json, at);
            && Mute(e, f) && (!WritesFull(e) ==> Spoken(w, e, c, f, d))
            && (ok <==> d.story.errors == c.story.errors)
  {
    hide Accept, Refuse, DecodeMessage, Answerable, Answers, AnswersError;
    match DecodeMessage(w.lib, json) {
      case None =>
        RefuseAnswers(w, e, c, BadJson, json, |json|, at);
        var (f, d) := Refuse(w, e, c, BadJson, json, |json|, at);
        ErrorSpoken(w, e, c, f, d, BadJson);
      case Some(m) =>
        AcceptAnswers(w, e, c, json, m, at);
        var (f, d) := Accept(w, e, c, json, m, at);
        assert d.story.heard[|c.story.heard|..] == [m];
    }
  }

  lemma ErrorSpoken(w: World, e: Env, c: Conn, f: Env, d: Conn, reason: ErrorReason)
    requires f.cfg == e.cfg && d.info.conn == c.info.conn && d.story.heard == c.story.heard && d.story.errors == c.story.errors + 1
    requires e.writes <= f.writes
    requires !WritesFull(e) ==> |f.writes| == |e.writes| + 1 && AnswersError(w, c.info.conn, reason, f.writes[|e.writes|])
    ensures !WritesFull(e) ==> Spoken(w, e, c, f, d)
  {
    hide Says;
    var xs := f.writes[|e.writes|..];
    assert d.story.heard[|c.story.heard|..] == [];
    if !WritesFull(e) {
      assert xs[..0] == [] && xs[0] == f.writes[|e.writes|];
    }
  }

  lemma RefuseSpoken(w: World, e: Env, c: Conn, reason: ErrorReason, snippet: seq<Byte>, discarded: nat, at: int)
    ensures var (f, d) := Refuse(w, e, c, reason, snippet, discarded, at);
            && Mute(e, f) && (!WritesFull(e) ==> Spoken(w, e, c, f, d))
  {
    hide Refuse, Spoken, AnswersError;
    RefuseAnswers(w, e, c, reason, snippet, discarded, at);
    var (f, d) := Refuse(w, e, c, reason, snippet, discarded, at);
    ErrorSpoken(w, e, c, f, d, reason);
  }

  /** The buffer and the framer have no part in it. */
  predicate SameTold(c: Conn, d: Conn) {
    d.info.conn == c.info.conn && d.story.heard == c.story.heard && d.story.errors == c.story.errors
  }

  lemma CompactTold(c: Conn)
    requires c.scan <= |c.rx|
    ensures SameTold(c, Compact(c)) && Compact(c).framer == c.framer
  {
  }

  lemma SpokenAlike(w: World, e: Env, c: Conn, f: Env, d: Conn, c1: Conn, d1: Conn)
    requires Spoken(w, e, c, f, d) && SameTold(c, c1) && SameTold(d, d1)
    ensures Spoken(w, e, c1, f, d1)
  {
  }

  lemma FrameByteSpoken(w: World, e: Env, c: Conn, at: int)
    requires c.scan < |c.rx| && (InMessage(c.framer) || !WritesFull(e))
    ensures var (f, d, end) := FrameByte(w, e, c, at);
            && Mute(e, f) && (!WritesFull(e) ==> Spoken(w, e, c, f, d))
            && (!WritesFull(e) && end == None ==> d.story.errors == c.story.errors && ReplyReady(f, d))
            && (WritesFull(e) && end == None && !InMessage(c.framer) ==> !InMessage(d.framer))
  {
    hide Refuse, Deliver, Compact, Spoken;
    var (g, step) := Advance(c.framer, c.rx[c.scan]);
    var c1 := c.(framer := g, scan := c.scan + 1);
    var (f, d, end) := FrameByte(w, e, c, at);
    if step == Garbage {
      RefuseSpoken(w, e, c, LeadingGarbage, c.rx[c.scan..], |c.rx| - c.scan, at);
      var (f1, d1) := Refuse(w, e, c, LeadingGarbage, c.rx[c.scan..], |c.rx| - c.scan, at);
      if !WritesFull(e) {
        SpokenAlike(w, e, c, f1, d1, c, d);
      }
    } else if step == Close {
      DeliverSpoken(w, e, c1, c1.rx[..c1.scan], at);
      DeliverKeeps(w, e, c1, c1.rx[..c1.scan], at);
      var (f1, d1, ok) := Deliver(w, e, c1, c1.rx[..c1.scan], at);
      CompactTold(d1);
      if !WritesFull(e) {
        SpokenAlike(w, e, c1, f1, d1, c, d);
      }
    } else if c1.scan > e.cfg.maxMessage {
      RefuseSpoken(w, e, c1, TooLarge, c1.rx[..c1.scan], |c1.rx|, at);
      var (f1, d1) := Refuse(w, e, c1, TooLarge, c1.rx[..c1.scan], |c1.rx|, at);
      if !WritesFull(e) {
        SpokenAlike(w, e, c1, f1, d1, c, d);
      }
    } else {
      SilentSpoken(w, e, c, e, c1);
    }
  }

  lemma {:induction false} FramePendingSpoken(w: World, e: Env, c: Conn, at: int)
    requires c.scan <= |c.rx|
    ensures var t := FramePending(w, e, c, at);
            && Mute(e, t.env)
            && (ReplyReady(e, c) ==> Spoken(w, e, c, t.env, t.conn))
            && (ReplyReady(e, c) && t.ending != Discarded ==>
                  t.conn.story.errors == c.story.errors && ReplyReady(t.env, t.conn))
    decreases Unscanned(c)
  {
    hide FrameByte, Advance, Compact, Spoken;
    var t := FramePending(w, e, c, at);
    CompactTold(c);
    if c.scan == |c.rx| {
      SilentSpoken(w, e, c, e, t.conn);
    } else if !InMessage(c.framer) && IsWs(c.rx[c.scan]) {
      FramePendingSpoken(w, e, Pass(c), at);
      if ReplyReady(e, c) {
        SpokenAlike(w, e, Pass(c), t.env, t.conn, c, t.conn);
      }
    } else if !InMessage(c.framer) && WritesFull(e) {
      SilentSpoken(w, e, c, e, t.conn);
    } else {
      var d := if InMessage(c.framer) then c else Compact(c);
      FrameByteShrinks(w, e, d, at);
      FrameByteKeeps(w, e, d, at);
      FrameByteSpoken(w, e, d, at);
      var (e1, d1, end) := FrameByte(w, e, d, at);
      if end == None {
        FramePendingSpoken(w, e1, d1, at);
      }
      if ReplyReady(e, c) {
        if end == None {
          SpokenTwice(w, e, d, e1, d1, t.env, t.conn);
        }
        SpokenAlike(w, e, d, t.env, t.conn, c, t.conn);
      }
    }
  }

  /** Behind an error nothing is left to do. */
  lemma AbsorbNothing(w: World, e: Env, c: Conn, at: int)
    requires c.rx == [] && c.scan == 0
    ensures var (f, d, rest, full) := Absorb(w, e, c, [], at); f == e && SameTold(c, d) && rest == [] && !full
  {
    hide FrameByte;
    assert c.rx + [] == c.rx;
    assert Append(c, []).rx == [];
  }

  lemma {:induction false} AbsorbSpoken(w: World, e: Env, c: Conn, data: seq<Byte>, at: int)
    requires c.scan <= |c.rx|
    ensures var (f, d, rest, full) := Absorb(w, e, c, data, at);
            && Mute(e, f) && (ReplyReady(e, c) ==> Spoken(w, e, c, f, d))
    decreases |data|, |c.rx|
  {
    hide FramePending, Room, Spoken;
    var take := if Room(e, c) < |data| then Room(e, c) else |data|;
    var c1 := Append(c, data[..take]);
    FramePendingKeeps(w, e, c1, at);
    FramePendingSpoken(w, e, c1, at);
    var t := FramePending(w, e, c1, at);
    var (f, d, rest, full) := Absorb(w, e, c, data, at);
    if t.ending == Discarded {
      AbsorbNothing(w, t.env, Spoil(t.conn, |data| - take), at);
      if ReplyReady(e, c) {
        SpokenAlike(w, e, c1, t.env, t.conn, c, d);
      }
    } else if t.ending != Refused && take != |data| && take != 0 {
      AbsorbSpoken(w, t.env, t.conn, data[take..], at);
      if ReplyReady(e, c) {
        SpokenTwice(w, e, c1, t.env, t.conn, f, d);
        SpokenAlike(w, e, c1, f, d, c, d);
      }
    } else if ReplyReady(e, c) {
      SpokenAlike(w, e, c1, t.env, t.conn, c, t.conn);
    }
  }

  /**
   * The ring full and bytes not taken: they are kept if there is room for all of them, else they and
   * all that was pending are gone; and a warning says how many are kept, or how many did not go in.
   */
  lemma RetainSays(e: Env, c: Conn, conn: nat, rest: seq<Byte>, at: int)
    requires e.log.cap > 0
    ensures var (f, d) := Retain(e, c, conn, rest, at);
            var kept := rest == [] || |c.rx| + |rest| <= e.cfg.maxMessage + 1;
            && e.log.emitted < f.log.emitted
            && f.log.emitted[|e.log.emitted|].conn == conn
            && f.log.emitted[|e.log.emitted|].body
               == Warning(WriteRingFull, (if kept then |c.rx| + |rest| else |rest|) % 0x1_0000_0000)
            && d.rx == (if kept then c.rx + rest else [])
            && d.story.missing == c.story.missing + if kept then 0 else |c.rx| + |rest|
  {
    hide Emit;
    SayEvents(e, conn, at, Warning(WriteRingFull, |c.rx + rest| % WORD));
    SayEvents(e, conn, at, Warning(WriteRingFull, |rest| % WORD));
  }

  /**
   * A call with a slot free, if a message was being received: behind the requests that were waiting
   * come, in order, one answer for each message heard - Failed, 501 and "Incomplete ball data" if
   * policy rejects incomplete shots and this is one, else Ack, 200 and policy's text or the standard
   * one - and, if an error was reported, the answer to that. With the ring full nothing is queued.
   */
  lemma CallAnswers(w: World, e: Env, c: Conn, data: seq<Byte>, at: int)
    requires c.scan <= |c.rx|
    ensures var (f, d, status) := TakeBytes(w, e, c, data, at);
            if !ReplyReady(e, c) then f.writes == e.writes
            else
              && e.writes <= f.writes && c.story.heard <= d.story.heard
              && var heard, xs := d.story.heard[|c.story.heard|..], f.writes[|e.writes|..];
                 && c.story.errors <= d.story.errors <= c.story.errors + 1
                 && (d.story.errors == c.story.errors ==> Answered(w, e.cfg.policy, c.info.conn, heard, xs))
                 && (d.story.errors > c.story.errors ==> EndsInError(w, e.cfg.policy, c.info.conn, heard, xs))
  {
    hide Absorb, Say, Room, Answered, EndsInError;
    var c0 := c.(story := c.story.(offered := c.story.offered + data));
    AbsorbSpoken(w, e, c0, data, at);
    var (e1, d, rest, full) := Absorb(w, e, c0, data, at);
    SayWrites(e1, c.info.conn, at, Warning(WriteRingFull, |Append(d, rest).rx| % WORD));
    SayWrites(e1, c.info.conn, at, Warning(WriteRingFull, |rest| % WORD));
  }
}
