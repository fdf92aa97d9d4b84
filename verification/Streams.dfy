/**
 * A byte stream through the receive buffer: however it is cut into calls, what is delivered is
 * what the framer cuts from it.
 */
module Streams {
  import opened Bytes
  import opened Message
  import opened Numbers
  import P = Protocol
  import opened Decode
  import opened Events
  import opened EventLog
  import opened Hub
  import opened Conns
  import opened Frame
  import opened Serving

  /** Nothing in the way of this cut: no garbage, no object too long, none that does not decode. */
  predicate Fits(lib: NumLib, max: nat, c: Cut) {
    && !c.bad && |c.open| <= max
    && forall i :: 0 <= i < |c.objects| ==> Deliverable(lib, max, c.objects[i])
  }

  /** The bound is tested behind the closing brace, so one byte more than `max` gets through. */
  predicate Deliverable(lib: NumLib, max: nat, o: seq<Byte>) {
    |o| <= max + 1 && DecodeMessage(lib, o).Some?
  }

  predicate FitsAt(lib: NumLib, max: nat, s: seq<Byte>, k: nat)
    requires k <= |s|
  {
    Fits(lib, max, CutBytes(NOTHING, s[..k]))
  }

  /** A stream that gives a server no reason to report an error, at no point of it. */
  ghost predicate Good(lib: NumLib, max: nat, s: seq<Byte>) {
    forall k :: 0 <= k <= |s| ==> FitsAt(lib, max, s, k)
  }

  lemma GoodPrefix(lib: NumLib, max: nat, a: seq<Byte>, b: seq<Byte>)
    requires Good(lib, max, a + b)
    ensures Good(lib, max, a)
  {
    hide Fits;
    forall k | 0 <= k <= |a|
      ensures FitsAt(lib, max, a, k)
    {
      assert FitsAt(lib, max, a + b, k);
      assert (a + b)[..k] == a[..k];
    }
  }

  lemma GoodSnoc(lib: NumLib, max: nat, s: seq<Byte>, b: Byte)
    requires Good(lib, max, s) && Fits(lib, max, CutBytes(NOTHING, s + [b]))
    ensures Good(lib, max, s + [b])
  {
    hide Fits;
    forall k | 0 <= k <= |s| + 1
      ensures FitsAt(lib, max, s + [b], k)
    {
      if k <= |s| {
        assert FitsAt(lib, max, s, k);
        assert (s + [b])[..k] == s[..k];
      } else {
        assert (s + [b])[..k] == s + [b];
      }
    }
  }

  lemma NotGood(lib: NumLib, max: nat, s: seq<Byte>, k: nat)
    requires k <= |s| && !Fits(lib, max, CutBytes(NOTHING, s[..k]))
    ensures !Good(lib, max, s)
  {
    hide Fits;
    assert !FitsAt(lib, max, s, k);
  }

  // --------------------------------------------------------------------------------------
  // The books
  // --------------------------------------------------------------------------------------

  /** What is still to be framed, a started object included. */
  function Pending(c: Conn): int {
    if InMessage(c.framer) then |c.rx| else Unscanned(c)
  }

  /** Every byte taken so far, under the head it was booked. */
  function Booked(c: Conn): int {
    c.story.blank + c.story.carried + c.story.refused + c.story.missing + Pending(c)
  }

  function Total(objects: seq<seq<Byte>>): nat {
    if objects == [] then 0 else Total(objects[..|objects| - 1]) + |objects[|objects| - 1]|
  }

  lemma {:induction false} TotalConcat(a: seq<seq<Byte>>, b: seq<seq<Byte>>)
    ensures Total(a + b) == Total(a) + Total(b)
    decreases |b|
  {
    if b == [] {
      assert a + b == a;
    } else {
      var n := |b| - 1;
      assert (a + b)[..|a + b| - 1] == a + b[..n];
      TotalConcat(a, b[..n]);
    }
  }

  /** What the objects decode to, in order. */
  function Decodings(lib: NumLib, objects: seq<seq<Byte>>): seq<Message> {
    if objects == [] then []
    else
      var n := |objects| - 1;
      match DecodeMessage(lib, objects[n])
      case None => Decodings(lib, objects[..n])
      case Some(m) => Decodings(lib, objects[..n]) + [m]
  }

  lemma {:induction false} DecodingsConcat(lib: NumLib, a: seq<seq<Byte>>, b: seq<seq<Byte>>)
    ensures Decodings(lib, a + b) == Decodings(lib, a) + Decodings(lib, b)
    decreases |b|
  {
    hide DecodeMessage;
    if b == [] {
      assert a + b == a;
    } else {
      var n := |b| - 1;
      assert (a + b)[..|a + b| - 1] == a + b[..n];
      DecodingsConcat(lib, a, b[..n]);
    }
  }

  lemma OneDecoding(lib: NumLib, o: seq<Byte>)
    requires DecodeMessage(lib, o).Some?
    ensures Decodings(lib, [o]) == [DecodeMessage(lib, o).value] && Total([o]) == |o|
  {
    hide DecodeMessage;
    assert [o][..0] == [] && Decodings(lib, []) == [];
  }

  // --------------------------------------------------------------------------------------
  // The buffer
  // --------------------------------------------------------------------------------------

  /** The bytes that the framer has been through since the buffer was last thrown away. */
  function Seen(c: Conn): seq<Byte>
    requires c.scan <= |c.rx| && Unscanned(c) <= |c.story.fed|
  {
    c.story.fed[..|c.story.fed| - Unscanned(c)]
  }

  /** What they have been cut into. */
  function Here(c: Conn): Cut
    requires c.scan <= |c.rx|
  {
    Cut(c.story.delivered, if InMessage(c.framer) then c.rx[..c.scan] else [], c.framer, false)
  }

  /** An object half received starts at 0; between objects only whitespace has been scanned. */
  ghost predicate Placed(max: nat, c: Conn)
    requires c.scan <= |c.rx|
  {
    if InMessage(c.framer) then
      c.scan <= max && CutBytes(NOTHING, c.rx[..c.scan]) == Cut([], c.rx[..c.scan], c.framer, false)
    else c.framer == RESET && AllWs(c.rx[..c.scan])
  }

  ghost predicate Framed(lib: NumLib, max: nat, c: Conn) {
    && c.scan <= |c.rx| && Unscanned(c) <= |c.story.fed|
    && Placed(max, c)
    && c.story.fed[|c.story.fed| - Unscanned(c)..] == c.rx[c.scan..]
    && CutBytes(NOTHING, Seen(c)) == Here(c)
    && Good(lib, max, Seen(c))
  }

  /** The buffer as a call leaves it: all scanned and at most a started object left, or all pending. */
  ghost predicate Resting(lib: NumLib, max: nat, c: Conn) {
    && Framed(lib, max, c)
    && |c.rx| <= max + 1
    && if InMessage(c.framer) then c.scan == |c.rx| else c.scan == 0
  }

  lemma EmptyIsFramed(lib: NumLib, max: nat, c: Conn)
    requires c.rx == [] && c.scan == 0 && c.framer == RESET && c.story.fed == [] && c.story.delivered == []
    ensures Resting(lib, max, c)
  {
    assert Seen(c) == [];
    forall k | 0 <= k <= |Seen(c)|
      ensures FitsAt(lib, max, Seen(c), k)
    {
      assert Seen(c)[..k] == [];
    }
  }

  /** One byte on: what has been seen, and its cut. */
  lemma SeenOn(lib: NumLib, max: nat, c: Conn)
    requires Framed(lib, max, c) && c.scan < |c.rx|
    ensures var n := |c.story.fed| - Unscanned(c);
            && c.story.fed[n] == c.rx[c.scan] && c.story.fed[..n + 1] == Seen(c) + [c.rx[c.scan]]
            && c.story.fed[n + 1..] == c.rx[c.scan + 1..]
            && CutBytes(NOTHING, c.story.fed[..n + 1]) == CutByte(Here(c), c.rx[c.scan])
  {
    hide Good, Placed, CutByte;
    var n := |c.story.fed| - Unscanned(c);
    assert c.story.fed[n..][0] == c.rx[c.scan..][0];
    assert c.story.fed[n + 1..] == c.story.fed[n..][1..];
    assert c.rx[c.scan + 1..] == c.rx[c.scan..][1..];
    CutSnoc(NOTHING, Seen(c), c.rx[c.scan]);
  }

  lemma WsFramed(lib: NumLib, max: nat, c: Conn)
    requires Framed(lib, max, c) && c.scan < |c.rx| && !InMessage(c.framer) && IsWs(c.rx[c.scan])
    ensures Framed(lib, max, Pass(c)) && Booked(Pass(c)) == Booked(c)
  {
    hide Fits;
    SeenOn(lib, max, c);
    var d := Pass(c);
    assert Seen(d) == Seen(c) + [c.rx[c.scan]];
    assert CutByte(Here(c), c.rx[c.scan]) == Here(c);
    assert Fits(lib, max, Here(c)) by { SeenFits(lib, max, c); }
    GoodSnoc(lib, max, Seen(c), c.rx[c.scan]);
    assert d.rx[..d.scan] == c.rx[..c.scan] + [c.rx[c.scan]];
  }

  lemma SeenFits(lib: NumLib, max: nat, c: Conn)
    requires Framed(lib, max, c)
    ensures Fits(lib, max, Here(c))
  {
    hide Fits, Placed;
    assert FitsAt(lib, max, Seen(c), |Seen(c)|);
    assert Seen(c)[..|Seen(c)|] == Seen(c);
  }

  lemma CompactFramed(lib: NumLib, max: nat, c: Conn)
    requires Framed(lib, max, c) && !InMessage(c.framer)
    ensures Framed(lib, max, Compact(c))
  {
    hide Good;
    var d := Compact(c);
    if c.scan != 0 {
      assert Unscanned(d) == Unscanned(c);
      assert d.rx[0..] == d.rx;
      assert Seen(d) == Seen(c);
    }
  }

  // --------------------------------------------------------------------------------------
  // One byte
  // --------------------------------------------------------------------------------------

  lemma RefuseStory(w: World, e: Env, c: Conn, reason: ErrorReason, snippet: seq<Byte>, discarded: nat, at: int)
    ensures var (f, d) := Refuse(w, e, c, reason, snippet, discarded, at);
            && d.story == c.story.(errors := c.story.errors + 1)
            && d.rx == c.rx && d.scan == c.scan && d.framer == c.framer
  {
    hide WireClient, QueueWrite, SayFailure;
  }

  lemma DeliverStory(w: World, e: Env, c: Conn, json: seq<Byte>, at: int)
    ensures var (f, d, ok) := Deliver(w, e, c, json, at);
            && ok == DecodeMessage(w.lib, json).Some?
            && d.story == (if ok then Delivering(c.story, json, DecodeMessage(w.lib, json).value)
                           else c.story.(errors := c.story.errors + 1))
            && d.rx == c.rx && d.scan == c.scan && d.framer == c.framer
  {
    hide DecodeMessage, WireClient, Reply, Say, Refuse, Notes;
    match DecodeMessage(w.lib, json) {
      case None => RefuseStory(w, e, c, BadJson, json, |json|, at);
      case Some(m) =>
        var e2 := Reply(w, WireClient(e, c.info.conn, json, at).(number := Inc32(WireClient(e, c.info.conn, json, at).number)), c.info.conn, m);
        NotesKeep(w, e2, MessageCounted(c, m, json, at), m, at);
    }
  }

  /** The connection after one byte, whatever the server around it did. */
  ghost predicate Stepped(lib: NumLib, max: nat, c: Conn, d: Conn, end: Option<Ending>) {
    if end == None then
      && Framed(lib, max, d)
      && (exists more: seq<seq<Byte>> :: Went(lib, c.story, d.story, more))
      && Booked(d) == Booked(c)
    else
      && !Good(lib, max, c.story.fed)
      && 0 <= c.scan < |c.rx| && !Fits(lib, max, CutByte(Here(c), c.rx[c.scan]))
      && d.rx == [] && d.scan == 0 && d.framer == RESET
      && d.story == c.story.(fed := [], delivered := [], refused := c.story.refused + |c.rx|, errors := c.story.errors + 1)
  }

  /** Nothing but `more` was delivered, and whitespace passed over. */
  predicate Went(lib: NumLib, a: Story, b: Story, more: seq<seq<Byte>>) {
    && b == a.(delivered := a.delivered + more, messages := a.messages + |more|, carried := a.carried + Total(more),
               heard := a.heard + Decodings(lib, more), blank := b.blank)
    && b.blank >= a.blank
  }

  lemma InsideFramed(lib: NumLib, max: nat, c: Conn)
    requires Framed(lib, max, c) && c.scan < |c.rx| && c.scan < max
    requires InMessage(c.framer) || c.scan == 0
    requires Advance(c.framer, c.rx[c.scan]).1 in {Open, Inside} && InMessage(Advance(c.framer, c.rx[c.scan]).0)
    ensures Framed(lib, max, c.(framer := Advance(c.framer, c.rx[c.scan]).0, scan := c.scan + 1))
  {
    hide Deliverable, Good;
    var b := c.rx[c.scan];
    SeenOn(lib, max, c);
    SeenFits(lib, max, c);
    var d := c.(framer := Advance(c.framer, b).0, scan := c.scan + 1);
    assert d.rx[..d.scan] == c.rx[..c.scan] + [b];
    assert Seen(d) == Seen(c) + [b];
    CutSnoc(NOTHING, c.rx[..c.scan], b);
    if !InMessage(c.framer) {
      assert c.rx[..c.scan] == [];
    }
    assert CutByte(Here(c), b) == Here(d);
    assert Fits(lib, max, Here(d));
    GoodSnoc(lib, max, Seen(c), b);
  }

  /** The closing byte of an object: what has been seen ends with the whole object. */
  lemma CloseCut(lib: NumLib, max: nat, c: Conn)
    requires Framed(lib, max, c) && c.scan < |c.rx| && Advance(c.framer, c.rx[c.scan]).1 == Close
    ensures Advance(c.framer, c.rx[c.scan]).0 == RESET && c.scan <= max
    ensures CutByte(Here(c), c.rx[c.scan]) == Cut(c.story.delivered + [c.rx[..c.scan + 1]], [], RESET, false)
  {
    hide Good, Fits;
    CutSane(NOTHING, c.rx[..c.scan]);
    assert c.rx[..c.scan + 1] == c.rx[..c.scan] + [c.rx[c.scan]];
  }

  lemma DeliveredFramed(lib: NumLib, max: nat, c: Conn, d: Conn)
    requires Framed(lib, max, c) && c.scan < |c.rx| && Advance(c.framer, c.rx[c.scan]).1 == Close
    requires DecodeMessage(lib, c.rx[..c.scan + 1]).Some?
    requires d.rx == c.rx[c.scan + 1..] && d.scan == 0 && d.framer == RESET
    requires Went(lib, c.story, d.story, [c.rx[..c.scan + 1]])
    ensures Framed(lib, max, d)
  {
    hide Good, DecodeMessage, Advance;
    var o := c.rx[..c.scan + 1];
    CloseCut(lib, max, c);
    SeenOn(lib, max, c);
    SeenFits(lib, max, c);
    assert d.rx[0..] == d.rx;
    assert Seen(d) == Seen(c) + [c.rx[c.scan]];
    assert Here(d) == Cut(c.story.delivered + [o], [], RESET, false);
    assert Deliverable(lib, max, o);
    assert Fits(lib, max, Here(d));
    GoodSnoc(lib, max, Seen(c), c.rx[c.scan]);
  }

  lemma FrameByteStepped(w: World, e: Env, c: Conn, at: int)
    requires Framed(w.lib, e.cfg.maxMessage, c) && c.scan < |c.rx| && e.cfg.maxMessage < DEPTH_WRAP
    requires InMessage(c.framer) || (c.scan == 0 && !IsWs(c.rx[0]))
    ensures var (f, d, end) := FrameByte(w, e, c, at); Stepped(w.lib, e.cfg.maxMessage, c, d, end)
  {
    hide Deliver, Refuse, Framed, Good, Advance, DecodeMessage, CutBytes, CutByte;
    var lib, max, b := w.lib, e.cfg.maxMessage, c.rx[c.scan];
    var n := |c.story.fed| - Unscanned(c);
    var (f, step) := Advance(c.framer, b);
    var c1 := c.(framer := f, scan := c.scan + 1);
    var (g, d, end) := FrameByte(w, e, c, at);
    SeenOn(lib, max, c) by { FramedFields(lib, max, c); }
    FramedFields(lib, max, c);
    if step == Garbage {
      RefuseStory(w, e, c, LeadingGarbage, c.rx[c.scan..], |c.rx| - c.scan, at);
      GarbageIsBad(lib, max, c);
      NotGood(lib, max, c.story.fed, n + 1);
    } else if step == Close {
      DeliverStory(w, e, c1, c1.rx[..c1.scan], at);
      CloseCut(lib, max, c);
      if DecodeMessage(lib, c.rx[..c.scan + 1]).Some? {
        OneDecoding(lib, c.rx[..c.scan + 1]);
        assert Went(lib, c.story, d.story, [c.rx[..c.scan + 1]]);
        DeliveredFramed(lib, max, c, d);
      } else {
        NotDeliverable(lib, max, c.story.delivered, c.rx[..c.scan + 1]);
        NotGood(lib, max, c.story.fed, n + 1);
      }
    } else if c1.scan > max {
      RefuseStory(w, e, c1, TooLarge, c1.rx[..c1.scan], |c1.rx|, at);
      LargeIsBad(lib, max, c);
      NotGood(lib, max, c.story.fed, n + 1);
    } else {
      DepthStays(lib, max, c);
      InsideFramed(lib, max, c);
      assert c.story.delivered + [] == c.story.delivered;
      assert Went(lib, c.story, d.story, []);
    }
  }

  lemma FramedFields(lib: NumLib, max: nat, c: Conn)
    requires Framed(lib, max, c)
    ensures c.scan <= |c.rx| && Unscanned(c) <= |c.story.fed|
    ensures InMessage(c.framer) ==> c.scan <= max
  {
  }

  lemma GarbageIsBad(lib: NumLib, max: nat, c: Conn)
    requires c.scan < |c.rx| && Advance(c.framer, c.rx[c.scan]).1 == Garbage
    ensures !Fits(lib, max, CutByte(Here(c), c.rx[c.scan]))
  {
  }

  lemma NotDeliverable(lib: NumLib, max: nat, done: seq<seq<Byte>>, o: seq<Byte>)
    requires DecodeMessage(lib, o) == None
    ensures !Fits(lib, max, Cut(done + [o], [], RESET, false))
  {
    hide DecodeMessage;
    var c := Cut(done + [o], [], RESET, false);
    assert c.objects[|done|] == o;
    assert !Deliverable(lib, max, o);
  }

  lemma LargeIsBad(lib: NumLib, max: nat, c: Conn)
    requires Framed(lib, max, c) && c.scan < |c.rx| && c.scan + 1 > max
    requires Advance(c.framer, c.rx[c.scan]).1 !in {Garbage, Close}
    requires InMessage(c.framer) || (c.scan == 0 && !IsWs(c.rx[0]))
    ensures !Fits(lib, max, CutByte(Here(c), c.rx[c.scan]))
  {
    hide Deliverable, Good;
  }

  /** An object within the bound is never nested so deep that the depth wraps. */
  lemma DepthStays(lib: NumLib, max: nat, c: Conn)
    requires Framed(lib, max, c) && c.scan < |c.rx| && c.scan < max < DEPTH_WRAP
    requires Advance(c.framer, c.rx[c.scan]).1 !in {Garbage, Close}
    requires InMessage(c.framer) || (c.scan == 0 && !IsWs(c.rx[0]))
    ensures InMessage(Advance(c.framer, c.rx[c.scan]).0) && Advance(c.framer, c.rx[c.scan]).1 in {Open, Inside}
  {
    hide Good;
    if InMessage(c.framer) {
      DepthBound(NOTHING, c.rx[..c.scan]);
    }
  }

  lemma {:induction false} DepthBound(c: Cut, s: seq<Byte>)
    requires c.state.depth + |s| < DEPTH_WRAP
    ensures CutBytes(c, s).state.depth <= c.state.depth + |s|
    decreases s
  {
    if s != [] {
      DepthBound(CutByte(c, s[0]), s[1..]);
    }
  }

  // --------------------------------------------------------------------------------------
  // The pending buffer
  // --------------------------------------------------------------------------------------

  /** The connection after framing. */
  ghost predicate Turned(lib: NumLib, max: nat, c: Conn, t: Turn) {
    if t.ending == Discarded then
      && !Good(lib, max, c.story.fed)
      && t.conn.rx == [] && t.conn.scan == 0 && t.conn.framer == RESET
      && t.conn.story.fed == [] && t.conn.story.delivered == []
      && t.conn.story.errors > c.story.errors && t.conn.story.missing == c.story.missing
      && t.conn.story.messages >= c.story.messages
      && t.conn.story.offered == c.story.offered
      && Booked(t.conn) == Booked(c)
    else
      && Framed(lib, max, t.conn)
      && Booked(t.conn) == Booked(c)
      && (exists more: seq<seq<Byte>> :: Went(lib, c.story, t.conn.story, more))
      && |t.conn.rx| <= |c.rx|
      && (t.ending == Drained ==>
            t.conn.scan == |t.conn.rx| && |t.conn.rx| <= max && (!InMessage(t.conn.framer) ==> t.conn.rx == []))
      && (t.ending == Refused ==> !InMessage(t.conn.framer) && t.conn.scan == 0)
  }

  lemma WentTwice(lib: NumLib, a: Story, b: Story, c: Story)
    requires (exists more :: Went(lib, a, b, more)) && (exists more :: Went(lib, b, c, more))
    ensures exists more :: Went(lib, a, c, more)
  {
    hide Total, Decodings;
    var m :| Went(lib, a, b, m);
    var n :| Went(lib, b, c, n);
    assert a.delivered + m + n == a.delivered + (m + n);
    TotalConcat(m, n);
    DecodingsConcat(lib, m, n);
    assert a.heard + Decodings(lib, m) + Decodings(lib, n) == a.heard + (Decodings(lib, m) + Decodings(lib, n));
    assert Went(lib, a, c, m + n);
  }

  lemma WentNowhere(lib: NumLib, a: Story)
    ensures exists more :: Went(lib, a, a, more)
  {
    assert a.delivered + [] == a.delivered;
    assert Went(lib, a, a, []);
  }

  lemma PassWent(lib: NumLib, a: Story, b: Story)
    requires b == a.(blank := a.blank + 1)
    ensures exists more :: Went(lib, a, b, more)
  {
    assert a.delivered + [] == a.delivered;
    assert Went(lib, a, b, []);
  }

  lemma {:induction false} FramePendingTurned(w: World, e: Env, c: Conn, at: int)
    requires e.log.cap > 0 && Framed(w.lib, e.cfg.maxMessage, c) && e.cfg.maxMessage < DEPTH_WRAP
    ensures Turned(w.lib, e.cfg.maxMessage, c, FramePending(w, e, c, at))
    decreases Unscanned(c)
  {
    hide FrameByte, Advance, Framed, Good, Went;
    var lib, max := w.lib, e.cfg.maxMessage;
    FramedFields(lib, max, c);
    if c.scan == |c.rx| {
      WentNowhere(lib, c.story);
      if !InMessage(c.framer) {
        CompactFramed(lib, max, c);
        CompactStory(c);
      }
    } else if !InMessage(c.framer) && IsWs(c.rx[c.scan]) {
      WsFramed(lib, max, c);
      PassWent(lib, c.story, Pass(c).story);
      FramePendingTurned(w, e, Pass(c), at);
      Relay(lib, max, c, Pass(c), FramePending(w, e, Pass(c), at));
    } else if !InMessage(c.framer) && WritesFull(e) {
      WentNowhere(lib, c.story);
      CompactFramed(lib, max, c);
      CompactStory(c);
    } else {
      var d := if InMessage(c.framer) then c else Compact(c);
      CompactStory(c);
      if !InMessage(c.framer) {
        CompactFramed(lib, max, c);
      }
      FrameByteShrinks(w, e, d, at);
      FrameByteStepped(w, e, d, at);
      FrameByteKeeps(w, e, d, at);
      FrameByteKept(w, e, d, at);
      var (e1, d1, end) := FrameByte(w, e, d, at);
      KeptFields(e, d, e1, d1);
      if end == None {
        FramedFields(lib, max, d1);
        FramePendingTurned(w, e1, d1, at);
        Relay(lib, max, c, d1, FramePending(w, e1, d1, at));
      }
    }
  }

  lemma CompactStory(c: Conn)
    requires c.scan <= |c.rx|
    ensures Compact(c).story == c.story && Compact(c).framer == c.framer && |Compact(c).rx| <= |c.rx|
    ensures !InMessage(c.framer) ==> Booked(Compact(c)) == Booked(c)
  {
  }

  lemma Relay(lib: NumLib, max: nat, c: Conn, d: Conn, t: Turn)
    requires Turned(lib, max, d, t) && (exists more: seq<seq<Byte>> :: Went(lib, c.story, d.story, more)) && |d.rx| <= |c.rx|
    requires Booked(d) == Booked(c)
    ensures Turned(lib, max, c, t)
  {
    hide Framed, Good;
    if t.ending != Discarded {
      WentTwice(lib, c.story, d.story, t.conn.story);
    }
  }

  // --------------------------------------------------------------------------------------
  // A call
  // --------------------------------------------------------------------------------------

  /**
   * The history of a connection, `data` being still to come. Every byte offered is booked, and
   * none as refused without an error. If none has gone missing then, as long as no error was
   * reported, all that was offered is what was taken; once one was, the stream had deserved it.
   */
  ghost predicate Told(lib: NumLib, max: nat, c: Conn, data: seq<Byte>) {
    && |c.story.offered| == Booked(c) + |data|
    && (c.story.errors == 0 ==> c.story.refused == 0)
    && (c.story.errors == 0 && c.story.missing == 0 ==>
          c.story.carried == Total(c.story.delivered) && c.story.heard == Decodings(lib, c.story.delivered))
    && (c.story.missing == 0 ==>
          if c.story.errors == 0 then c.story.offered == c.story.fed + data else !Good(lib, max, c.story.offered))
  }

  /** Error counts only grow, and nothing goes missing while bytes are absorbed. */
  predicate Onward(c: Conn, d: Conn) {
    && d.story.missing == c.story.missing && d.story.offered == c.story.offered
    && d.story.errors >= c.story.errors && d.story.messages >= c.story.messages
  }

  lemma AppendFramed(lib: NumLib, max: nat, c: Conn, more: seq<Byte>)
    requires Framed(lib, max, c)
    ensures Framed(lib, max, Append(c, more))
  {
    hide Good;
    var d := Append(c, more);
    assert d.rx[..d.scan] == c.rx[..c.scan];
    assert d.rx[d.scan..] == c.rx[c.scan..] + more;
    assert Seen(d) == Seen(c);
    assert d.story.fed[|d.story.fed| - Unscanned(d)..] == c.story.fed[|c.story.fed| - Unscanned(c)..] + more;
  }

  lemma TurnTold(lib: NumLib, max: nat, c: Conn, data: seq<Byte>, take: nat, t: Turn)
    requires take <= |data| && Told(lib, max, c, data)
    requires Turned(lib, max, Append(c, data[..take]), t)
    ensures if t.ending == Discarded then Told(lib, max, Spoil(t.conn, |data| - take), [])
            else Told(lib, max, t.conn, data[take..])
    ensures Onward(c, t.conn)
  {
    hide Good, Framed;
    var c1 := Append(c, data[..take]);
    assert c.story.fed + data == c1.story.fed + data[take..];
    if t.ending == Discarded {
      if c.story.missing == 0 && c.story.errors == 0 && Good(lib, max, c.story.offered) {
        GoodPrefix(lib, max, c1.story.fed, data[take..]);
      }
    } else {
      var more :| Went(lib, c1.story, t.conn.story, more);
      TotalConcat(c1.story.delivered, more);
      DecodingsConcat(lib, c1.story.delivered, more);
    }
  }

  lemma SpoiltIsFramed(lib: NumLib, max: nat, c: Conn, t: Turn, n: nat)
    requires Turned(lib, max, c, t) && t.ending == Discarded
    ensures Framed(lib, max, Spoil(t.conn, n)) && Spoil(t.conn, n).rx == [] && Onward(t.conn, Spoil(t.conn, n))
  {
    hide Good, Booked;
    EmptyIsFramed(lib, max, Spoil(t.conn, n));
  }

  /** How much of `data` a round of the loop takes. */
  function Taken(e: Env, c: Conn, data: seq<Byte>): (n: nat)
    ensures n <= |data| && n <= Room(e, c) && (n == |data| || n == Room(e, c))
  {
    if Room(e, c) < |data| then Room(e, c) else |data|
  }

  function RoundOf(w: World, e: Env, c: Conn, data: seq<Byte>, at: int): Turn
    requires c.scan <= |c.rx|
  {
    FramePending(w, e, Append(c, data[..Taken(e, c, data)]), at)
  }

  /** One round: bytes taken and framed. */
  lemma RoundTold(w: World, e: Env, c: Conn, data: seq<Byte>, at: int)
    requires e.log.cap > 0 && e.cfg.maxMessage < DEPTH_WRAP
    requires Framed(w.lib, e.cfg.maxMessage, c) && |c.rx| <= Capacity(e.cfg) && Told(w.lib, e.cfg.maxMessage, c, data)
    requires c.scan <= |c.rx|
    ensures var t, n := RoundOf(w, e, c, data, at), Taken(e, c, data);
            && Onward(c, t.conn) && t.env.cfg == e.cfg && t.env.log.cap > 0
            && (t.conn.story.errors > c.story.errors <==> t.ending == Discarded)
            && (t.ending != Discarded ==>
                  t.conn.story.messages - c.story.messages == |t.conn.story.delivered| - |c.story.delivered|)
            && |t.conn.rx| <= |c.rx| + n
            && if t.ending == Discarded then
                 var d := Spoil(t.conn, |data| - n);
                 && Onward(c, d) && t.conn.rx == [] && d.rx == [] && |c.rx| + n > 0
                 && Framed(w.lib, e.cfg.maxMessage, d) && Told(w.lib, e.cfg.maxMessage, d, [])
               else
                 && Framed(w.lib, e.cfg.maxMessage, t.conn) && Told(w.lib, e.cfg.maxMessage, t.conn, data[n..])
                 && (t.ending == Drained ==>
                       && t.conn.scan == |t.conn.rx| && |t.conn.rx| <= e.cfg.maxMessage
                       && (!InMessage(t.conn.framer) ==> t.conn.rx == []))
                 && (t.ending == Refused ==> !InMessage(t.conn.framer) && t.conn.scan == 0)
  {
    hide FramePending, Framed, Told, Good, Booked, Taken, Kept;
    var lib, max, n := w.lib, e.cfg.maxMessage, Taken(e, c, data);
    var c1 := Append(c, data[..n]);
    AppendFramed(lib, max, c, data[..n]);
    FramePendingKeeps(w, e, c1, at);
    FramePendingTurned(w, e, c1, at);
    FramePendingKept(w, e, c1, at);
    var t := FramePending(w, e, c1, at);
    KeptFields(e, c1, t.env, t.conn);
    TurnTold(lib, max, c, data, n, t);
    if t.ending == Discarded {
      SpoiltIsFramed(lib, max, c1, t, |data| - n);
    } else {
      WentMessages(lib, max, c1, t);
    }
  }

  lemma WentMessages(lib: NumLib, max: nat, c: Conn, t: Turn)
    requires Turned(lib, max, c, t) && t.ending != Discarded
    ensures t.conn.story.messages - c.story.messages == |t.conn.story.delivered| - |c.story.delivered|
  {
    hide Framed, Total, Decodings, Booked, Good;
    var more :| Went(lib, c.story, t.conn.story, more);
  }

  lemma {:induction false} AbsorbTold(w: World, e: Env, c: Conn, data: seq<Byte>, at: int)
    requires e.log.cap > 0 && e.cfg.maxMessage < DEPTH_WRAP
    requires Framed(w.lib, e.cfg.maxMessage, c) && |c.rx| <= Capacity(e.cfg) && Told(w.lib, e.cfg.maxMessage, c, data)
    ensures var (f, d, rest, full) := Absorb(w, e, c, data, at);
            && Framed(w.lib, e.cfg.maxMessage, d) && Onward(c, d) && |d.rx| <= Capacity(e.cfg)
            && Told(w.lib, e.cfg.maxMessage, d, rest)
            && (full ==> !InMessage(d.framer) && d.scan == 0)
            && (!full ==> d.scan == |d.rx| && |d.rx| <= e.cfg.maxMessage && (!InMessage(d.framer) ==> d.rx == []))
    decreases |data|, |c.rx|
  {
    hide FramePending, Framed, Told, Good, Append, Spoil;
    var lib, max := w.lib, e.cfg.maxMessage;
    FramedFields(lib, max, c);
    var n := Taken(e, c, data);
    RoundTold(w, e, c, data, at);
    var t := RoundOf(w, e, c, data, at);
    AbsorbRound(w, e, c, data, at);
    if t.ending == Discarded {
      AbsorbTold(w, t.env, Spoil(t.conn, |data| - n), [], at);
    } else if t.ending != Refused && n != |data| && n != 0 {
      AbsorbTold(w, t.env, t.conn, data[n..], at);
    }
  }

  /** A round that reports no error has been fed what it took; one that does starts afresh. */
  lemma RoundFed(w: World, e: Env, c: Conn, data: seq<Byte>, at: int)
    requires e.log.cap > 0 && e.cfg.maxMessage < DEPTH_WRAP && Framed(w.lib, e.cfg.maxMessage, c) && c.scan <= |c.rx|
    ensures var t, n := RoundOf(w, e, c, data, at), Taken(e, c, data);
            t.conn.story.fed == if t.ending == Discarded then [] else c.story.fed + data[..n]
  {
    hide FramePending, Framed, Good, Booked, Taken, Total, Decodings;
    var n := Taken(e, c, data);
    AppendFramed(w.lib, e.cfg.maxMessage, c, data[..n]);
    FramePendingTurned(w, e, Append(c, data[..n]), at);
  }

  lemma {:induction false} AbsorbFed(w: World, e: Env, c: Conn, data: seq<Byte>, at: int)
    requires e.log.cap > 0 && e.cfg.maxMessage < DEPTH_WRAP
    requires Framed(w.lib, e.cfg.maxMessage, c) && |c.rx| <= Capacity(e.cfg) && Told(w.lib, e.cfg.maxMessage, c, data)
    requires c.scan <= |c.rx|
    ensures var (f, d, rest, full) := Absorb(w, e, c, data, at);
            if d.story.errors > c.story.errors then d.story.fed == [] && rest == []
            else d.story.fed + rest == c.story.fed + data
    decreases |data|, |c.rx|
  {
    hide FramePending, Framed, Told, Good, Append, Absorb, RoundOf, Taken;
    var n, t := Taken(e, c, data), RoundOf(w, e, c, data, at);
    RoundTold(w, e, c, data, at);
    RoundFed(w, e, c, data, at);
    AbsorbRound(w, e, c, data, at);
    assert c.story.fed + data == c.story.fed + data[..n] + data[n..];
    if t.ending == Discarded {
      var d := Spoil(t.conn, |data| - n);
      AbsorbTold(w, t.env, d, [], at);
      AbsorbFed(w, t.env, d, [], at);
    } else if t.ending != Refused && n != |data| && n != 0 {
      AbsorbTold(w, t.env, t.conn, data[n..], at);
      AbsorbFed(w, t.env, t.conn, data[n..], at);
    }
  }

  /** The loop, a round at a time. */
  lemma AbsorbRound(w: World, e: Env, c: Conn, data: seq<Byte>, at: int)
    requires c.scan <= |c.rx|
    ensures var t, n := RoundOf(w, e, c, data, at), Taken(e, c, data);
            && t.conn.scan <= |t.conn.rx|
            && Absorb(w, e, c, data, at)
               == if t.ending == Discarded then Absorb(w, t.env, Spoil(t.conn, |data| - n), [], at)
                  else if t.ending == Refused then (t.env, t.conn, data[n..], true)
                  else if n == |data| || n == 0 then (t.env, t.conn, data[n..], false)
                  else Absorb(w, t.env, t.conn, data[n..], at)
  {
    hide FramePending;
    FramePendingKeeps(w, e, Append(c, data[..Taken(e, c, data)]), at);
  }
}
