/**
 * What a call will make of the bytes that come, told beforehand: from the stream, from where the
 * framer stands in it, and from how many writes are waiting.
 */
module Fates {
  import opened Bytes
  import opened Numbers
  import opened Message
  import opened Decode
  import opened Events
  import opened EventLog
  import opened Hub
  import opened Conns
  import opened Frame
  import opened Sizes
  import opened Serving
  import opened Streams
  import opened Replies
  import P = Protocol

  /** All of it framed; an error in it; or a message begun at `at` with the write ring full. */
  datatype Fate = Through | Faulty | Blocked(at: nat)

  function Later(f: Fate, n: nat): Fate {
    match f
    case Blocked(at) => Blocked(at + n)
    case _ => f
  }

  /** How many writes are waiting once `json`, delivered behind `n` others, is answered. */
  function Waiting(lib: NumLib, cfg: Config, n: nat, json: seq<Byte>): nat {
    match DecodeMessage(lib, json)
    case None => n
    case Some(m) =>
      if n < cfg.writeRing && (Rejected(cfg, m) || TextFits(lib, P.CODE_SHOT_RECEIVED, AckText(cfg))) then n + 1 else n
  }

  /** The cut has moved on by a byte; if that completed an object, it has been answered. */
  function Onwards(lib: NumLib, cfg: Config, n: nat, c: Cut, d: Cut): nat {
    if |d.objects| > |c.objects| then Waiting(lib, cfg, n, d.objects[|d.objects| - 1]) else n
  }

  /** A slot is asked for before the first byte of a message. */
  predicate Stops(cfg: Config, n: nat, c: Cut, b: Byte) {
    !InMessage(c.state) && !IsWs(b) && n >= cfg.writeRing
  }

  /** `n` writes are waiting and `c` is what has been cut so far; `s` comes next. */
  function FateOf(lib: NumLib, cfg: Config, n: nat, c: Cut, s: seq<Byte>): (f: Fate)
    ensures f.Blocked? ==> f.at < |s|
    decreases |s|
  {
    if s == [] then Through
    else if Stops(cfg, n, c, s[0]) then Blocked(0)
    else
      var d := CutByte(c, s[0]);
      if Fits(lib, cfg.maxMessage, d) then Later(FateOf(lib, cfg, Onwards(lib, cfg, n, c, d), d, s[1..]), 1) else Faulty
  }

  /** The writes waiting once all of `s` is framed. */
  function WaitingAfter(lib: NumLib, cfg: Config, n: nat, c: Cut, s: seq<Byte>): nat
    decreases |s|
  {
    if s == [] then n
    else var d := CutByte(c, s[0]); WaitingAfter(lib, cfg, Onwards(lib, cfg, n, c, d), d, s[1..])
  }

  /** A stream told in two pieces. */
  lemma {:induction false} FateConcat(lib: NumLib, cfg: Config, n: nat, c: Cut, a: seq<Byte>, b: seq<Byte>)
    ensures FateOf(lib, cfg, n, c, a + b)
         == if FateOf(lib, cfg, n, c, a) != Through then FateOf(lib, cfg, n, c, a)
            else Later(FateOf(lib, cfg, WaitingAfter(lib, cfg, n, c, a), CutBytes(c, a), b), |a|)
    decreases |a|
  {
    hide Fits, CutByte, Onwards, Stops;
    if a == [] {
      assert a + b == b;
    } else {
      var d := CutByte(c, a[0]);
      assert (a + b)[0] == a[0] && (a + b)[1..] == a[1..] + b;
      FateConcat(lib, cfg, Onwards(lib, cfg, n, c, d), d, a[1..], b);
    }
  }

  lemma {:induction false} WaitingConcat(lib: NumLib, cfg: Config, n: nat, c: Cut, a: seq<Byte>, b: seq<Byte>)
    ensures WaitingAfter(lib, cfg, n, c, a + b)
         == WaitingAfter(lib, cfg, WaitingAfter(lib, cfg, n, c, a), CutBytes(c, a), b)
    decreases |a|
  {
    hide CutByte, Onwards;
    if a == [] {
      assert a + b == b;
    } else {
      var d := CutByte(c, a[0]);
      assert (a + b)[0] == a[0] && (a + b)[1..] == a[1..] + b;
      WaitingConcat(lib, cfg, Onwards(lib, cfg, n, c, d), d, a[1..], b);
    }
  }

  // --------------------------------------------------------------------------------------
  // What each fate means
  // --------------------------------------------------------------------------------------

  /** The byte at `k` begins a message, and the ring is full by then. */
  predicate StopsAt(lib: NumLib, cfg: Config, n: nat, c: Cut, s: seq<Byte>, k: nat)
    requires k < |s|
  {
    Stops(cfg, WaitingAfter(lib, cfg, n, c, s[..k]), CutBytes(c, s[..k]), s[k])
  }

  /** No error up to and with the byte at `k`. */
  predicate FitsWith(lib: NumLib, cfg: Config, c: Cut, s: seq<Byte>, k: nat)
    requires k < |s|
  {
    Fits(lib, cfg.maxMessage, CutBytes(c, s[..k + 1]))
  }

  predicate PassedAt(lib: NumLib, cfg: Config, n: nat, c: Cut, s: seq<Byte>, k: nat)
    requires k < |s|
  {
    !StopsAt(lib, cfg, n, c, s, k) && FitsWith(lib, cfg, c, s, k)
  }

  lemma FirstByteOn(lib: NumLib, cfg: Config, n: nat, c: Cut, s: seq<Byte>, k: nat)
    requires s != [] && k < |s|
    ensures var d := CutByte(c, s[0]);
            var m := Onwards(lib, cfg, n, c, d);
            if k == 0 then
              (StopsAt(lib, cfg, n, c, s, 0) <==> Stops(cfg, n, c, s[0])) && (FitsWith(lib, cfg, c, s, 0) <==> Fits(lib, cfg.maxMessage, d))
            else
              && (StopsAt(lib, cfg, n, c, s, k) <==> StopsAt(lib, cfg, m, d, s[1..], k - 1))
              && (FitsWith(lib, cfg, c, s, k) <==> FitsWith(lib, cfg, d, s[1..], k - 1))
  {
    hide Fits, CutByte, Onwards, Stops;
    assert s[..k + 1][0] == s[0] && s[..k + 1][1..] == s[1..][..k];
    if k == 0 {
      assert s[..0] == [] && s[..1][1..] == [];
      assert CutBytes(c, s[..1]) == CutBytes(CutByte(c, s[0]), []);
    } else {
      assert s[..k][0] == s[0] && s[..k][1..] == s[1..][..k - 1];
    }
  }

  /** Blocked at the first message that finds the ring full, if no error comes before it. */
  lemma {:induction false} BlockedExactly(lib: NumLib, cfg: Config, n: nat, c: Cut, s: seq<Byte>, p: nat)
    requires p < |s|
    ensures FateOf(lib, cfg, n, c, s) == Blocked(p)
       <==> StopsAt(lib, cfg, n, c, s, p) && forall k :: 0 <= k < p ==> PassedAt(lib, cfg, n, c, s, k)
    decreases p
  {
    hide Fits, CutByte, Onwards, Stops, StopsAt, FitsWith;
    var d := CutByte(c, s[0]);
    var m := Onwards(lib, cfg, n, c, d);
    FirstByteOn(lib, cfg, n, c, s, 0);
    if p > 0 {
      BlockedExactly(lib, cfg, m, d, s[1..], p - 1);
      FirstByteOn(lib, cfg, n, c, s, p);
      forall k | 1 <= k < p
        ensures PassedAt(lib, cfg, n, c, s, k) == PassedAt(lib, cfg, m, d, s[1..], k - 1)
      {
        FirstByteOn(lib, cfg, n, c, s, k);
      }
      AllPassed(lib, cfg, n, c, s, p);
    }
  }

  /** Passing from the first byte on, or the first byte and then the others. */
  lemma AllPassed(lib: NumLib, cfg: Config, n: nat, c: Cut, s: seq<Byte>, p: nat)
    requires 0 < p <= |s|
    ensures var d := CutByte(c, s[0]);
            var m := Onwards(lib, cfg, n, c, d);
            (forall k :: 0 <= k < p ==> PassedAt(lib, cfg, n, c, s, k))
            <==> PassedAt(lib, cfg, n, c, s, 0) && forall k :: 0 <= k < p - 1 ==> PassedAt(lib, cfg, m, d, s[1..], k)
  {
    hide Fits, CutByte, Onwards, StopsAt, FitsWith, PassedAt;
    var d := CutByte(c, s[0]);
    var m := Onwards(lib, cfg, n, c, d);
    forall k | 1 <= k < p
      ensures PassedAt(lib, cfg, n, c, s, k) == PassedAt(lib, cfg, m, d, s[1..], k - 1)
    {
      OneLater(lib, cfg, n, c, s, k);
    }
    if forall k :: 0 <= k < p ==> PassedAt(lib, cfg, n, c, s, k) {
      forall k | 0 <= k < p - 1
        ensures PassedAt(lib, cfg, m, d, s[1..], k)
      {
        assert PassedAt(lib, cfg, n, c, s, k + 1);
      }
    }
  }

  lemma OneLater(lib: NumLib, cfg: Config, n: nat, c: Cut, s: seq<Byte>, k: nat)
    requires 1 <= k < |s|
    ensures var d := CutByte(c, s[0]);
            PassedAt(lib, cfg, n, c, s, k) == PassedAt(lib, cfg, Onwards(lib, cfg, n, c, d), d, s[1..], k - 1)
  {
    hide Fits, CutByte, Onwards, StopsAt, FitsWith;
    FirstByteOn(lib, cfg, n, c, s, k);
  }

  /** Through when no message finds the ring full and nothing is an error. */
  lemma {:induction false} ThroughExactly(lib: NumLib, cfg: Config, n: nat, c: Cut, s: seq<Byte>)
    ensures FateOf(lib, cfg, n, c, s) == Through <==> forall k :: 0 <= k < |s| ==> PassedAt(lib, cfg, n, c, s, k)
    decreases |s|
  {
    hide Fits, CutByte, Onwards, Stops, StopsAt, FitsWith;
    if s != [] {
      var d := CutByte(c, s[0]);
      FirstByteOn(lib, cfg, n, c, s, 0);
      ThroughExactly(lib, cfg, Onwards(lib, cfg, n, c, d), d, s[1..]);
      AllPassed(lib, cfg, n, c, s, |s|);
    }
  }

  // --------------------------------------------------------------------------------------
  // One byte
  // --------------------------------------------------------------------------------------

  lemma ReplyWaits(w: World, e: Env, conn: nat, m: Message)
    ensures |Reply(w, e, conn, m).writes|
         == if |e.writes| < e.cfg.writeRing && (Rejected(e.cfg, m) || TextFits(w.lib, P.CODE_SHOT_RECEIVED, AckText(e.cfg)))
            then |e.writes| + 1 else |e.writes|
    ensures Reply(w, e, conn, m).cfg == e.cfg
  {
    hide Encode.EncodeStatus, Encode.ResponseText;
    FixedTextsFit(w.lib);
  }

  lemma AcceptWaits(w: World, e: Env, c: Conn, json: seq<Byte>, m: Message, at: int)
    requires DecodeMessage(w.lib, json) == Some(m)
    ensures var f := Accept(w, e, c, json, m, at).0;
            |f.writes| == Waiting(w.lib, e.cfg, |e.writes|, json) && f.cfg == e.cfg
  {
    hide Reply, WireClient, Notes, Say, TextFits, DecodeMessage, Rejected;
    var id := c.info.conn;
    WireClientWrites(e, id, json, at);
    var e1 := WireClient(e, id, json, at);
    var e2 := e1.(number := Inc32(e1.number));
    ReplyWaits(w, e2, id, m);
    var e3 := Reply(w, e2, id, m);
    var c1 := MessageCounted(c, m, json, at);
    NotesWrites(w, e3, c1, m, at);
    var (e4, d) := Notes(w, e3, c1, m, at);
    SayWrites(e4, id, at, Heard(Marked(c, m), e1.number));
  }

  /** The byte at hand, in the buffer and in the stream. */
  lemma FrameByteFate(w: World, e: Env, c: Conn, at: int)
    requires Framed(w.lib, e.cfg.maxMessage, c) && c.scan < |c.rx| && e.cfg.maxMessage < DEPTH_WRAP
    requires InMessage(c.framer) || (c.scan == 0 && !IsWs(c.rx[0]))
    ensures var (f, d, end) := FrameByte(w, e, c, at);
            var next := CutByte(Here(c), c.rx[c.scan]);
            && (end == None <==> Fits(w.lib, e.cfg.maxMessage, next))
            && (end == None ==>
                  && d.scan <= |d.rx| && Here(d) == next && d.rx[d.scan..] == c.rx[c.scan + 1..]
                  && f.cfg == e.cfg && |f.writes| == Onwards(w.lib, e.cfg, |e.writes|, Here(c), next))
  {
    hide FrameByte, Framed, Good, Fits, CutByte, CutBytes, Here, Onwards, Went, Booked;
    var lib, max := w.lib, e.cfg.maxMessage;
    FrameByteStepped(w, e, c, at);
    FrameByteShrinks(w, e, c, at);
    var (f, d, end) := FrameByte(w, e, c, at);
    if end == None {
      var more :| Went(lib, c.story, d.story, more);
      SameFed(lib, c.story, d.story, more);
      OneOn(lib, max, c, d);
      SeenFits(lib, max, d);
      FrameByteWaits(w, e, c, at);
    }
  }

  lemma SameFed(lib: NumLib, a: Story, b: Story, more: seq<seq<Byte>>)
    requires Went(lib, a, b, more)
    ensures b.fed == a.fed
  {
    hide Total, Decodings;
  }

  lemma OneOn(lib: NumLib, max: nat, c: Conn, d: Conn)
    requires Framed(lib, max, c) && Framed(lib, max, d) && c.scan < |c.rx|
    requires d.story.fed == c.story.fed && Unscanned(d) == Unscanned(c) - 1
    ensures Here(d) == CutByte(Here(c), c.rx[c.scan]) && d.rx[d.scan..] == c.rx[c.scan + 1..]
  {
    hide Good, CutByte, CutBytes, Placed;
    SeenOn(lib, max, c);
  }

  lemma FrameByteWaits(w: World, e: Env, c: Conn, at: int)
    requires Framed(w.lib, e.cfg.maxMessage, c) && c.scan < |c.rx|
    requires FrameByte(w, e, c, at).2 == None
    ensures var f := FrameByte(w, e, c, at).0;
            f.cfg == e.cfg && |f.writes| == Onwards(w.lib, e.cfg, |e.writes|, Here(c), CutByte(Here(c), c.rx[c.scan]))
  {
    hide Refuse, Accept, Framed, Good, Waiting, DecodeMessage;
    var (g, step) := Advance(c.framer, c.rx[c.scan]);
    var c1 := c.(framer := g, scan := c.scan + 1);
    if step == Close {
      var o := c1.rx[..c1.scan];
      CloseCut(w.lib, e.cfg.maxMessage, c);
      AcceptWaits(w, e, c1, o, DecodeMessage(w.lib, o).value, at);
    }
  }

  // --------------------------------------------------------------------------------------
  // The pending buffer
  // --------------------------------------------------------------------------------------

  /** How framing ended, and what it was told to. */
  ghost predicate Fated(w: World, cfg: Config, n: nat, c: Cut, s: seq<Byte>, t: Turn) {
    && t.env.cfg == cfg && t.conn.scan <= |t.conn.rx|
    && match FateOf(w.lib, cfg, n, c, s)
       case Through =>
         && t.ending == Drained && t.conn.scan == |t.conn.rx|
         && Here(t.conn) == CutBytes(c, s) && |t.env.writes| == WaitingAfter(w.lib, cfg, n, c, s)
       case Faulty => t.ending == Discarded
       case Blocked(p) =>
         && t.ending == Refused && t.conn.scan == 0 && t.conn.rx == s[p..]
         && !InMessage(t.conn.framer) && |t.env.writes| >= cfg.writeRing
         && |t.env.writes| == WaitingAfter(w.lib, cfg, n, c, s[..p]) && Here(t.conn) == CutBytes(c, s[..p])
  }

  lemma FatedOn(w: World, cfg: Config, n: nat, c: Cut, s: seq<Byte>, t: Turn)
    requires s != [] && !Stops(cfg, n, c, s[0]) && Fits(w.lib, cfg.maxMessage, CutByte(c, s[0]))
    requires Fated(w, cfg, Onwards(w.lib, cfg, n, c, CutByte(c, s[0])), CutByte(c, s[0]), s[1..], t)
    ensures Fated(w, cfg, n, c, s, t)
  {
    hide Fits, CutByte, Onwards, Stops;
    var f := FateOf(w.lib, cfg, Onwards(w.lib, cfg, n, c, CutByte(c, s[0])), CutByte(c, s[0]), s[1..]);
    if f.Blocked? {
      assert s[1..][f.at..] == s[f.at + 1..];
      var a := s[..f.at + 1];
      assert a[0] == s[0] && a[1..] == s[1..][..f.at];
    }
  }

  lemma {:induction false} FramePendingFate(w: World, e: Env, c: Conn, at: int)
    requires e.log.cap > 0 && Framed(w.lib, e.cfg.maxMessage, c) && e.cfg.maxMessage < DEPTH_WRAP
    requires c.scan <= |c.rx|
    ensures Fated(w, e.cfg, |e.writes|, Here(c), c.rx[c.scan..], FramePending(w, e, c, at))
    decreases Unscanned(c)
  {
    hide FrameByte, Framed, Good, Fits, Onwards, CutByte, Fated, Advance, CutBytes, Went, FateOf, WaitingAfter, Booked;
    var lib, max, n := w.lib, e.cfg.maxMessage, |e.writes|;
    var s := c.rx[c.scan..];
    if c.scan == |c.rx| {
      DrainedFate(w, e, c, at);
    } else if !InMessage(c.framer) && IsWs(c.rx[c.scan]) {
      WsFramed(lib, max, c);
      WsFate(lib, max, e.cfg, n, c);
      FramePendingFate(w, e, Pass(c), at);
      assert Pass(c).rx[Pass(c).scan..] == s[1..];
      FatedOn(w, e.cfg, n, Here(c), s, FramePending(w, e, Pass(c), at));
    } else if !InMessage(c.framer) && WritesFull(e) {
      RefusedFate(w, e, c, at);
    } else {
      var d := if InMessage(c.framer) then c else Compact(c);
      CompactHere(lib, max, c);
      assert d.rx[d.scan..] == s && Here(d) == Here(c);
      FrameByteShrinks(w, e, d, at);
      FrameByteFate(w, e, d, at);
      FrameByteStepped(w, e, d, at);
      FrameByteKept(w, e, d, at);
      var (e1, d1, end) := FrameByte(w, e, d, at);
      KeptFields(e, d, e1, d1);
      if end == None {
        FramePendingFate(w, e1, d1, at);
        FatedOn(w, e.cfg, n, Here(c), s, FramePending(w, e1, d1, at));
      } else {
        FrameByteKeeps(w, e, d, at);
        FaultyFate(w, e.cfg, n, Here(c), s, Turn(e1, d1, end.value));
      }
    }
  }

  lemma DrainedFate(w: World, e: Env, c: Conn, at: int)
    requires c.scan == |c.rx|
    ensures Fated(w, e.cfg, |e.writes|, Here(c), c.rx[c.scan..], FramePending(w, e, c, at))
  {
  }

  lemma WsFate(lib: NumLib, max: nat, cfg: Config, n: nat, c: Conn)
    requires Framed(lib, max, c) && c.scan < |c.rx| && !InMessage(c.framer) && IsWs(c.rx[c.scan])
    ensures CutByte(Here(c), c.rx[c.scan]) == Here(c) == Here(Pass(c)) && Fits(lib, max, Here(c))
    ensures Onwards(lib, cfg, n, Here(c), Here(c)) == n
  {
    hide Good, Fits;
    SeenFits(lib, max, c);
  }

  lemma RefusedFate(w: World, e: Env, c: Conn, at: int)
    requires c.scan < |c.rx| && !InMessage(c.framer) && !IsWs(c.rx[c.scan]) && WritesFull(e)
    ensures Fated(w, e.cfg, |e.writes|, Here(c), c.rx[c.scan..], FramePending(w, e, c, at))
  {
    var s := c.rx[c.scan..];
    assert s[0] == c.rx[c.scan] && s[0..] == s;
    assert FateOf(w.lib, e.cfg, |e.writes|, Here(c), s) == Blocked(0);
  }

  lemma FaultyFate(w: World, cfg: Config, n: nat, c: Cut, s: seq<Byte>, t: Turn)
    requires s != [] && !Stops(cfg, n, c, s[0]) && !Fits(w.lib, cfg.maxMessage, CutByte(c, s[0]))
    requires t.env.cfg == cfg && t.ending == Discarded && t.conn.scan <= |t.conn.rx|
    ensures Fated(w, cfg, n, c, s, t)
  {
    hide Fits, CutByte, Stops;
  }

  lemma CompactHere(lib: NumLib, max: nat, c: Conn)
    requires Framed(lib, max, c)
    ensures c.scan <= |c.rx|
    ensures !InMessage(c.framer) ==> Framed(lib, max, Compact(c)) && Here(Compact(c)) == Here(c)
    ensures !InMessage(c.framer) ==> Compact(c).rx == c.rx[c.scan..] && Compact(c).scan == 0
  {
    hide Good;
    if !InMessage(c.framer) {
      CompactFramed(lib, max, c);
    }
  }
}
