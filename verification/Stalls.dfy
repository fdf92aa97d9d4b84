/**
 * Draining and resuming at one time, as a replay does: when it gets on, and exactly when it never
 * ends.
 */
module Stalls {
  import opened Bytes
  import opened Numbers
  import P = Protocol
  import opened Events
  import opened EventLog
  import opened Hub
  import opened Conns
  import opened Frame
  import opened Lives
  import opened Mails
  import opened Serving
  import opened Streams
  import opened Fates
  import opened Delivery
  import opened Replies
  import opened Server
  import Runs
  import opened Resuming

  /** What every call needs and keeps. */
  predicate Running(s: Server) {
    s.env.log.cap > 0 && Scanned(s)
  }

  predicate AllHeld(s: Server) {
    forall i :: 0 <= i < |s.env.writes| ==> Held(s, s.env.writes[i])
  }

  /** The same table, but for when each connection may be written to again. */
  predicate SameButNext(a: seq<Conn>, b: seq<Conn>) {
    |a| == |b| && forall k :: 0 <= k < |a| ==> b[k] == a[k].(nextWrite := b[k].nextWrite)
  }

  /** `t` is `s` after polling. */
  predicate PolledOn(s: Server, t: Server) {
    && t.env.log.cap == s.env.log.cap && t.env.cfg == s.env.cfg && t.env.now == s.env.now && t.env.closed == s.env.closed
    && SameButNext(s.conns, t.conns)
  }

  // --------------------------------------------------------------------------------------
  // Draining
  // --------------------------------------------------------------------------------------

  lemma HandOutOn(s: Server, i: nat)
    requires i < |s.env.writes| && s.env.log.cap > 0
    ensures PolledOn(s, HandOut(s, i)) && |HandOut(s, i).env.writes| == |s.env.writes| - 1
  {
    hide Logs.Logged, EnvLife, FindConn, WireBytes;
    Runs.HandOutEnv(s, i);
  }

  lemma {:induction false} PollOn(s: Server, i: nat, max: nat)
    requires i <= |s.env.writes| && s.env.log.cap > 0
    ensures var (t, out) := PollWritesFrom(s, i, max);
            && PolledOn(s, t) && |t.env.writes| == |s.env.writes| - |out|
            && (out == [] && max > 0 ==> t == s && forall j :: i <= j < |s.env.writes| ==> Held(s, s.env.writes[j]))
    decreases |s.env.writes| - i
  {
    hide HandOut, Held;
    if i < |s.env.writes| && max > 0 {
      if Held(s, s.env.writes[i]) {
        PollOn(s, i + 1, max);
      } else {
        HandOutOn(s, i);
        PollOn(HandOut(s, i), i, max - 1);
      }
    }
  }

  /** Writes polled by eights until none comes. */
  function DrainWrites(s: Server): (t: Server)
    requires s.env.log.cap > 0
    decreases |s.env.writes|
  {
    PollOn(s, 0, 8);
    var (t, out) := PollWrites(s, 8);
    if out == [] then t else DrainWrites(t)
  }

  lemma {:induction false} DrainWritesOn(s: Server)
    requires s.env.log.cap > 0
    ensures var t := DrainWrites(s); PolledOn(s, t) && AllHeld(t) && |t.env.writes| <= |s.env.writes|
    decreases |s.env.writes|
  {
    hide PollWritesFrom, Held;
    PollOn(s, 0, 8);
    var (t, out) := PollWrites(s, 8);
    if out != [] {
      DrainWritesOn(t);
    }
  }

  function DrainEvents(s: Server): (t: Server)
    decreases |s.env.log.items|
  {
    var (t, out) := PollEvents(s, 16);
    if out == [] then t else DrainEvents(t)
  }

  lemma {:induction false} DrainEventsOn(s: Server)
    ensures var t := DrainEvents(s); t == s.(env := s.env.(log := t.env.log)) && t.env.log.cap == s.env.log.cap
    decreases |s.env.log.items|
  {
    var (t, out) := PollEvents(s, 16);
    if out != [] {
      DrainEventsOn(t);
    }
  }

  /** `replay_drain`, as far as the server is concerned. */
  function AllDrained(s: Server): Server
    requires s.env.log.cap > 0
  {
    DrainEvents(DrainWrites(s))
  }

  lemma DrainedOn(s: Server)
    requires Running(s)
    ensures var t := AllDrained(s); PolledOn(s, t) && AllHeld(t) && Running(t) && |t.env.writes| <= |s.env.writes|
  {
    hide DrainWrites, DrainEvents;
    var u := DrainWrites(s);
    DrainWritesOn(s);
    DrainEventsOn(u);
    HeldAlike(u, DrainEvents(u));
  }

  lemma HeldAlike(s: Server, t: Server)
    requires AllHeld(s) && t.conns == s.conns && t.env.writes == s.env.writes && t.env.now == s.env.now
    ensures AllHeld(t)
  {
    hide FindConn;
    forall i | 0 <= i < |t.env.writes|
      ensures Held(t, t.env.writes[i])
    {
      assert Held(s, s.env.writes[i]);
    }
  }

  lemma FoundOn(s: Server, t: Server, id: nat)
    requires SameButNext(s.conns, t.conns)
    ensures FindConn(t.conns, id) == FindConn(s.conns, id)
  {
    hide FindConn;
    Runs.FindSame(s.conns, t.conns, id, 0);
    FoundFrom(s.conns, t.conns, id);
  }

  // --------------------------------------------------------------------------------------
  // Resuming
  // --------------------------------------------------------------------------------------

  /** How much the connection has pending that the framer has not seen. */
  function PendingOf(s: Server, id: nat): (r: Option<int>) {
    match FindConn(s.conns, id)
    case None => None
    case Some(k) => Some(Unscanned(s.conns[k]))
  }

  /** With the ring full, everything but a message at the very front is consumed. */
  lemma FullMoves(w: World, e: Env, c: Conn, at: int)
    requires c.scan <= |c.rx|
    ensures var t := FramePending(w, e, c, at);
            && t.conn.scan <= |t.conn.rx| && Unscanned(t.conn) <= Unscanned(c)
            && (t.ending == Refused && !(WritesFull(e) && AtMessage(c)) ==> Unscanned(t.conn) < Unscanned(c))
  {
    hide FrameByte, Advance, WritesFull;
    FramePendingMoves(w, e, c, at);
    if c.scan != |c.rx| {
      if !InMessage(c.framer) && IsWs(c.rx[c.scan]) {
        FramePendingMoves(w, e, Pass(c), at);
      } else if InMessage(c.framer) {
        FrameByteShrinks(w, e, c, at);
        FrameByteKeeps(w, e, c, at);
        var (e1, d1, end) := FrameByte(w, e, c, at);
        if end == None {
          FramePendingMoves(w, e1, d1, at);
        }
      }
    }
  }

  /**
   * A resumed call is refused again without having consumed anything exactly when it finds a
   * message at the front and the write ring full.
   */
  lemma ResumeExactly(w: World, e: Env, c: Conn, at: int)
    requires c.scan <= |c.rx| && e.log.cap > 0
    ensures var (f, d, status) := TakeBytes(w, e, c, [], at);
            && d.scan <= |d.rx|
            && (status == P.QueueFull ==> Unscanned(d) <= Unscanned(c))
            && (status == P.QueueFull && Unscanned(d) == Unscanned(c) <==> WritesFull(e) && AtMessage(c))
  {
    hide FramePending, Absorb, WritesFull, Say, AtMessage;
    var c0 := c.(story := c.story.(offered := c.story.offered + []));
    assert AtMessage(c0) == AtMessage(c) by { SameFront(c, c0); }
    AbsorbNothing(w, e, c0, at);
    FullMoves(w, e, c0, at);
    Resuming.NothingAppended(Absorb(w, e, c0, [], at).1);
    TakeBytesKept(w, e, c, [], at);
    if WritesFull(e) && AtMessage(c) {
      ResumeStays(w, e, c, at);
    }
  }

  lemma SameFront(c: Conn, d: Conn)
    requires d.rx == c.rx && d.scan == c.scan && d.framer == c.framer
    ensures AtMessage(d) == AtMessage(c)
  {
  }

  lemma BytesLive(w: World, s: Server, id: nat, data: seq<Byte>, at: int)
    requires Running(s)
    ensures var (t, status) := OnBytes(w, s, id, data, at);
            && Running(t) && t.env.cfg == s.env.cfg && (status == P.QueueFull ==> t.env.now == at)
            && |t.conns| == |s.conns| && FindConn(t.conns, id) == FindConn(s.conns, id)
            && (status == P.QueueFull ==> FindConn(s.conns, id).Some?)
  {
    hide TakeBytes, Kept, FindConn;
    if !s.env.closed && FindConn(s.conns, id).Some? {
      var k := FindConn(s.conns, id).value;
      var e, c := s.env.(now := at), s.conns[k];
      TakeBytesKept(w, e, c, data, at);
      var (f, d, status) := TakeBytes(w, e, c, data, at);
      KeptFields(e, c, f, d);
      var t := OnBytes(w, s, id, data, at).0;
      Runs.FindSame(s.conns, t.conns, id, 0);
      FoundFrom(s.conns, t.conns, id);
    }
  }

  /** A drain and a resumed call. */
  function Round(w: World, s: Server, id: nat, at: int): (Server, P.Status)
    requires Running(s)
  {
    DrainedOn(s);
    OnBytes(w, AllDrained(s), id, [], at)
  }

  /** After a drain the ring is either stalled or has room: a round consumes nothing exactly if it is stalled. */
  lemma RoundExactly(w: World, s: Server, id: nat, at: int)
    requires Running(s) && s.env.now == at
    ensures var (t, status) := Round(w, s, id, at);
            && Running(t)
            && (status == P.QueueFull ==>
                  && t.env.now == at && PendingOf(s, id).Some? && PendingOf(t, id).Some?
                  && 0 <= PendingOf(t, id).value <= PendingOf(s, id).value)
            && (status == P.QueueFull && PendingOf(t, id) == PendingOf(s, id) <==> Stalled(AllDrained(s), id))
  {
    hide TakeBytes, Kept, FindConn, AllDrained, AtMessage, Held, WritesFull;
    var u := AllDrained(s);
    DrainedOn(s);
    FoundOn(s, u, id);
    BytesLive(w, u, id, [], at);
    if !u.env.closed && FindConn(u.conns, id).Some? {
      var k := FindConn(u.conns, id).value;
      assert u.env.(now := at) == u.env;
      ResumeExactly(w, u.env, u.conns[k], at);
      SameWaiting(s.conns[k], u.conns[k]);
    }
  }

  lemma SameWaiting(c: Conn, d: Conn)
    requires d == c.(nextWrite := d.nextWrite)
    ensures Unscanned(d) == Unscanned(c)
  {
  }

  lemma EventsStall(s: Server, id: nat)
    requires Stalled(s, id)
    ensures Stalled(DrainEvents(s), id)
  {
    hide FindConn, DrainEvents, AtMessage;
    var t := DrainEvents(s);
    DrainEventsOn(s);
    assert AllHeld(s);
    HeldAlike(s, t);
  }

  /** A stalled server, resumed, is stalled again. */
  lemma StallStays(w: World, s: Server, id: nat, at: int)
    requires Running(s) && s.env.now == at && Stalled(AllDrained(s), id)
    ensures var (t, status) := Round(w, s, id, at);
            status == P.QueueFull && Running(t) && t.env.now == at && Stalled(AllDrained(t), id)
  {
    hide AllDrained, Stalled, OnBytes;
    var u := AllDrained(s);
    DrainedOn(s);
    StalledForGood(w, u, id, 8);
    var t := Round(w, s, id, at).0;
    RoundExactly(w, s, id, at);
    StalledForGood(w, t, id, 8);
    StallDrained(t, id);
  }

  lemma StallDrained(t: Server, id: nat)
    requires Running(t) && Stalled(t, id) && PollWrites(t, 8) == (t, [])
    ensures Stalled(AllDrained(t), id)
  {
    hide Stalled, PollWrites, DrainEvents;
    EventsStall(t, id);
  }

  // --------------------------------------------------------------------------------------
  // The loop
  // --------------------------------------------------------------------------------------

  /** A call refused, and after it `n` rounds or as many as it takes. */
  function Rounds(w: World, s: Server, id: nat, at: int, n: nat): (r: (Server, P.Status))
    requires Running(s) && s.env.now == at
    ensures Running(r.0) && (r.1 == P.QueueFull ==> r.0.env.now == at)
    decreases n
  {
    if n == 0 then (s, P.QueueFull)
    else
      RoundExactly(w, s, id, at);
      var (t, status) := Round(w, s, id, at);
      if status == P.QueueFull then Rounds(w, t, id, at, n - 1) else (t, status)
  }

  /** The `n`th drain leaves the server stalled. */
  predicate StalledAfter(w: World, s: Server, id: nat, at: int, n: nat)
    requires Running(s) && s.env.now == at
  {
    var (t, status) := Rounds(w, s, id, at, n);
    status == P.QueueFull && Stalled(AllDrained(t), id)
  }

  predicate EndsBy(w: World, s: Server, id: nat, at: int, n: nat)
    requires Running(s) && s.env.now == at
  {
    Rounds(w, s, id, at, n).1 != P.QueueFull
  }

  /** One round, then what is left of the loop. */
  lemma RoundsStep(w: World, s: Server, id: nat, at: int, n: nat)
    requires Running(s) && s.env.now == at && n > 0
    ensures var (t, status) := Round(w, s, id, at);
            && Running(t) && (status == P.QueueFull ==> t.env.now == at)
            && if status == P.QueueFull
               then EndsBy(w, s, id, at, n) == EndsBy(w, t, id, at, n - 1) && Rounds(w, s, id, at, n).0 == Rounds(w, t, id, at, n - 1).0
               else EndsBy(w, s, id, at, n) && Rounds(w, s, id, at, n).0 == t
  {
    hide Round, Running;
    RoundExactly(w, s, id, at);
  }

  lemma NoRounds(w: World, s: Server, id: nat, at: int)
    requires Running(s) && s.env.now == at
    ensures !EndsBy(w, s, id, at, 0) && Rounds(w, s, id, at, 0).0 == s
  {
    hide Running;
  }

  lemma {:induction false} NeverEnds(w: World, s: Server, id: nat, at: int, n: nat)
    requires Running(s) && s.env.now == at && Stalled(AllDrained(s), id)
    ensures !EndsBy(w, s, id, at, n)
    decreases n
  {
    hide AllDrained, Stalled, Round;
    if n > 0 {
      RoundExactly(w, s, id, at);
      StallStays(w, s, id, at);
      NeverEnds(w, Round(w, s, id, at).0, id, at, n - 1);
    }
  }

  lemma {:induction false} StalledNeverEnds(w: World, s: Server, id: nat, at: int, m: nat, n: nat)
    requires Running(s) && s.env.now == at && StalledAfter(w, s, id, at, m)
    ensures !EndsBy(w, s, id, at, n)
    decreases m
  {
    hide AllDrained, Stalled, Round;
    if m == 0 {
      NeverEnds(w, s, id, at, n);
    } else if n > 0 {
      RoundExactly(w, s, id, at);
      StalledNeverEnds(w, Round(w, s, id, at).0, id, at, m - 1, n - 1);
    }
  }

  /** Unless it stalls, the loop ends before it has gone round once for every byte pending. */
  lemma {:induction false} EndsWithin(w: World, s: Server, id: nat, at: int, n: nat)
    requires Running(s) && s.env.now == at && (PendingOf(s, id).Some? ==> PendingOf(s, id).value < n)
    requires n > 0 && forall m: nat :: m < n ==> !StalledAfter(w, s, id, at, m)
    ensures EndsBy(w, s, id, at, n)
    decreases n
  {
    hide AllDrained, Stalled, Round, PendingOf;
    assert !StalledAfter(w, s, id, at, 0);
    RoundExactly(w, s, id, at);
    var (t, status) := Round(w, s, id, at);
    if status == P.QueueFull {
      forall m: nat | m < n - 1
        ensures !StalledAfter(w, t, id, at, m)
      {
        assert !StalledAfter(w, s, id, at, m + 1);
      }
      EndsWithin(w, t, id, at, n - 1);
    }
  }

  /** The loop of drains and resumed calls ends if and only if no drain leaves the server stalled. */
  lemma EndsUnlessStalled(w: World, s: Server, id: nat, at: int)
    requires Running(s) && s.env.now == at
    ensures (exists n: nat :: EndsBy(w, s, id, at, n)) <==> !(exists m: nat :: StalledAfter(w, s, id, at, m))
  {
    hide EndsBy, StalledAfter, PendingOf;
    if exists m: nat :: StalledAfter(w, s, id, at, m) {
      var m: nat :| StalledAfter(w, s, id, at, m);
      forall n: nat
        ensures !EndsBy(w, s, id, at, n)
      {
        StalledNeverEnds(w, s, id, at, m, n);
      }
    } else {
      var n: nat := if PendingOf(s, id).Some? && PendingOf(s, id).value >= 0 then PendingOf(s, id).value + 1 else 1;
      EndsWithin(w, s, id, at, n);
    }
  }

  // --------------------------------------------------------------------------------------
  // With spacing off it ends
  // --------------------------------------------------------------------------------------

  lemma {:induction false} DrainWritesPrompt(s: Server)
    requires Prompt(s)
    ensures Prompt(DrainWrites(s)) && DrainWrites(s).env.writes == [] && DrainWrites(s).env.now == s.env.now
    decreases |s.env.writes|
  {
    hide Prompt, PollWrites;
    PromptLives(s);
    PollPrompt(s, 8);
    PollOn(s, 0, 8);
    var (t, out) := PollWrites(s, 8);
    if out != [] {
      DrainWritesPrompt(t);
    }
  }

  lemma PromptLives(s: Server)
    requires Prompt(s)
    ensures Running(s) && s.env.cfg.writeRing > 0
  {
  }

  lemma DrainedPrompt(s: Server)
    requires Prompt(s)
    ensures Running(s) && Prompt(AllDrained(s)) && AllDrained(s).env.writes == [] && AllDrained(s).env.now == s.env.now
    ensures AllDrained(s).env.cfg == s.env.cfg
  {
    hide DrainWrites, DrainEvents;
    DrainWritesPrompt(s);
    DrainWritesOn(s);
    DrainEventsOn(DrainWrites(s));
  }

  /** What a round keeps, with spacing off. */
  lemma RoundPrompt(w: World, s: Server, id: nat, at: int)
    requires Prompt(s) && s.env.now <= at
    ensures Running(s) && !Stalled(AllDrained(s), id)
    ensures var t := Round(w, s, id, at).0; Prompt(t) && t.env.now <= at && t.env.cfg == s.env.cfg
  {
    hide Prompt, AllDrained, OnBytes, FindConn;
    PromptLives(s);
    DrainedPrompt(s);
    PromptLives(AllDrained(s));
    OnBytesPrompt(w, AllDrained(s), id, [], at);
  }

  lemma {:induction false} PromptEnds(w: World, s: Server, id: nat, at: int, n: nat)
    requires Prompt(s) && s.env.now == at && n > 0 && (PendingOf(s, id).Some? ==> PendingOf(s, id).value < n)
    ensures Running(s) && EndsBy(w, s, id, at, n)
    ensures var t := Rounds(w, s, id, at, n).0; Prompt(t) && t.env.now <= at
    decreases n
  {
    hide Prompt, AllDrained, Stalled, Round, PendingOf;
    RoundPrompt(w, s, id, at);
    RoundExactly(w, s, id, at);
    var (t, status) := Round(w, s, id, at);
    if status == P.QueueFull {
      PromptEnds(w, t, id, at, n - 1);
    }
  }
}
