/**
 * Whether draining and resuming at one time ever ends, told before it begins: with spacing on a
 * connection gets at most one write more at that time, so two rounds decide it.
 */
module TwoRounds {
  import opened Bytes
  import opened Numbers
  import P = Protocol
  import opened Events
  import Rings
  import opened EventLog
  import opened Hub
  import opened Conns
  import F = Frame
  import Logs
  import opened Lives
  import opened Mails
  import opened Serving
  import Sizes
  import opened Streams
  import opened Fates
  import opened Delivery
  import opened Replies
  import opened Server
  import Runs
  import opened Resuming
  import opened Stalls

  /** A server as every run leaves it, as far as `id` goes. */
  ghost predicate Sighted(w: World, s: Server, id: nat) {
    && Running(s) && s.env.cfg.maxMessage < F.DEPTH_WRAP
    && (FindConn(s.conns, id).Some? ==> Followed(w.lib, s.env.cfg.maxMessage, s.conns[FindConn(s.conns, id).value]))
  }

  lemma InvIsSighted(w: World, s: Server, id: nat)
    requires Runs.Inv(w, s)
    ensures Sighted(w, s, id)
  {
    hide Runs.Inv, FindConn, Followed;
    Runs.InvIsScanned(w, s);
    Runs.InvConfig(w, s);
    if FindConn(s.conns, id).Some? {
      Runs.InvFields(w, s, FindConn(s.conns, id).value);
    }
  }

  /** What resuming comes to where a message waits behind a ring with one slot free. */
  function SecondFate(lib: NumLib, s: Server, c: Conn): Fate
    requires c.scan <= |c.rx| && FateAhead(lib, s.env, c, []).Blocked? && s.env.cfg.writeRing > 0
  {
    var p, ahead := FateAhead(lib, s.env, c, []).at, Ahead(c, []);
    if p > |ahead| then Through
    else FateOf(lib, s.env.cfg, s.env.cfg.writeRing - 1, F.CutBytes(Here(c), ahead[..p]), ahead[p..])
  }

  /**
   * A drained server will take all that `id` has pending, at this time: nothing of it stops at a full
   * ring; or the ring has a free slot and the connection may be written to now, and, with spacing on,
   * the one write that will then be handed out makes room enough for what is behind the stop.
   */
  predicate Settles(lib: NumLib, s: Server, id: nat)
    requires Scanned(s)
  {
    s.env.closed ||
    match FindConn(s.conns, id)
    case None => true
    case Some(k) =>
      var c := s.conns[k];
      !FateAhead(lib, s.env, c, []).Blocked?
      || (&& !WritesFull(s.env) && c.nextWrite <= s.env.now
          && (s.env.cfg.policy.writeSpacing > 0 ==> !SecondFate(lib, s, c).Blocked?))
  }

  // --------------------------------------------------------------------------------------
  // Writes, connection by connection
  // --------------------------------------------------------------------------------------

  lemma {:induction false} ForHas(ws: seq<Write>, i: nat)
    requires i < |ws|
    ensures ws[i] in For(ws, ws[i].conn)
    decreases |ws|
  {
    if i < |ws| - 1 {
      ForHas(ws[..|ws| - 1], i);
    }
  }

  lemma {:induction false} ForIsFrom(ws: seq<Write>, id: nat, x: Write)
    requires x in For(ws, id)
    ensures x in ws && x.conn == id
    decreases |ws|
  {
    if ws != [] {
      if x in For(ws[..|ws| - 1], id) {
        ForIsFrom(ws[..|ws| - 1], id, x);
      }
    }
  }

  lemma {:induction false} FirstFor(ws: seq<Write>, id: nat) returns (i: nat)
    requires For(ws, id) != []
    ensures i < |ws| && ws[i].conn == id && forall j :: 0 <= j < i ==> ws[j].conn != id
    decreases |ws|
  {
    var n := |ws| - 1;
    if For(ws[..n], id) != [] {
      i := FirstFor(ws[..n], id);
    } else {
      i := n;
      forall j | 0 <= j < n
        ensures ws[j].conn != id
      {
        if ws[j].conn == id {
          ForSome(ws[..n], id, j);
        }
      }
    }
  }

  /** Two lists of writes, one as long for every connection, are one as long as the other. */
  lemma {:induction false} LengthByFor(a: seq<Write>, b: seq<Write>)
    requires forall j: nat :: |For(a, j)| <= |For(b, j)|
    ensures |a| <= |b|
    decreases |a|
  {
    hide For, Rings.Without;
    if a != [] {
      var n := |a| - 1;
      var x := a[n];
      assert a == a[..n] + [x];
      ForSnoc(a[..n], x, x.conn);
      assert |For(a, x.conn)| <= |For(b, x.conn)|;
      var i := FirstFor(b, x.conn);
      var rest := Rings.Without(b, i);
      forall j: nat
        ensures |For(a[..n], j)| <= |For(rest, j)|
      {
        assert |For(a, j)| <= |For(b, j)|;
        ForSnoc(a[..n], x, j);
        ForWithout(b, i, j);
      }
      LengthByFor(a[..n], rest);
      OneLess(b, i);
    }
  }

  lemma OneLess(ws: seq<Write>, i: nat)
    requires i < |ws|
    ensures |Rings.Without(ws, i)| == |ws| - 1
  {
  }

  /** A write more, if none is fewer for anyone, is one for `id`. */
  lemma SomeFor(a: seq<Write>, b: seq<Write>, id: nat)
    requires (forall j: nat :: j != id ==> For(b, j) == For(a, j)) && For(a, id) == [] && |b| > |a|
    ensures For(b, id) != []
  {
    hide For;
    if For(b, id) == [] {
      LengthByFor(b, a);
    }
  }

  /** No write more, and none for `id` before: none for `id` now. */
  lemma NoneFor(a: seq<Write>, b: seq<Write>, id: nat)
    requires (forall j: nat :: j != id ==> For(b, j) == For(a, j)) && For(a, id) == [] && |b| <= |a|
    ensures For(b, id) == []
  {
    hide For, Rings.Without;
    if For(b, id) != [] {
      var i := FirstFor(b, id);
      forall j: nat
        ensures |For(a, j)| <= |For(Rings.Without(b, i), j)|
      {
        ForWithout(b, i, j);
      }
      LengthByFor(a, Rings.Without(b, i));
      OneLess(b, i);
    }
  }

  // --------------------------------------------------------------------------------------
  // Held writes
  // --------------------------------------------------------------------------------------

  /** Every write is held, those for `id` aside. */
  predicate OthersHeld(s: Server, id: nat) {
    forall i :: 0 <= i < |s.env.writes| && s.env.writes[i].conn != id ==> Held(s, s.env.writes[i])
  }

  /** Of the same connections, all but `id` may be written to again when they might before. */
  predicate SameOthers(s: Server, t: Server, id: nat) {
    && t.env.now == s.env.now && |t.conns| == |s.conns|
    && (forall k :: 0 <= k < |s.conns| ==>
          && t.conns[k].used == s.conns[k].used && t.conns[k].info.conn == s.conns[k].info.conn
          && (s.conns[k].info.conn != id ==> t.conns[k].nextWrite == s.conns[k].nextWrite))
  }

  lemma HeldOn(s: Server, t: Server, id: nat, x: Write)
    requires SameOthers(s, t, id) && x.conn != id
    ensures Held(t, x) == Held(s, x)
  {
    hide FindFrom;
    Runs.FindSame(s.conns, t.conns, x.conn, 0);
  }

  /** Whatever was done for `id`, the others' writes are the same and held as before. */
  lemma OthersStayHeld(s: Server, t: Server, id: nat)
    requires AllHeld(s) && SameOthers(s, t, id)
    requires forall j: nat :: j != id ==> For(t.env.writes, j) == For(s.env.writes, j)
    ensures OthersHeld(t, id)
  {
    hide For, Held, SameOthers;
    forall i | 0 <= i < |t.env.writes| && t.env.writes[i].conn != id
      ensures Held(t, t.env.writes[i])
    {
      var x := t.env.writes[i];
      ForHas(t.env.writes, i);
      assert For(t.env.writes, x.conn) == For(s.env.writes, x.conn);
      ForIsFrom(s.env.writes, x.conn, x);
      HeldOn(s, t, id, x);
    }
  }

  /** Held back itself, `id` leaves nothing that is not. */
  lemma HeldToo(s: Server, id: nat)
    requires OthersHeld(s, id)
    requires For(s.env.writes, id) == []
             || (FindConn(s.conns, id).Some? && s.env.now < s.conns[FindConn(s.conns, id).value].nextWrite)
    ensures AllHeld(s)
  {
    hide FindConn, For;
    forall i | 0 <= i < |s.env.writes|
      ensures Held(s, s.env.writes[i])
    {
      if s.env.writes[i].conn == id && For(s.env.writes, id) == [] {
        ForSome(s.env.writes, id, i);
      }
    }
  }

  /** A connection that may be written to has no write held. */
  lemma NoneHeld(s: Server, id: nat, k: nat)
    requires AllHeld(s) && FindConn(s.conns, id) == Some(k) && s.conns[k].nextWrite <= s.env.now
    ensures For(s.env.writes, id) == []
  {
    hide FindConn, For;
    forall i | 0 <= i < |s.env.writes|
      ensures s.env.writes[i].conn != id
    {
      assert Held(s, s.env.writes[i]);
    }
    ForNone(s.env.writes, id);
  }

  // --------------------------------------------------------------------------------------
  // One resumed call
  // --------------------------------------------------------------------------------------

  /** Answers fill the ring and no more. */
  lemma {:induction false} WaitingBound(lib: NumLib, cfg: Config, n: nat, c: F.Cut, s: seq<Byte>)
    ensures n >= cfg.writeRing ==> WaitingAfter(lib, cfg, n, c, s) == n
    ensures n <= cfg.writeRing ==> WaitingAfter(lib, cfg, n, c, s) <= cfg.writeRing
    decreases |s|
  {
    hide F.CutByte, Sizes.TextFits, Rejected;
    if s != [] {
      var d := F.CutByte(c, s[0]);
      WaitingBound(lib, cfg, Onwards(lib, cfg, n, c, d), d, s[1..]);
    }
  }

  /** A resumed call that is refused stands before a message, the ring full. */
  lemma Resumed(w: World, e: Env, c: Conn, at: int)
    requires e.log.cap > 0 && e.cfg.maxMessage < F.DEPTH_WRAP && Followed(w.lib, e.cfg.maxMessage, c)
    requires c.scan <= |c.rx|
    ensures var (f, d, status) := TakeBytes(w, e, c, [], at);
            var fate, ahead := FateAhead(w.lib, e, c, []), Ahead(c, []);
            && (status == P.QueueFull <==> fate.Blocked?)
            && Followed(w.lib, e.cfg.maxMessage, d) && Kept(e, c, f, d)
            && (fate.Blocked? ==>
                  && fate.at < |ahead| && AtMessage(d) && d.scan == 0 && d.rx == ahead[fate.at..]
                  && Here(d) == F.CutBytes(Here(c), ahead[..fate.at])
                  && |f.writes| == if WritesFull(e) then |e.writes| else e.cfg.writeRing)
  {
    hide TakeBytes, Followed, FateOf, WaitingAfter, Kept, F.CutBytes, Here;
    var lib, max := w.lib, e.cfg.maxMessage;
    FollowedFields(lib, max, c);
    MissingExactly(w, e, c, [], at);
    TakeBytesFollowed(w, e, c, [], at);
    TakeBytesKept(w, e, c, [], at);
    var fate, ahead := FateAhead(lib, e, c, []), Ahead(c, []);
    if fate.Blocked? {
      assert FateOf(lib, e.cfg, |e.writes|, Here(c), ahead) == fate;
      FateInside(lib, e.cfg, |e.writes|, Here(c), ahead);
      HereAfter(w, e, c, [], at);
      StoppedAt(lib, e.cfg, |e.writes|, Here(c), ahead, fate.at);
      WaitingBound(lib, e.cfg, |e.writes|, Here(c), ahead[..fate.at]);
    }
  }

  lemma FateInside(lib: NumLib, cfg: Config, n: nat, c: F.Cut, s: seq<Byte>)
    ensures FateOf(lib, cfg, n, c, s).Blocked? ==> FateOf(lib, cfg, n, c, s).at < |s|
  {
    hide F.CutByte;
  }

  lemma StoppedAt(lib: NumLib, cfg: Config, n: nat, c: F.Cut, s: seq<Byte>, p: nat)
    requires p < |s| && FateOf(lib, cfg, n, c, s) == Blocked(p)
    ensures WaitingAfter(lib, cfg, n, c, s[..p]) >= cfg.writeRing && !IsWs(s[p])
  {
    hide FateOf, WaitingAfter, PassedAt;
    BlockedExactly(lib, cfg, n, c, s, p);
  }

  /** A round, when the connection is there. */
  lemma RoundIs(w: World, s: Server, id: nat, at: int, k: nat)
    requires Running(s) && s.env.now == at && !AllDrained(s).env.closed && FindConn(AllDrained(s).conns, id) == Some(k)
    ensures Running(AllDrained(s)) && AllHeld(AllDrained(s)) && AllDrained(s).env.now == at
    ensures var u := AllDrained(s);
            var (f, d, status) := TakeBytes(w, u.env, u.conns[k], [], at);
            Round(w, s, id, at) == (Server(f, u.conns[k := d]), status)
  {
    hide AllDrained, TakeBytes, FindConn;
    DrainedOn(s);
    var u := AllDrained(s);
    assert u.env.(now := at) == u.env;
  }

  lemma DrainedSighted(w: World, s: Server, id: nat)
    requires Sighted(w, s, id)
    ensures Sighted(w, AllDrained(s), id) && AllHeld(AllDrained(s)) && AllDrained(s).env.now == s.env.now
    ensures AllDrained(s).env.cfg == s.env.cfg && AllDrained(s).env.closed == s.env.closed
    ensures FindConn(AllDrained(s).conns, id) == FindConn(s.conns, id)
  {
    hide AllDrained, Followed, FindConn;
    DrainedOn(s);
    var u := AllDrained(s);
    FoundOn(s, u, id);
    if FindConn(s.conns, id).Some? {
      var k := FindConn(s.conns, id).value;
      PutOffFollowed(w.lib, s.env.cfg.maxMessage, s.conns[k], u.conns[k].nextWrite);
    }
  }

  /** `u` is drained, and its connection at `k` is `id`. */
  ghost predicate Ready(w: World, u: Server, id: nat, k: nat) {
    Sighted(w, u, id) && AllHeld(u) && !u.env.closed && FindConn(u.conns, id) == Some(k) && u.conns[k].scan <= |u.conns[k].rx|
  }

  predicate Stops(lib: NumLib, u: Server, k: nat)
    requires k < |u.conns| && u.conns[k].scan <= |u.conns[k].rx|
  {
    FateAhead(lib, u.env, u.conns[k], []).Blocked?
  }

  /** `u` resumed and refused is `t`: before the message, the ring full, and only `id` has new writes. */
  predicate StoppedIn(lib: NumLib, u: Server, t: Server, id: nat, k: nat)
    requires k < |u.conns| && u.conns[k].scan <= |u.conns[k].rx| && Stops(lib, u, k)
  {
    var p, ahead := FateAhead(lib, u.env, u.conns[k], []).at, Ahead(u.conns[k], []);
    && t.env.cfg == u.env.cfg && !t.env.closed && SameOthers(u, t, id)
    && FindConn(t.conns, id) == Some(k) && p < |ahead|
    && t.conns[k].nextWrite == u.conns[k].nextWrite
    && AtMessage(t.conns[k]) && t.conns[k].scan == 0 && t.conns[k].rx == ahead[p..]
    && Here(t.conns[k]) == F.CutBytes(Here(u.conns[k]), ahead[..p])
    && |t.env.writes| == if WritesFull(u.env) then |u.env.writes| else u.env.cfg.writeRing
  }

  lemma RefusedRound(w: World, s: Server, u: Server, id: nat, k: nat)
    requires Running(s) && u == AllDrained(s) && Ready(w, u, id, k) && s.env.now == u.env.now && Stops(w.lib, u, k)
    ensures var (t, status) := Round(w, s, id, u.env.now);
            && status == P.QueueFull && Sighted(w, t, id) && StoppedIn(w.lib, u, t, id, k)
            && (forall j: nat :: j != id ==> For(t.env.writes, j) == For(u.env.writes, j)) && OthersHeld(t, id)
  {
    hide AllDrained, TakeBytes, Followed, FindConn, FateAhead, Here, F.CutBytes, AtMessage, Kept, For, Held;
    var e, c, at := u.env, u.conns[k], u.env.now;
    RoundIs(w, s, id, at, k);
    Resumed(w, e, c, at);
    var (f, d, status) := TakeBytes(w, e, c, [], at);
    KeptFields(e, c, f, d);
    var t := Server(f, u.conns[k := d]);
    ResumedFound(w, s, u, id, k, t);
    KeptFor(e, c, f, d);
    OthersStayHeld(u, t, id);
  }

  lemma ResumedFound(w: World, s: Server, u: Server, id: nat, k: nat, t: Server)
    requires Running(s) && Running(u) && u == AllDrained(s) && FindConn(u.conns, id) == Some(k)
    requires t == Round(w, s, id, u.env.now).0
    ensures Running(t) && FindConn(t.conns, id) == Some(k)
  {
    hide AllDrained, FindConn, OnBytes;
    BytesLive(w, u, id, [], u.env.now);
  }

  lemma KeptFor(e: Env, c: Conn, f: Env, d: Conn)
    requires Kept(e, c, f, d)
    ensures forall j: nat :: j != c.info.conn ==> For(f.writes, j) == For(e.writes, j)
  {
    hide InOrder, EnvMail, EnvLife, Attuned, Logs.Logged, For;
    forall j: nat | j != c.info.conn
      ensures For(f.writes, j) == For(e.writes, j)
    {
      assert Beside(e, f, c.info.conn, j);
    }
  }

  // --------------------------------------------------------------------------------------
  // Stalled
  // --------------------------------------------------------------------------------------

  /** A stop at a ring that no write will leave: the loop has stalled after this round. */
  lemma StopStalls(w: World, s: Server, u: Server, id: nat, k: nat)
    requires Running(s) && u == AllDrained(s) && Ready(w, u, id, k) && s.env.now == u.env.now && Stops(w.lib, u, k)
    requires WritesFull(u.env) || u.conns[k].nextWrite > u.env.now
    ensures StalledAfter(w, s, id, u.env.now, 1)
  {
    hide AllDrained, FindConn, FateAhead, Here, F.CutBytes, AtMessage, For, Held, Round, Followed;
    var at := u.env.now;
    RefusedRound(w, s, u, id, k);
    var t := Round(w, s, id, at).0;
    if u.conns[k].nextWrite <= at {
      NoneHeld(u, id, k);
      NoneFor(u.env.writes, t.env.writes, id);
    }
    HeldToo(t, id);
    assert Stalled(t, id);
    AllHeldStay(t, 0, 8);
    StallDrained(t, id);
    OneRefused(w, s, id, at, t);
  }

  lemma OneRefused(w: World, s: Server, id: nat, at: int, t: Server)
    requires Running(s) && s.env.now == at && Round(w, s, id, at) == (t, P.QueueFull) && Running(t) && t.env.now == at
    requires Stalled(AllDrained(t), id)
    ensures StalledAfter(w, s, id, at, 1)
  {
    hide Round, AllDrained, Stalled;
    assert Rounds(w, t, id, at, 0) == (t, P.QueueFull);
    RoundExactly(w, s, id, at);
    assert Rounds(w, s, id, at, 1) == (t, P.QueueFull);
  }

  // --------------------------------------------------------------------------------------
  // One write released
  // --------------------------------------------------------------------------------------

  /** Once one has been handed out, the others for the connection are held. */
  lemma HandOutHolds(s: Server, j: nat, id: nat, k: nat)
    requires s.env.log.cap > 0 && j < |s.env.writes| && s.env.writes[j].conn == id && OthersHeld(s, id)
    requires FindConn(s.conns, id) == Some(k) && s.env.cfg.policy.writeSpacing > 0
    ensures var t := HandOut(s, j);
            && AllHeld(t) && |t.env.writes| == |s.env.writes| - 1
            && t.conns == s.conns[k := s.conns[k].(nextWrite := s.env.now + s.env.cfg.policy.writeSpacing)]
            && t.env.now == s.env.now
  {
    hide Held, WireBytes, FindConn;
    HandOutOn(s, j);
    Runs.HandOutEnv(s, j);
    var t := HandOut(s, j);
    FoundOn(s, t, id);
    forall i | 0 <= i < |t.env.writes|
      ensures Held(t, t.env.writes[i])
    {
      var x := t.env.writes[i];
      if x.conn == id {
        HeldByTime(t, x, k);
      } else {
        assert x in s.env.writes;
        HeldOn(s, t, id, x);
      }
    }
  }

  lemma HeldByTime(t: Server, x: Write, k: nat)
    requires FindConn(t.conns, x.conn) == Some(k) && t.env.now < t.conns[k].nextWrite
    ensures Held(t, x)
  {
    hide FindConn;
  }

  lemma {:induction false} PollReleases(s: Server, i: nat, j: nat, id: nat, k: nat, max: nat)
    requires s.env.log.cap > 0 && i <= j < |s.env.writes| && s.env.writes[j].conn == id && OthersHeld(s, id) && max > 0
    requires forall m :: 0 <= m < j ==> s.env.writes[m].conn != id
    requires FindConn(s.conns, id) == Some(k) && s.conns[k].nextWrite <= s.env.now && s.env.cfg.policy.writeSpacing > 0
    ensures PollWritesFrom(s, i, max) == (HandOut(s, j), [s.env.writes[j]])
    decreases j - i
  {
    hide HandOut, FindConn;
    if i < j {
      assert s.env.writes[i].conn != id;
      assert Held(s, s.env.writes[i]);
      PollReleases(s, i + 1, j, id, k, max);
    } else {
      HandOutHolds(s, j, id, k);
      AllHeldStay(HandOut(s, j), j, max - 1);
      assert [s.env.writes[j]] + [] == [s.env.writes[j]];
    }
  }

  /** A drain that finds writes for `id`, and nothing else that is due, hands out one. */
  lemma DrainReleases(s: Server, id: nat, k: nat)
    requires Running(s) && For(s.env.writes, id) != [] && OthersHeld(s, id)
    requires FindConn(s.conns, id) == Some(k) && s.conns[k].nextWrite <= s.env.now && s.env.cfg.policy.writeSpacing > 0
    ensures var u := AllDrained(s);
            && |u.env.writes| == |s.env.writes| - 1
            && u.conns == s.conns[k := s.conns[k].(nextWrite := s.env.now + s.env.cfg.policy.writeSpacing)]
  {
    hide HandOut, FindConn, Held, For, DrainEvents, PollWritesFrom;
    var j := FirstFor(s.env.writes, id);
    PollReleases(s, 0, j, id, k, 8);
    HandOutHolds(s, j, id, k);
    HandOutOn(s, j);
    var t := HandOut(s, j);
    PollOn(s, 0, 8);
    AllHeldStay(t, 0, 8);
    assert DrainWrites(t) == t;
    assert DrainWrites(s) == t;
    DrainEventsOn(t);
  }

  // --------------------------------------------------------------------------------------
  // With spacing off
  // --------------------------------------------------------------------------------------

  /** Draining adds to no one's writes. */
  lemma {:induction false} PollShrinks(s: Server, i: nat, max: nat, j: nat)
    requires i <= |s.env.writes| && s.env.log.cap > 0
    ensures |For(PollWritesFrom(s, i, max).0.env.writes, j)| <= |For(s.env.writes, j)|
    decreases |s.env.writes| - i
  {
    hide HandOut, Held, For;
    if i < |s.env.writes| && max > 0 {
      if Held(s, s.env.writes[i]) {
        PollShrinks(s, i + 1, max, j);
      } else {
        HandOutOn(s, i);
        HandOutShrinks(s, i, j);
        PollShrinks(HandOut(s, i), i, max - 1, j);
      }
    }
  }

  lemma HandOutShrinks(s: Server, i: nat, j: nat)
    requires i < |s.env.writes| && s.env.log.cap > 0
    ensures |For(HandOut(s, i).env.writes, j)| <= |For(s.env.writes, j)|
  {
    hide For, WireBytes, FindConn;
    Runs.HandOutEnv(s, i);
    var ws := s.env.writes;
    assert ws == ws[..i] + ([ws[i]] + ws[i + 1..]);
    ForConcat(ws[..i], [ws[i]] + ws[i + 1..], j);
    ForConcat([ws[i]], ws[i + 1..], j);
    ForConcat(ws[..i], ws[i + 1..], j);
  }

  lemma {:induction false} DrainShrinks(s: Server, j: nat)
    requires s.env.log.cap > 0
    ensures |For(DrainWrites(s).env.writes, j)| <= |For(s.env.writes, j)|
    decreases |s.env.writes|
  {
    hide PollWritesFrom, For;
    PollOn(s, 0, 8);
    PollShrinks(s, 0, 8, j);
    var (t, out) := PollWrites(s, 8);
    if out != [] {
      DrainShrinks(t, j);
    }
  }

  /** Without spacing no poll puts a connection off. */
  lemma {:induction false} PollPutsOffNone(s: Server, i: nat, max: nat)
    requires i <= |s.env.writes| && s.env.log.cap > 0 && s.env.cfg.policy.writeSpacing <= 0
    ensures PollWritesFrom(s, i, max).0.conns == s.conns
    decreases |s.env.writes| - i
  {
    hide Held, WireBytes, FindConn;
    if i < |s.env.writes| && max > 0 {
      if Held(s, s.env.writes[i]) {
        PollPutsOffNone(s, i + 1, max);
      } else {
        HandOutOn(s, i);
        PollPutsOffNone(HandOut(s, i), i, max - 1);
      }
    }
  }

  lemma {:induction false} DrainPutsOffNone(s: Server)
    requires s.env.log.cap > 0 && s.env.cfg.policy.writeSpacing <= 0
    ensures DrainWrites(s).conns == s.conns
    decreases |s.env.writes|
  {
    hide PollWritesFrom;
    PollOn(s, 0, 8);
    PollPutsOffNone(s, 0, 8);
    var (t, out) := PollWrites(s, 8);
    if out != [] {
      DrainPutsOffNone(t);
    }
  }

  /** The connection may be written to, and what others have in the ring does not fill it. */
  predicate Roomy(s: Server, id: nat, k: nat) {
    && s.env.cfg.policy.writeSpacing <= 0 && k < |s.conns|
    && FindConn(s.conns, id) == Some(k) && s.conns[k].nextWrite <= s.env.now && !WritesFull(s.env)
  }

  /** Drained after a refusal, the server has as much room as before it. */
  lemma RoomAgain(s: Server, t: Server, id: nat, k: nat)
    requires AllHeld(s) && Roomy(s, id, k) && Running(t) && t.env.cfg == s.env.cfg && SameOthers(s, t, id)
    requires forall j: nat :: j != id ==> For(t.env.writes, j) == For(s.env.writes, j)
    requires FindConn(t.conns, id) == Some(k) && t.conns[k].nextWrite == s.conns[k].nextWrite
    ensures Roomy(AllDrained(t), id, k)
  {
    hide For, FindConn, Held, DrainWrites, DrainEvents;
    var u := AllDrained(t);
    DrainedOn(t);
    DrainEventsOn(DrainWrites(t));
    DrainPutsOffNone(t);
    FoundOn(t, u, id);
    NoneHeld(u, id, k);
    forall j: nat
      ensures |For(u.env.writes, j)| <= |For(s.env.writes, j)|
    {
      DrainShrinks(t, j);
    }
    LengthByFor(u.env.writes, s.env.writes);
  }

  lemma {:induction false} RoomyEnds(w: World, s: Server, id: nat, k: nat, at: int, n: nat)
    requires Sighted(w, s, id) && s.env.now == at && Roomy(AllDrained(s), id, k) && n > 0
    requires PendingOf(s, id).Some? ==> PendingOf(s, id).value < n
    ensures EndsBy(w, s, id, at, n)
    decreases n
  {
    hide AllDrained, FindConn, FateAhead, Here, F.CutBytes, AtMessage, For, Held, Round, Followed, Rounds, PendingOf;
    DrainedSighted(w, s, id);
    var u := AllDrained(s);
    RoundsStep(w, s, id, at, n);
    RoundExactly(w, s, id, at);
    var (t, status) := Round(w, s, id, at);
    if status == P.QueueFull {
      NotShut(w, s, u, id, k);
      RefusedRound(w, s, u, id, k);
      RoomAgain(u, t, id, k);
      RoomyEnds(w, t, id, k, at, n - 1);
    }
  }

  lemma NotShut(w: World, s: Server, u: Server, id: nat, k: nat)
    requires Running(s) && Sighted(w, u, id) && AllHeld(u) && u == AllDrained(s) && FindConn(u.conns, id) == Some(k)
    requires s.env.now == u.env.now && Round(w, s, id, u.env.now).1 == P.QueueFull
    ensures Ready(w, u, id, k) && Stops(w.lib, u, k)
  {
    hide AllDrained, TakeBytes, Followed, FindConn, FateAhead, Held;
    RoundIs(w, s, id, u.env.now, k);
    Resumed(w, u.env, u.conns[k], u.env.now);
  }

  // --------------------------------------------------------------------------------------
  // The loop decided
  // --------------------------------------------------------------------------------------

  /** A round that is not refused is the last. */
  lemma LastRound(w: World, s: Server, u: Server, id: nat)
    requires Sighted(w, s, id) && Sighted(w, u, id) && u == AllDrained(s) && s.env.now == u.env.now
    requires u.env.closed || FindConn(u.conns, id) == None || !Stops(w.lib, u, FindConn(u.conns, id).value)
    ensures EndsBy(w, s, id, s.env.now, 1)
  {
    hide AllDrained, TakeBytes, Followed, FindConn, FateAhead, Rounds;
    RoundsStep(w, s, id, s.env.now, 1);
    if !u.env.closed && FindConn(u.conns, id).Some? {
      var k := FindConn(u.conns, id).value;
      RoundIs(w, s, id, s.env.now, k);
      Resumed(w, u.env, u.conns[k], s.env.now);
    }
  }

  lemma {:induction false} EndsStays(w: World, s: Server, id: nat, at: int, n: nat)
    requires Running(s) && s.env.now == at && EndsBy(w, s, id, at, n)
    ensures EndsBy(w, s, id, at, n + 1)
    decreases n
  {
    hide Round, Running;
    if n == 0 {
      NoRounds(w, s, id, at);
    } else {
      RoundsStep(w, s, id, at, n);
      RoundsStep(w, s, id, at, n + 1);
      var (t, status) := Round(w, s, id, at);
      if status == P.QueueFull {
        EndsStays(w, t, id, at, n - 1);
      }
    }
  }

  /** A refused round, a write released by it, and what the second round finds. */
  lemma SecondRound(w: World, s: Server, u: Server, id: nat, k: nat)
    requires Running(s) && u == AllDrained(s) && Ready(w, u, id, k) && s.env.now == u.env.now && Stops(w.lib, u, k)
    requires !WritesFull(u.env) && u.conns[k].nextWrite <= u.env.now && u.env.cfg.policy.writeSpacing > 0
    ensures var (t, status) := Round(w, s, id, u.env.now);
            && status == P.QueueFull && Sighted(w, t, id) && t.env.now == u.env.now
            && var v := AllDrained(t);
               && Ready(w, v, id, k) && v.env.now == t.env.now && v.conns[k].nextWrite > v.env.now
               && (Stops(w.lib, v, k) <==> SecondFate(w.lib, u, u.conns[k]).Blocked?)
  {
    hide AllDrained, FindConn, FateAhead, Here, F.CutBytes, AtMessage, For, Held, Round, Followed, FateOf;
    RefusedRound(w, s, u, id, k);
    var t := Round(w, s, id, u.env.now).0;
    NoneHeld(u, id, k);
    SomeFor(u.env.writes, t.env.writes, id);
    DrainReleases(t, id, k);
    DrainedSighted(w, t, id);
    SameFate(w.lib, u, t, AllDrained(t), id, k);
  }

  /** Put off, the connection has the same before it, and one slot is free. */
  lemma SameFate(lib: NumLib, u: Server, t: Server, v: Server, id: nat, k: nat)
    requires k < |u.conns| && u.conns[k].scan <= |u.conns[k].rx| && Stops(lib, u, k) && StoppedIn(lib, u, t, id, k)
    requires !WritesFull(u.env) && |v.env.writes| == |t.env.writes| - 1 && v.env.cfg == t.env.cfg
    requires k < |t.conns| == |v.conns| && v.conns[k] == t.conns[k].(nextWrite := v.conns[k].nextWrite)
    ensures v.conns[k].scan <= |v.conns[k].rx|
    ensures FateAhead(lib, v.env, v.conns[k], []) == SecondFate(lib, u, u.conns[k])
  {
    hide FindConn, F.CutBytes, AtMessage, FateOf, SameOthers;
    var d := v.conns[k];
    assert Here(d) == Here(t.conns[k]);
    assert d.rx[0..] + [] == d.rx;
  }

  /**
   * Whether the loop of drains and resumed calls ends is told by the drained server and by what the
   * connection has pending; with spacing on, two rounds end it or nothing does.
   */
  lemma EndsExactly(w: World, s: Server, id: nat, at: int)
    requires Sighted(w, s, id) && s.env.now == at
    ensures Running(AllDrained(s))
    ensures (exists n: nat :: EndsBy(w, s, id, at, n)) <==> Settles(w.lib, AllDrained(s), id)
    ensures s.env.cfg.policy.writeSpacing > 0 ==>
              ((exists n: nat :: EndsBy(w, s, id, at, n)) <==> EndsBy(w, s, id, at, 2))
  {
    hide AllDrained, FindConn, FateAhead, Here, F.CutBytes, Round, Followed, EndsBy, StalledAfter, PendingOf,
         AllHeld, SecondFate;
    DrainedSighted(w, s, id);
    var u := AllDrained(s);
    if u.env.closed || FindConn(u.conns, id) == None || !Stops(w.lib, u, FindConn(u.conns, id).value) {
      LastRound(w, s, u, id);
      EndsStays(w, s, id, at, 1);
    } else {
      var k := FindConn(u.conns, id).value;
      if WritesFull(u.env) || u.conns[k].nextWrite > at {
        StopStalls(w, s, u, id, k);
        NeverAfter(w, s, id, at, 1);
      } else if u.env.cfg.policy.writeSpacing > 0 {
        TwoDecide(w, s, u, id, k);
      } else {
        var n: nat := if PendingOf(s, id).Some? && PendingOf(s, id).value >= 0 then PendingOf(s, id).value + 1 else 1;
        RoomyEnds(w, s, id, k, at, n);
      }
    }
  }

  lemma NeverAfter(w: World, s: Server, id: nat, at: int, m: nat)
    requires Running(s) && s.env.now == at && StalledAfter(w, s, id, at, m)
    ensures forall n: nat :: !EndsBy(w, s, id, at, n)
  {
    hide StalledAfter, EndsBy, Running;
    forall n: nat
      ensures !EndsBy(w, s, id, at, n)
    {
      StalledNeverEnds(w, s, id, at, m, n);
    }
  }

  lemma TwoDecide(w: World, s: Server, u: Server, id: nat, k: nat)
    requires Sighted(w, s, id) && u == AllDrained(s) && Ready(w, u, id, k) && s.env.now == u.env.now && Stops(w.lib, u, k)
    requires !WritesFull(u.env) && u.conns[k].nextWrite <= u.env.now && u.env.cfg.policy.writeSpacing > 0
    ensures (exists n: nat :: EndsBy(w, s, id, u.env.now, n)) <==> !SecondFate(w.lib, u, u.conns[k]).Blocked?
    ensures (exists n: nat :: EndsBy(w, s, id, u.env.now, n)) <==> EndsBy(w, s, id, u.env.now, 2)
  {
    hide AllDrained, FindConn, FateAhead, Here, F.CutBytes, Round, Followed, EndsBy, StalledAfter, AllHeld, SecondFate;
    var at := u.env.now;
    SecondRound(w, s, u, id, k);
    var t := Round(w, s, id, at).0;
    var v := AllDrained(t);
    RoundsStep(w, s, id, at, 2);
    if Stops(w.lib, v, k) {
      StopStalls(w, t, v, id, k);
      NeverAfter(w, t, id, at, 1);
      forall n: nat
        ensures !EndsBy(w, s, id, at, n)
      {
        if n == 0 {
          NoRounds(w, s, id, at);
        } else {
          RoundsStep(w, s, id, at, n);
        }
      }
    } else {
      LastRound(w, t, v, id);
      assert EndsBy(w, s, id, at, 2);
    }
  }
}
