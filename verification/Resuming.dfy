/**
 * Why a host that drains and resumes gets on: with spacing off nothing is held back, and a resumed
 * call that is refused again has consumed some of what was pending.
 */
module Resuming {
  import opened Bytes
  import P = Protocol
  import opened Events
  import opened EventLog
  import opened Hub
  import opened Conns
  import Frame
  import opened Lives
  import opened Serving
  import opened Server
  import Runs
  import Promises

  /** Nothing is held back now, nor will be: spacing is off and every connection was opened by now. */
  predicate Prompt(s: Server) {
    && s.env.log.cap > 0 && s.env.cfg.policy.writeSpacing <= 0 && s.env.cfg.writeRing > 0
    && Scanned(s)
    && forall k :: 0 <= k < |s.conns| && s.conns[k].used ==> s.conns[k].nextWrite <= s.env.now
  }

  lemma NothingHeld(s: Server, x: Write)
    requires Prompt(s)
    ensures !Held(s, x)
  {
    hide FindFrom;
  }

  /** Handing out with spacing off leaves the connections alone. */
  lemma HandOutPrompt(s: Server, i: nat)
    requires Prompt(s) && i < |s.env.writes|
    ensures Prompt(HandOut(s, i)) && HandOut(s, i).conns == s.conns
    ensures HandOut(s, i).env.now == s.env.now && HandOut(s, i).env.cfg == s.env.cfg
    ensures |HandOut(s, i).env.writes| == |s.env.writes| - 1
  {
    hide Logs.Logged, EnvLife;
    Runs.HandOutEnv(s, i);
  }

  lemma {:induction false} PollFromPrompt(s: Server, i: nat, max: nat)
    requires Prompt(s) && i <= |s.env.writes|
    ensures var (t, out) := PollWritesFrom(s, i, max);
            && Prompt(t) && t.conns == s.conns && t.env.now == s.env.now && t.env.cfg == s.env.cfg
            && |t.env.writes| == |s.env.writes| - |out| && |out| <= max
            && (out == [] ==> max == 0 || i == |s.env.writes|)
    decreases |s.env.writes| - i
  {
    hide Prompt, HandOut, Held;
    if i < |s.env.writes| && max > 0 {
      NothingHeld(s, s.env.writes[i]);
      HandOutPrompt(s, i);
      PollFromPrompt(HandOut(s, i), i, max - 1);
    }
  }

  /** A poll that returns nothing has found nothing. */
  lemma PollPrompt(s: Server, max: nat)
    requires Prompt(s) && max > 0
    ensures var (t, out) := PollWrites(s, max);
            && Prompt(t) && t.conns == s.conns && t.env.now == s.env.now && t.env.cfg == s.env.cfg
            && |t.env.writes| == |s.env.writes| - |out|
            && (out == [] ==> s.env.writes == [])
  {
    hide Prompt, PollWritesFrom;
    PollFromPrompt(s, 0, max);
  }

  // --------------------------------------------------------------------------------------
  // Progress
  // --------------------------------------------------------------------------------------

  lemma {:induction false} FramePendingMoves(w: World, e: Env, c: Conn, at: int)
    requires c.scan <= |c.rx|
    ensures var t := FramePending(w, e, c, at);
            && t.conn.scan <= |t.conn.rx| && Unscanned(t.conn) <= Unscanned(c)
            && (t.ending == Refused && !WritesFull(e) ==> Unscanned(t.conn) < Unscanned(c))
    decreases Unscanned(c)
  {
    hide FrameByte, Frame.Advance, WritesFull;
    if c.scan != |c.rx| {
      if !Frame.InMessage(c.framer) && IsWs(c.rx[c.scan]) {
        FramePendingMoves(w, e, Pass(c), at);
      } else if Frame.InMessage(c.framer) || !WritesFull(e) {
        var d := if Frame.InMessage(c.framer) then c else Compact(c);
        FrameByteShrinks(w, e, d, at);
        FrameByteKeeps(w, e, d, at);
        var (e1, d1, end) := FrameByte(w, e, d, at);
        if end == None {
          FramePendingMoves(w, e1, d1, at);
        } else {
          assert d1.rx == [] && Unscanned(d1) <= 0;
        }
      }
    }
  }

  lemma AbsorbNothing(w: World, e: Env, c: Conn, at: int)
    requires c.scan <= |c.rx|
    ensures var (f, d, rest, full) := Absorb(w, e, c, [], at);
            && rest == []
            && (full ==> FramePending(w, e, c, at).ending == Refused && d == FramePending(w, e, c, at).conn)
  {
    hide FramePending, Room;
    var none: seq<Byte> := [];
    assert none[..0] == [];
    NothingAppended(c);
    FramePendingKeeps(w, e, c, at);
    var t := FramePending(w, e, c, at);
    if t.ending == Discarded {
      NothingAppended(t.conn);
      EmptyDrains(w, t.env, t.conn, at);
    }
  }

  lemma NothingAppended(c: Conn)
    ensures Append(c, []) == c
  {
    assert c.rx + [] == c.rx && c.story.fed + [] == c.story.fed;
  }

  lemma EmptyDrains(w: World, e: Env, c: Conn, at: int)
    requires c.rx == [] && c.scan <= |c.rx|
    ensures FramePending(w, e, c, at).ending == Drained
  {
  }

  /** Resumed with a slot free and refused again, a connection has fewer bytes pending than before. */
  lemma ResumeMoves(w: World, e: Env, c: Conn, at: int)
    requires c.scan <= |c.rx| && !WritesFull(e)
    ensures var (f, d, status) := TakeBytes(w, e, c, [], at);
            status == P.QueueFull ==> d.scan <= |d.rx| && Unscanned(d) < Unscanned(c)
  {
    hide FramePending, Absorb, WritesFull, Say;
    var c0 := c.(story := c.story.(offered := c.story.offered + []));
    AbsorbNothing(w, e, c0, at);
    FramePendingMoves(w, e, c0, at);
    NothingAppended(Absorb(w, e, c0, [], at).1);
  }

  // --------------------------------------------------------------------------------------
  // Calls
  // --------------------------------------------------------------------------------------

  /** What the calls of a replay keep. */
  predicate Later(s: Server, t: Server, at: int) {
    Prompt(t) && t.env.cfg == s.env.cfg && (t.env.now == s.env.now || t.env.now == at)
  }

  lemma OnBytesPrompt(w: World, s: Server, id: nat, data: seq<Byte>, at: int)
    requires Prompt(s) && s.env.now <= at && Scanned(s)
    ensures var (t, status) := OnBytes(w, s, id, data, at);
            && Later(s, t, at) && FindConn(t.conns, id) == FindConn(s.conns, id)
            && (status == P.QueueFull ==> FindConn(s.conns, id).Some? && t.env.now == at)
            && (status == P.QueueFull && data == [] && s.env.writes == [] ==>
                  var k := FindConn(s.conns, id).value;
                  k < |t.conns| && Unscanned(t.conns[k]) < Unscanned(s.conns[k]))
  {
    hide TakeBytes, Kept, FindConn;
    if !s.env.closed && FindConn(s.conns, id).Some? {
      var k := FindConn(s.conns, id).value;
      var e, c := s.env.(now := at), s.conns[k];
      TakeBytesKept(w, e, c, data, at);
      var (f, d, status) := TakeBytes(w, e, c, data, at);
      KeptFields(e, c, f, d);
      var t := OnBytes(w, s, id, data, at).0;
      Runs.FindSame(s.conns, t.conns, id, 0);
      assert FindConn(t.conns, id) == FindConn(s.conns, id) by { FoundFrom(s.conns, t.conns, id); }
      if data == [] && s.env.writes == [] {
        ResumeMoves(w, e, c, at);
      }
    }
  }

  lemma FoundFrom(a: seq<Conn>, b: seq<Conn>, id: nat)
    requires FindFrom(a, id, 0) == FindFrom(b, id, 0)
    ensures FindConn(a, id) == FindConn(b, id)
  {
  }

  lemma OpenPrompt(w: World, s: Server, id: nat, peer: seq<Byte>, at: int)
    requires Prompt(s) && s.env.now <= at
    ensures Later(s, Open(w, s, id, peer, at).0, at)
  {
    hide FindConn, FreeFrom, SayConnection, Announce, Field, CStr;
    if !s.env.closed && id != CONN_NONE && id != CONN_ALL && FindConn(s.conns, id) == None && FreeFrom(s.conns, 0).Some? {
      var c := Fresh(id, peer, at);
      var e := s.env.(now := at);
      SayConnectionLives(w, e, id, ConnectionOpened(c.info), at, id);
      AnnounceFields(w, SayConnection(w, e, id, ConnectionOpened(c.info), at), id, at);
    }
  }

  lemma AnnounceFields(w: World, e: Env, id: nat, at: int)
    requires e.log.cap > 0
    ensures var f := Announce(w, e, id, at); f.cfg == e.cfg && f.now == e.now && f.log.cap == e.log.cap
  {
    hide SendPlayer, SendSession, Kept, Message.HasAnything;
    var c := NO_CONN.(info := NO_CONN.info.(conn := id));
    Runs.SendPlayerKept(w, e, c, e.player, OnConnect, at);
    var e1 := SendPlayer(w, e, id, e.player, OnConnect, at);
    KeptFields(e, c, e1, c);
    Runs.SendSessionKept(w, e, c, SessionActive, OnConnect, at);
    KeptFields(e, c, SendSession(w, e, id, SessionActive, OnConnect, at), c);
    Runs.SendSessionKept(w, e1, c, SessionActive, OnConnect, at);
    KeptFields(e1, c, SendSession(w, e1, id, SessionActive, OnConnect, at), c);
  }

  lemma ClosedPrompt(w: World, s: Server, id: nat, cause: CloseCause, at: int)
    requires Prompt(s) && s.env.now <= at
    ensures Later(s, Closed(w, s, id, cause, at).0, at)
  {
    hide FindConn, SayConnection, DropWritesFor;
    if !s.env.closed && FindConn(s.conns, id).Some? {
      var k := FindConn(s.conns, id).value;
      var c := s.conns[k];
      var e := s.env.(now := at);
      SayConnectionLives(w, e, c.info.conn, ConnectionClosed(c.info, cause), at, id);
      Runs.DropKeepsEnv(SayConnection(w, e, c.info.conn, ConnectionClosed(c.info, cause), at), c.info.conn);
    }
  }

  // --------------------------------------------------------------------------------------
  // With spacing on
  // --------------------------------------------------------------------------------------

  /** The next pending byte begins a message. */
  predicate AtMessage(c: Conn) {
    c.scan < |c.rx| && !Frame.InMessage(c.framer) && !IsWs(c.rx[c.scan])
  }

  /** The write ring is full, every write in it is held back, and a connection has a message pending. */
  predicate Stalled(s: Server, id: nat) {
    && !s.env.closed && Scanned(s) && WritesFull(s.env)
    && (forall i :: 0 <= i < |s.env.writes| ==> Held(s, s.env.writes[i]))
    && FindConn(s.conns, id).Some? && AtMessage(s.conns[FindConn(s.conns, id).value])
  }

  lemma {:induction false} AllHeldStay(s: Server, i: nat, max: nat)
    requires i <= |s.env.writes| && forall j :: 0 <= j < |s.env.writes| ==> Held(s, s.env.writes[j])
    ensures PollWritesFrom(s, i, max) == (s, [])
    decreases |s.env.writes| - i
  {
    hide Held, HandOut;
    if i < |s.env.writes| && max > 0 {
      AllHeldStay(s, i + 1, max);
    }
  }

  lemma ResumeStays(w: World, e: Env, c: Conn, at: int)
    requires AtMessage(c) && WritesFull(e)
    ensures var (f, d, status) := TakeBytes(w, e, c, [], at);
            && status == P.QueueFull && AtMessage(d) && Unscanned(d) == Unscanned(c)
            && d.used == c.used && d.info == c.info && d.nextWrite == c.nextWrite && d.scan <= |d.rx|
            && f == e.(log := f.log)
  {
    hide Emit, WritesFull, Frame.InMessage;
    var none: seq<Byte> := [];
    assert none[..0] == [] && none[0..] == [];
    var c0 := c.(story := c.story.(offered := c.story.offered + none));
    NothingAppended(c0);
    var t := FramePending(w, e, c0, at);
    assert t == Turn(e, Compact(c0), Refused);
    assert Absorb(w, e, c0, none, at) == (e, t.conn, none, true);
    NothingAppended(t.conn);
  }

  /**
   * A stalled server stays so at this time: polling hands out nothing, resuming is refused and takes
   * nothing. A host that drains and resumes without advancing the clock gets no further.
   */
  lemma StalledForGood(w: World, s: Server, id: nat, max: nat)
    requires Stalled(s, id)
    ensures PollWrites(s, max) == (s, [])
    ensures Stalled(PollEvents(s, max).0, id)
    ensures var (t, status) := OnBytes(w, s, id, [], s.env.now);
            && status == P.QueueFull && Stalled(t, id) && t.env.writes == s.env.writes
  {
    hide TakeBytes, FindConn, FindFrom, EventLog.Poll, AtMessage;
    AllHeldStay(s, 0, max);
    var k := FindConn(s.conns, id).value;
    ResumeStays(w, s.env.(now := s.env.now), s.conns[k], s.env.now);
    var t := OnBytes(w, s, id, [], s.env.now).0;
    assert s.env.(now := s.env.now) == s.env;
    forall other: nat
      ensures FindConn(t.conns, other) == FindConn(s.conns, other)
    {
      Runs.FindSame(s.conns, t.conns, other, 0);
      FoundFrom(s.conns, t.conns, other);
    }
    forall i | 0 <= i < |t.env.writes|
      ensures Held(t, t.env.writes[i])
    {
      assert Held(s, s.env.writes[i]);
    }
  }
}
