/** What a host may rely on over every run, spelled out. */
module Promises {
  import opened Bytes
  import opened Message
  import Numbers
  import opened Events
  import Rings
  import opened EventLog
  import WireLog
  import opened Hub
  import opened Conns
  import opened Frame
  import opened Logs
  import opened Lives
  import opened Mails
  import opened Accounts
  import opened Captures
  import opened Serving
  import opened Streams
  import opened Delivery
  import Redact
  import Server
  import opened Runs

  // --------------------------------------------------------------------------------------
  // Polled writes
  // --------------------------------------------------------------------------------------

  function Polls(out: seq<Write>, at: int): (r: seq<Hub.Step>)
    ensures |r| == |out|
  {
    if out == [] then [] else [Polled(out[0], at)] + Polls(out[1..], at)
  }

  /** What a poll returns is what the trace says was polled, and no more than was asked for. */
  lemma {:induction false} PolledAsTraced(s: Server.Server, i: nat, max: nat)
    requires i <= |s.env.writes| && s.env.log.cap > 0
    ensures var (t, out) := Server.PollWritesFrom(s, i, max);
            t.env.trace == s.env.trace + Polls(out, s.env.now) && |out| <= max && |t.env.writes| == |s.env.writes| - |out|
    decreases |s.env.writes| - i
  {
    hide Server.HandOut, Server.Held, Logged, EnvLife;
    if i < |s.env.writes| && max > 0 {
      if Server.Held(s, s.env.writes[i]) {
        PolledAsTraced(s, i + 1, max);
      } else {
        HandOutEnv(s, i);
        var u := Server.HandOut(s, i);
        PolledAsTraced(u, i, max - 1);
        var (t, rest) := Server.PollWritesFrom(u, i, max - 1);
        var x := s.env.writes[i];
        assert ([x] + rest)[1..] == rest;
        assert s.env.trace + [Polled(x, s.env.now)] + Polls(rest, s.env.now)
            == s.env.trace + ([Polled(x, s.env.now)] + Polls(rest, s.env.now));
      }
    } else {
      assert s.env.trace + [] == s.env.trace;
    }
  }

  /** A poll takes down in the wire log, for each write it hands out and in order, one run of that write's bytes. */
  lemma {:induction false} PollTakesDown(s: Server.Server, i: nat, max: nat)
    requires i <= |s.env.writes| && s.env.log.cap > 0 && s.env.cfg.wireRing > 0
    ensures var (t, out) := Server.PollWritesFrom(s, i, max);
            && s.env.wire.pushed <= t.env.wire.pushed
            && TakenDown(t.env.wire.pushed[|s.env.wire.pushed|..], Polls(out, s.env.now))
    decreases |s.env.writes| - i
  {
    hide Server.HandOut, Server.Held, Logged, EnvLife, TakesDown;
    if i < |s.env.writes| && max > 0 {
      if Server.Held(s, s.env.writes[i]) {
        PollTakesDown(s, i + 1, max);
      } else {
        var x, u := s.env.writes[i], Server.HandOut(s, i);
        HandOutEnv(s, i);
        HandOutTaken(s, i);
        PollTakesDown(u, i, max - 1);
        var (t, rest) := Server.PollWritesFrom(u, i, max - 1);
        var a, b := u.env.wire.pushed[|s.env.wire.pushed|..], t.env.wire.pushed[|u.env.wire.pushed|..];
        TakenOne(a, x, s.env.now);
        TakenConcat(a, b, [Polled(x, s.env.now)], Polls(rest, s.env.now));
        assert t.env.wire.pushed[|s.env.wire.pushed|..] == a + b;
        assert ([x] + rest)[1..] == rest;
      }
    }
  }

  lemma HandOutTaken(s: Server.Server, i: nat)
    requires i < |s.env.writes| && s.env.cfg.wireRing > 0
    ensures var f := Server.HandOut(s, i).env;
            && s.env.wire.pushed <= f.wire.pushed
            && TakesDown(f.wire.pushed[|s.env.wire.pushed|..], s.env.writes[i], s.env.now)
  {
    hide WireBytes, TakesDown, Carries, Server.FindConn;
    var e, x := s.env, s.env.writes[i];
    WireCarries(e, x.conn, ServerToClient, Redact.Clear(x.data), e.now, false);
    WriteCarried(Server.HandOut(s, i).env.wire.pushed[|e.wire.pushed|..], x, e.now);
  }

  /**
   * Over every run with the wire log on: the chunks that ever carried the server's bytes are those
   * of the writes handed out, one run for each and in order, of the write's connection, at the time
   * of the poll, unmasked, their data the write's.
   */
  lemma SentIsCaptured(w: World, cfg: Config, calls: seq<Server.Call>, s: Server.Server)
    requires Server.Usable(cfg) && cfg.policy.closeThreshold < WORD
    requires forall i :: 0 <= i < |calls| ==> InTime(calls[i])
    requires Reaches(w, cfg, calls, s) && s.env.cfg.wireRing > 0
    ensures TakenDown(Outgoing(s.env.wire.pushed), Handed(s.env.trace))
  {
    hide Logged, SlotInv, IdInv, Distinct, Outgoing, Handed, TakenDown;
    EveryRun(w, cfg, calls, s);
  }

  /** After a poll either as many writes were handed out as were asked for, or every one left is held back. */
  lemma {:induction false} PollLeavesHeld(w: World, s: Server.Server, i: nat, max: nat)
    requires Inv(w, s) && i <= |s.env.writes| && HeldBefore(s, i)
    ensures var (t, out) := Server.PollWritesFrom(s, i, max);
            |out| == max || forall j :: 0 <= j < |t.env.writes| ==> Server.Held(t, t.env.writes[j])
    decreases |s.env.writes| - i
  {
    hide Inv, Server.HandOut, Server.Held, IsOpen;
    if i < |s.env.writes| && max > 0 {
      if Server.Held(s, s.env.writes[i]) {
        PollSteps(s, i, max);
        PollLeavesHeld(w, s, i + 1, max);
      } else {
        NextHeld(w, s, i);
        PollSteps(s, i, max);
        PollLeavesHeld(w, Server.HandOut(s, i), i, max - 1);
      }
    }
  }

  lemma PollSteps(s: Server.Server, i: nat, max: nat)
    requires i < |s.env.writes| && max > 0 && (!Server.Held(s, s.env.writes[i]) ==> i <= |Server.HandOut(s, i).env.writes|)
    ensures var (t, out) := Server.PollWritesFrom(s, i, max);
            if Server.Held(s, s.env.writes[i]) then (t, out) == Server.PollWritesFrom(s, i + 1, max)
            else
              var (u, rest) := Server.PollWritesFrom(Server.HandOut(s, i), i, max - 1);
              t == u && |out| == |rest| + 1
  {
    hide Server.HandOut, Server.Held;
  }

  /** A write handed out leaves a server on which the ones before it are held back still. */
  lemma NextHeld(w: World, s: Server.Server, i: nat)
    requires Inv(w, s) && i < |s.env.writes| && HeldBefore(s, i) && !Server.Held(s, s.env.writes[i])
    ensures var u := Server.HandOut(s, i); Inv(w, u) && |u.env.writes| == |s.env.writes| - 1 && HeldBefore(u, i)
  {
    hide Inv, Server.HandOut, Server.Held, IsOpen, HeldBefore;
    InvConfig(w, s);
    WriteIsOpen(w, s, i);
    FoundOpen(s.conns, s.env.writes[i].conn);
    HandOutKeeps(w, s, i);
    HandOutHolds(s, i);
    HandOutEnv(s, i);
  }

  /**
   * A full poll of any server reached leaves exactly the writes whose connection was polled for, or
   * was opened, too short a time ago: nothing else is held back.
   */
  lemma HeldIsRecent(w: World, s: Server.Server, x: Write)
    requires Inv(w, s) && x in s.env.writes
    ensures Server.Held(s, x)
       <==> var last, spacing := EnvMail(s.env, x.conn).last, s.env.cfg.policy.writeSpacing;
            exists k :: && 0 <= k < |s.conns| && s.conns[k].used && s.conns[k].info.conn == x.conn
                        && s.env.now < if spacing > 0 && last.Some? then last.value + spacing else s.conns[k].info.openedUs
  {
    hide Logged, Captured, IdInv, Attuned, Delivery.Followed, EnvMail, Server.FindFrom;
    var k := Server.FindConn(s.conns, x.conn);
    if k.Some? {
      assert SlotInv(w, s.env, s.conns[k.value]);
    }
    forall i | 0 <= i < |s.conns| && s.conns[i].used && s.conns[i].info.conn == x.conn
      ensures k == Some(i)
    {
    }
  }

  /**
   * Over every run, and for every connection id: what has been polled for it since its last
   * connection left, followed by what is still in the ring, is what was queued for it, in order;
   * successive polls were at least the policy's spacing apart; and what is in the ring is
   * addressed to open connections.
   */
  lemma WritesInOrder(w: World, cfg: Config, calls: seq<Server.Call>, s: Server.Server, id: nat)
    requires Server.Usable(cfg) && cfg.policy.closeThreshold < WORD
    requires forall i :: 0 <= i < |calls| ==> InTime(calls[i])
    requires Reaches(w, cfg, calls, s)
    ensures EnvMail(s.env, id).queued == EnvMail(s.env, id).polled + For(s.env.writes, id)
    ensures EnvMail(s.env, id).spaced
    ensures forall i :: 0 <= i < |s.env.writes| ==> IsOpen(s.conns, s.env.writes[i].conn)
  {
    hide Logged, SlotInv, IsOpen, For, MailOf, Orderly;
    EveryRun(w, cfg, calls, s);
    assert IdInv(s.env, IsOpen(s.conns, id), id);
    forall i | 0 <= i < |s.env.writes|
      ensures IsOpen(s.conns, s.env.writes[i].conn)
    {
      WriteIsOpen(w, s, i);
    }
  }

  // --------------------------------------------------------------------------------------
  // Events
  // --------------------------------------------------------------------------------------

  /**
   * Over every run, of every connection id, no event came out of turn: closings answer openings; idle
   * and active have alternated, beginning with idle; a name was told once and its changes complained
   * of, a state told when it changed, from the one told before; errors were numbered in their run, and
   * a close was requested exactly when that run stood at the threshold, so at most once while it is
   * shorter than the counter's range.
   */
  lemma LivesAreOrderly(w: World, cfg: Config, calls: seq<Server.Call>, s: Server.Server, id: nat)
    requires Server.Usable(cfg) && cfg.policy.closeThreshold < WORD
    requires forall i :: 0 <= i < |calls| ==> InTime(calls[i])
    requires Reaches(w, cfg, calls, s)
    ensures var l := EnvLife(s.env, id);
            && l.sound && l.asked == TimesAsked(l.run, s.env.cfg.policy.closeThreshold)
            && (l.run < WORD ==> l.asked == if 0 < s.env.cfg.policy.closeThreshold <= l.run then 1 else 0)
  {
    hide Logged, SlotInv, IsOpen, InOrder, LifeOf;
    EveryRun(w, cfg, calls, s);
    assert IdInv(s.env, IsOpen(s.conns, id), id);
    assert ConfigInv(s.env);
  }

  lemma InvAccounted(w: World, s: Server.Server)
    requires Inv(w, s)
    ensures Accounted(s.env.log)
  {
    hide SlotInv, IdInv, Distinct, Accounted;
  }

  /**
   * Over every run the event ring holds the last events emitted, sequence is polled plus dropped
   * plus held, the drop counter is exact, and since a poll last left it empty there has been one
   * complaint if anything was dropped and none otherwise.
   */
  lemma EventsAccounted(w: World, cfg: Config, calls: seq<Server.Call>, s: Server.Server)
    requires Server.Usable(cfg) && cfg.policy.closeThreshold < WORD
    requires forall i :: 0 <= i < |calls| ==> InTime(calls[i])
    requires Reaches(w, cfg, calls, s)
    ensures var l := s.env.log;
            && |l.emitted| == l.taken + l.gone + |l.items| && l.items == l.emitted[l.taken + l.gone..]
            && l.sequence == (l.taken + l.gone + |l.items|) % WORD && l.dropped == l.gone % WORD
            && l.mark <= |l.emitted| && Complaints(l.emitted[l.mark..], EventsDropped) <= 1
            && forall i :: 0 <= i < |l.items| ==> l.items[i].sequence == (l.taken + l.gone + i) % WORD
  {
    hide Inv, Reaches, Server.Usable, Complaints;
    EveryRun(w, cfg, calls, s);
    InvAccounted(w, s);
    var l := s.env.log;
    forall i | 0 <= i < |l.items|
      ensures l.items[i].sequence == (l.taken + l.gone + i) % WORD
    {
      assert l.items[i] == l.emitted[l.taken + l.gone + i];
    }
  }

  /**
   * Over every run with the wire log on: what was polled from it are the chunks pushed, each with
   * LOST exactly if the chunk pushed before it was not the one polled before it, in a ring of one
   * as well; and the same account as for events.
   */
  lemma ChunksAccounted(w: World, cfg: Config, calls: seq<Server.Call>, s: Server.Server, i: nat)
    requires Server.Usable(cfg) && cfg.policy.closeThreshold < WORD
    requires forall k :: 0 <= k < |calls| ==> InTime(calls[k])
    requires Reaches(w, cfg, calls, s) && s.env.cfg.wireRing > 0
    ensures var l := s.env.wire;
            && |l.pushed| == l.taken + l.gone + |l.items|
            && l.sequence == (l.taken + l.gone + |l.items|) % WORD && l.dropped == l.gone % WORD
            && l.mark <= |s.env.log.emitted| && Complaints(s.env.log.emitted[l.mark..], WireDropped) <= 1
    ensures 0 < i < |s.env.wire.given| ==>
              var a, b := s.env.wire.given[i - 1], s.env.wire.given[i];
              && a.ordinal + 1 == b.after <= b.ordinal
              && (b.chunk.lost <==> b.ordinal != a.ordinal + 1)
              && (b.ordinal - b.after < WORD ==> (b.chunk.lost <==> b.chunk.sequence != Inc32(a.chunk.sequence)))
  {
    hide SlotInv, IdInv, Distinct, Complaints, Accounted, WireLog.Faithful, Captured;
    EveryRun(w, cfg, calls, s);
    assert WireLog.Traced(s.env.wire);
    if 0 < i < |s.env.wire.given| {
      WireLog.LostBySequence(s.env.wire.pushed, s.env.wire.given, s.env.wire.upTo, i);
    }
  }

  // --------------------------------------------------------------------------------------
  // Streams
  // --------------------------------------------------------------------------------------

  /**
   * Over every run, of every open connection: an object half received starts at the front of the
   * buffer and the framer stands where a fresh one would, and unless bytes went missing an error
   * was reported exactly if the stream gave reason to; without one, what was delivered is what
   * repeated `gsp_frame_find` cuts from everything the host ever handed over.
   */
  lemma ConnectionsFollow(w: World, cfg: Config, calls: seq<Server.Call>, s: Server.Server, k: nat)
    requires Server.Usable(cfg) && cfg.policy.closeThreshold < WORD
    requires forall i :: 0 <= i < |calls| ==> InTime(calls[i])
    requires Reaches(w, cfg, calls, s) && k < |s.conns| && s.conns[k].used
    ensures var c, max := s.conns[k], s.env.cfg.maxMessage;
            && c.scan <= |c.rx| <= max + 1
            && (InMessage(c.framer) ==> c.scan == |c.rx| <= max)
            && CutBytes(NOTHING, c.rx[..c.scan]) == Cut([], c.rx[..c.scan], c.framer, false)
            && (c.story.missing == 0 && c.scan == |c.rx| ==>
                  && (c.story.errors == 0 <==> Good(w.lib, max, c.story.offered))
                  && (c.story.errors == 0 ==> c.story.delivered == FindAll(c.story.offered)))
            && (c.story.missing == 0 && c.story.errors == 0 ==> c.story.delivered <= FindAll(c.story.offered))
  {
    hide Logged, IdInv, Distinct, Attuned, Paced, Good;
    EveryRun(w, cfg, calls, s);
    var c, max := s.conns[k], s.env.cfg.maxMessage;
    assert SlotInv(w, s.env, c);
    assert c.rx[..0] == [];
    if c.story.missing == 0 && c.scan == |c.rx| {
      StreamDelivered(w.lib, max, c);
    }
    if c.story.missing == 0 && c.story.errors == 0 {
      StreamPending(w.lib, max, c);
    }
  }

  /**
   * Over every run, of every open connection, errors and losses or not: of the bytes fed since its
   * buffer was last emptied the last wait in the buffer, the others gave no reason for an error, and
   * what was delivered since is what repeated `gsp_frame_find` cuts from them.
   */
  lemma ObjectsFollow(w: World, cfg: Config, calls: seq<Server.Call>, s: Server.Server, k: nat)
    requires Server.Usable(cfg) && cfg.policy.closeThreshold < WORD
    requires forall i :: 0 <= i < |calls| ==> InTime(calls[i])
    requires Reaches(w, cfg, calls, s) && k < |s.conns| && s.conns[k].used
    ensures var c, max := s.conns[k], s.env.cfg.maxMessage;
            && c.scan <= |c.rx| && Unscanned(c) <= |c.story.fed|
            && c.story.fed == Seen(c) + c.rx[c.scan..]
            && Good(w.lib, max, Seen(c)) && c.story.delivered == FindAll(Seen(c))
  {
    hide Inv, Reaches, Server.Usable, Good, Followed;
    EveryRun(w, cfg, calls, s);
    InvFields(w, s, k);
    DeliveredSince(w.lib, s.env.cfg.maxMessage, s.conns[k]);
  }

  /**
   * Over every run, of every open connection: the messages reported for it since it opened are what
   * its delivered objects decode to, in order, and a repeated shot number is noted on a shot exactly
   * if the shot before it had that number too. If nothing went missing and no error was reported,
   * they are what the objects decode to that repeated `gsp_frame_find` cuts from everything the host
   * handed over.
   */
  lemma MessagesHeard(w: World, cfg: Config, calls: seq<Server.Call>, s: Server.Server, k: nat)
    requires Server.Usable(cfg) && cfg.policy.closeThreshold < WORD
    requires forall i :: 0 <= i < |calls| ==> InTime(calls[i])
    requires Reaches(w, cfg, calls, s) && k < |s.conns| && s.conns[k].used
    ensures var c := s.conns[k];
            && EnvLife(s.env, c.info.conn).heard == Reported(c.story.heard)
            && (c.story.missing == 0 && c.story.errors == 0 && c.scan == |c.rx| ==>
                  EnvLife(s.env, c.info.conn).heard == Reported(Decodings(w.lib, FindAll(c.story.offered))))
  {
    hide Logged, IdInv, Distinct, Paced, Followed, EnvLife, Orderly, Reported, CountsTold, NameKept, StateKept;
    EveryRun(w, cfg, calls, s);
    var c, max := s.conns[k], s.env.cfg.maxMessage;
    assert SlotInv(w, s.env, c);
    if c.story.missing == 0 && c.story.errors == 0 && c.scan == |c.rx| {
      StreamDelivered(w.lib, max, c);
      HeardDecodings(w.lib, max, c);
    }
  }

  /**
   * Over every run, of every open connection: its information is what its messages and its errors
   * say - the counters, the number of the last shot, the first name it gave, its last word on
   * readiness and on a ball - and the events reported just that: an opening at that time, that name
   * once, every other one complained of, and every change of state.
   */
  lemma InfoFollows(w: World, cfg: Config, calls: seq<Server.Call>, s: Server.Server, k: nat)
    requires Server.Usable(cfg) && cfg.policy.closeThreshold < WORD
    requires forall i :: 0 <= i < |calls| ==> InTime(calls[i])
    requires Reaches(w, cfg, calls, s) && k < |s.conns| && s.conns[k].used
    ensures var c := s.conns[k];
            var l, heard := EnvLife(s.env, c.info.conn), c.story.heard;
            && InfoTold(c.info, heard, c.story.errors)
            && c.info.consecutiveErrors == l.run % WORD && c.idleReported == l.idle
            && l.open && l.born == c.info.openedUs && l.spoke == c.info.lastMessageUs
            && l.named == FirstName(heard) && l.renamed == OtherNames(heard)
            && l.ready == Newest(heard, LaunchMonitorIsReady) && l.detected == Newest(heard, LaunchMonitorBallDetected)
  {
    hide Inv, Reaches, Server.Usable, EnvLife, Reported, Shots, LastShot, Delivery.Followed, Orderly;
    EveryRun(w, cfg, calls, s);
    InvFields(w, s, k);
  }

  /** Over every run an id is open in the table exactly if its last opening was reported and no closing since. */
  lemma OpenFollows(w: World, cfg: Config, calls: seq<Server.Call>, s: Server.Server, id: nat)
    requires Server.Usable(cfg) && cfg.policy.closeThreshold < WORD
    requires forall i :: 0 <= i < |calls| ==> InTime(calls[i])
    requires Reaches(w, cfg, calls, s)
    ensures EnvLife(s.env, id).open <==> exists k :: 0 <= k < |s.conns| && s.conns[k].used && s.conns[k].info.conn == id
  {
    hide Logged, SlotInv, InOrder, EnvLife, EnvMail, For, Captured, Orderly;
    EveryRun(w, cfg, calls, s);
    assert IdInv(s.env, IsOpen(s.conns, id), id);
  }

  lemma HeardDecodings(lib: Numbers.NumLib, max: nat, c: Conn)
    requires Followed(lib, max, c) && c.story.missing == 0 && c.story.errors == 0
    ensures c.story.heard == Decodings(lib, c.story.delivered)
  {
    hide Resting, Decodings, Good;
  }

  // --------------------------------------------------------------------------------------
  // What is due
  // --------------------------------------------------------------------------------------

  lemma {:induction false} DueFromCovers(e: Env, conns: seq<Conn>, k: nat)
    requires k < |conns| && conns[k].used
    ensures Server.DueFrom(e, conns) <= Server.DueOn(e, conns[k])
    decreases |conns|
  {
    hide Server.DueOn;
    if k < |conns| - 1 {
      DueFromCovers(e, conns[..|conns| - 1], k);
    }
  }

  lemma {:induction false} DueFromIsDue(e: Env, conns: seq<Conn>)
    ensures Server.DueFrom(e, conns) == TIME_NEVER
            || exists k :: 0 <= k < |conns| && conns[k].used && Server.DueFrom(e, conns) == Server.DueOn(e, conns[k])
    decreases |conns|
  {
    hide Server.DueOn;
    if conns != [] {
      var n := |conns| - 1;
      DueFromIsDue(e, conns[..n]);
      if Server.DueFrom(e, conns[..n]) != TIME_NEVER {
        var k :| 0 <= k < n && conns[..n][k].used && Server.DueFrom(e, conns[..n]) == Server.DueOn(e, conns[..n][k]);
        assert conns[k].used && conns[..n][k] == conns[k];
      }
    }
  }

  /** The time a connection was last heard of, or opened. */
  function Since(c: Conn): int {
    if c.info.lastMessageUs != TIME_UNKNOWN then c.info.lastMessageUs else c.info.openedUs
  }

  /** A write to the connection is held back until a time to come. */
  predicate Waits(s: Server.Server, c: Conn) {
    s.env.cfg.policy.writeSpacing > 0 && c.nextWrite > s.env.now && exists i :: 0 <= i < |s.env.writes| && s.env.writes[i].conn == c.info.conn
  }

  /** The connection is to be called idle some time. */
  predicate Listens(s: Server.Server, c: Conn) {
    s.env.cfg.policy.idleAlarm > 0 && !c.idleReported
  }

  /**
   * `next_due` is never later than the moment a held write may be polled, nor than the moment a
   * silent connection is to be called idle; and it is one of those moments, or never.
   */
  lemma NextDueIsNext(s: Server.Server, k: nat)
    requires !s.env.closed && k < |s.conns| && s.conns[k].used
    ensures Server.NextDue(s) <= TIME_NEVER
    ensures Listens(s, s.conns[k]) ==> Server.NextDue(s) <= Since(s.conns[k]) + s.env.cfg.policy.idleAlarm
    ensures Waits(s, s.conns[k]) ==> Server.NextDue(s) <= s.conns[k].nextWrite
    ensures Server.NextDue(s) == TIME_NEVER
            || exists i :: 0 <= i < |s.conns| && s.conns[i].used
                 && (|| (Listens(s, s.conns[i]) && Server.NextDue(s) == Since(s.conns[i]) + s.env.cfg.policy.idleAlarm)
                     || (Waits(s, s.conns[i]) && Server.NextDue(s) == s.conns[i].nextWrite))
  {
    DueFromCovers(s.env, s.conns, k);
    DueFromIsDue(s.env, s.conns);
    DueAtMost(s.env, s.conns);
  }

  lemma {:induction false} DueAtMost(e: Env, conns: seq<Conn>)
    ensures Server.DueFrom(e, conns) <= TIME_NEVER
    decreases |conns|
  {
    hide Server.DueOn;
    if conns != [] {
      DueAtMost(e, conns[..|conns| - 1]);
    }
  }

  lemma {:induction false} TickFromWrites(s: Server.Server, k: nat, now: int)
    requires k <= |s.conns| && s.env.log.cap > 0
    ensures var t := Server.TickFrom(s, k, now);
            && t.env.writes == s.env.writes && t.env.now == s.env.now && t.env.log.cap == s.env.log.cap
            && |t.conns| == |s.conns|
            && forall i :: 0 <= i < |s.conns| ==>
                 && t.conns[i].used == s.conns[i].used && t.conns[i].info.conn == s.conns[i].info.conn
                 && t.conns[i].nextWrite == s.conns[i].nextWrite
    decreases |s.conns| - k
  {
    hide Say, Server.IdleDeadline, LifeOf;
    if k < |s.conns| {
      var c := s.conns[k];
      SayLives(s.env, c.info.conn, now, ClientIdle, 0);
      if c.used && Server.IdleDeadline(s.env.cfg.policy, c) <= now {
        TickFromWrites(Server.Server(Say(s.env, c.info.conn, now, ClientIdle), s.conns[k := c.(idleReported := true)]), k + 1, now);
      } else {
        TickFromWrites(s, k + 1, now);
      }
    }
  }

  /** A poll of everything hands out the first write of a connection whose time has come. */
  lemma {:induction false} PollReleases(s: Server.Server, i: nat, max: nat, id: nat)
    requires i <= |s.env.writes| && |s.env.writes| - i <= max && s.env.log.cap > 0
    requires forall j :: 0 <= j < i ==> s.env.writes[j].conn != id
    requires For(s.env.writes, id) != []
    requires var k := Server.FindConn(s.conns, id); k.Some? && s.env.now >= s.conns[k.value].nextWrite
    ensures var out := Server.PollWritesFrom(s, i, max).1;
            For(out, id) != [] && For(out, id)[0] == For(s.env.writes, id)[0]
    decreases |s.env.writes| - i
  {
    hide Server.HandOut, Logged, EnvLife, Server.FindConn, For;
    if i == |s.env.writes| {
      ForNone(s.env.writes, id);
    } else if Server.Held(s, s.env.writes[i]) {
      PollReleases(s, i + 1, max, id);
    } else {
      var x, u := s.env.writes[i], Server.HandOut(s, i);
      HandOutEnv(s, i);
      var (t, rest) := Server.PollWritesFrom(u, i, max - 1);
      ForConcat([x], rest, id);
      ForWithout(s.env.writes, i, id);
      ForSnoc([], x, id);
      assert [] + [x] == [x] && For([], id) == [] by { ForNone([], id); }
      if x.conn != id {
        HandOutFinds(s, i, id);
        HandOutNext(s, i, id);
        PollReleases(u, i, max - 1, id);
      }
    }
  }

  lemma HandOutNext(s: Server.Server, i: nat, id: nat)
    requires i < |s.env.writes| && s.env.writes[i].conn != id && s.env.log.cap > 0
    requires Server.FindConn(s.conns, id).Some?
    ensures var k := Server.FindConn(s.conns, id).value;
            |Server.HandOut(s, i).conns| == |s.conns| && Server.HandOut(s, i).conns[k].nextWrite == s.conns[k].nextWrite
  {
    hide WireBytes, Server.FindConn;
  }

  /** A tick at the time a held write is due, and a poll of everything, lets it out. */
  lemma HeldWriteReleased(w: World, s: Server.Server, k: nat, max: nat, now: int)
    requires Inv(w, s) && !s.env.closed && k < |s.conns| && s.conns[k].used
    requires Server.HasWrite(s.env.writes, s.conns[k].info.conn)
    requires now >= s.conns[k].nextWrite && max >= |s.env.writes|
    ensures var id := s.conns[k].info.conn;
            var out := Server.PollWrites(Server.Tick(s, now), max).1;
            && For(s.env.writes, id) != []
            && For(out, id) != [] && For(out, id)[0] == For(s.env.writes, id)[0]
  {
    hide Inv, Server.TickFrom, Server.PollWritesFrom, For, Server.FindFrom;
    var id := s.conns[k].info.conn;
    InvConfig(w, s);
    var i :| 0 <= i < |s.env.writes| && s.env.writes[i].conn == id;
    ForSome(s.env.writes, id, i);
    TickFromWrites(Server.At(s, now), 0, now);
    var t := Server.Tick(s, now);
    FindSame(s.conns, t.conns, id, 0);
    FoundAt(w, s, k);
    PollReleases(t, 0, max, id);
  }

  lemma FoundAt(w: World, s: Server.Server, k: nat)
    requires Inv(w, s) && k < |s.conns| && s.conns[k].used
    ensures Server.FindConn(s.conns, s.conns[k].info.conn) == Some(k)
  {
    hide Logged, SlotInv, IdInv;
  }
}
