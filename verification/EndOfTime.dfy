/**
 * The idle alarm at `INT64_MAX`, the deadline that means never: exactly when a tick keeps idle and
 * active alternating.
 */
module EndOfTime {
  import opened Bytes
  import opened Events
  import opened EventLog
  import opened Hub
  import opened Conns
  import Logs
  import opened Lives
  import opened Mails
  import opened Serving
  import opened Delivery
  import opened Server
  import opened Runs
  import Endless
  import Accounts

  /** Idle said once more. */
  function Idled(l: Life): Life {
    l.(sound := l.sound && !l.idle, idle := true)
  }

  /** A tick from slot `k` on says idle of `id`. */
  predicate Ticks(s: Server, k: nat, now: int, id: nat) {
    exists j :: k <= j < |s.conns| && TicksAt(s, j, now) && s.conns[j].info.conn == id
  }

  predicate TicksAt(s: Server, j: nat, now: int)
    requires j < |s.conns|
  {
    s.conns[j].used && IdleDeadline(s.env.cfg.policy, s.conns[j]) <= now
  }

  function IdledAt(s: Server, k: nat, now: int): Server
    requires k < |s.conns|
  {
    var c := s.conns[k];
    Server(Say(s.env, c.info.conn, now, ClientIdle), s.conns[k := c.(idleReported := true)])
  }

  lemma IdleLives(s: Server, k: nat, now: int, id: nat)
    requires k < |s.conns| && s.env.log.cap > 0
    ensures var t := IdledAt(s, k, now);
            && t.env.log.cap == s.env.log.cap && t.env.cfg == s.env.cfg
            && EnvLife(t.env, id) == if s.conns[k].info.conn == id then Idled(EnvLife(s.env, id)) else EnvLife(s.env, id)
  {
    hide EnvLife, Say;
    SayLives(s.env, s.conns[k].info.conn, now, ClientIdle, id);
  }

  /** What a tick makes of one id's life. */
  lemma {:induction false} TickFromLives(s: Server, k: nat, now: int, id: nat)
    requires k <= |s.conns| && s.env.log.cap > 0 && Distinct(s.conns)
    ensures EnvLife(TickFrom(s, k, now).env, id)
         == if Ticks(s, k, now, id) then Idled(EnvLife(s.env, id)) else EnvLife(s.env, id)
    ensures TickFrom(s, k, now).env.cfg == s.env.cfg
    decreases |s.conns| - k
  {
    hide EnvLife, Say, Idled, IdleDeadline;
    if k < |s.conns| {
      if TicksAt(s, k, now) {
        var t := IdledAt(s, k, now);
        IdleLives(s, k, now, id);
        TickFromLives(t, k + 1, now, id);
        TicksOn(s, t, k, now, id);
      } else {
        TickFromLives(s, k + 1, now, id);
        TicksOn(s, s, k, now, id);
      }
    }
  }

  /** From one slot to the next; each id is in one slot only. */
  lemma TicksOn(s: Server, t: Server, k: nat, now: int, id: nat)
    requires k < |s.conns| && Distinct(s.conns) && |t.conns| == |s.conns| && t.env.cfg == s.env.cfg
    requires forall j :: k < j < |s.conns| ==> t.conns[j] == s.conns[j]
    ensures Ticks(s, k, now, id) <==> Ticks(t, k + 1, now, id) || (TicksAt(s, k, now) && s.conns[k].info.conn == id)
    ensures Ticks(t, k + 1, now, id) && TicksAt(s, k, now) ==> s.conns[k].info.conn != id
  {
    hide IdleDeadline;
    if Ticks(s, k, now, id) {
      var j :| k <= j < |s.conns| && TicksAt(s, j, now) && s.conns[j].info.conn == id;
      assert j != k ==> TicksAt(t, j, now);
    }
    if Ticks(t, k + 1, now, id) {
      var j :| k + 1 <= j < |t.conns| && TicksAt(t, j, now) && t.conns[j].info.conn == id;
      assert TicksAt(s, j, now);
    }
  }

  /** What a tick makes of the life of the connection at `k`. */
  lemma TickLives(w: World, s: Server, k: nat, now: int)
    requires Inv(w, s) && !s.env.closed && k < |s.conns| && s.conns[k].used
    ensures var id := s.conns[k].info.conn;
            EnvLife(Tick(s, now).env, id) == if TicksAt(s, k, now) then Idled(EnvLife(s.env, id)) else EnvLife(s.env, id)
    ensures Tick(s, now).env.cfg == s.env.cfg
  {
    hide Logs.Logged, SlotInv, IdInv, TickFrom, LifeOf, Idled, IdleDeadline;
    var id, t := s.conns[k].info.conn, At(s, now);
    InvConfig(w, s);
    TickFromLives(t, 0, now, id);
    if Ticks(t, 0, now, id) {
      var j :| 0 <= j < |s.conns| && TicksAt(t, j, now) && s.conns[j].info.conn == id;
      assert j == k;
    }
    assert TicksAt(t, k, now) == TicksAt(s, k, now);
  }

  /**
   * A tick before the end of time says idle of an open connection exactly if an alarm is set, none
   * is outstanding, and the last message, or the opening if there was none, is that long ago.
   */
  lemma IdleExactly(w: World, s: Server, k: nat, now: int)
    requires Inv(w, s) && !s.env.closed && k < |s.conns| && s.conns[k].used && now < TIME_NEVER
    ensures var id, alarm := s.conns[k].info.conn, s.env.cfg.policy.idleAlarm;
            var l := EnvLife(s.env, id);
            EnvLife(Tick(s, now).env, id)
            == l.(idle := l.idle || (alarm > 0 && now >= (if l.spoke != TIME_UNKNOWN then l.spoke else l.born) + alarm))
  {
    hide Inv, Tick, EnvLife, Orderly, Accounts.CountsTold, NameKept, StateKept, Delivery.Followed;
    TickLives(w, s, k, now);
    InvFields(w, s, k);
    InvSound(w, s, s.conns[k].info.conn);
  }

  lemma InvSound(w: World, s: Server, id: nat)
    requires Inv(w, s)
    ensures EnvLife(s.env, id).sound
  {
    hide Logs.Logged, SlotInv, InOrder, EnvLife, EnvMail, IsOpen, TimesAsked;
    assert IdInv(s.env, IsOpen(s.conns, id), id);
  }

  /** The id has been called idle and active in turn, and its closing asked for as it should. */
  predicate LifeOrderly(e: Env, id: nat) {
    Orderly(EnvLife(e, id), e.cfg.policy.closeThreshold)
  }

  /** For the connection at `k` a tick keeps that unless the time is the end of time and idle was said. */
  lemma TickOrderlyAt(w: World, s: Server, k: nat, now: int)
    requires Inv(w, s) && !s.env.closed && k < |s.conns| && s.conns[k].used
    ensures LifeOrderly(Tick(s, now).env, s.conns[k].info.conn) <==> now < TIME_NEVER || !s.conns[k].idleReported
  {
    hide Inv, Tick, LifeOf, TimesAsked;
    TickLives(w, s, k, now);
    InvFields(w, s, k);
  }

  /**
   * A tick keeps every open connection's life orderly, and with it all the server keeps, if and
   * only if the time is before the end of time or no open connection has been called idle.
   */
  lemma TickExactly(w: World, s: Server, now: int)
    requires Inv(w, s) && !s.env.closed
    ensures (forall k :: 0 <= k < |s.conns| && s.conns[k].used ==> LifeOrderly(Tick(s, now).env, s.conns[k].info.conn))
       <==> now < TIME_NEVER || NoneIdle(s.conns, 0)
    ensures Inv(w, Tick(s, now)) <==> now < TIME_NEVER || NoneIdle(s.conns, 0)
  {
    hide Inv, Tick, LifeOrderly;
    forall k | 0 <= k < |s.conns| && s.conns[k].used
      ensures LifeOrderly(Tick(s, now).env, s.conns[k].info.conn) <==> now < TIME_NEVER || !s.conns[k].idleReported
    {
      TickOrderlyAt(w, s, k, now);
    }
    if now < TIME_NEVER || NoneIdle(s.conns, 0) {
      TickKeeps(w, s, now);
    } else {
      var k :| 0 <= k < |s.conns| && s.conns[k].used && s.conns[k].idleReported;
      assert !LifeOrderly(Tick(s, now).env, s.conns[k].info.conn);
      if Inv(w, Tick(s, now)) {
        InvOrderly(w, Tick(s, now), s.conns[k].info.conn);
      }
    }
  }

  lemma InvOrderly(w: World, s: Server, id: nat)
    requires Inv(w, s)
    ensures LifeOrderly(s.env, id)
  {
    hide Logs.Logged, SlotInv, InOrder, EnvLife, EnvMail, IsOpen;
    assert IdInv(s.env, IsOpen(s.conns, id), id);
  }

  // --------------------------------------------------------------------------------------
  // Such a server is reached
  // --------------------------------------------------------------------------------------

  lemma {:induction false} TickMarks(s: Server, k: nat, now: int, j: nat)
    requires k <= |s.conns| && j < |s.conns| && s.env.log.cap > 0
    ensures var t := TickFrom(s, k, now);
            && |t.conns| == |s.conns| && t.env.closed == s.env.closed
            && t.conns[j] == if k <= j && TicksAt(s, j, now) then s.conns[j].(idleReported := true) else s.conns[j]
    decreases |s.conns| - k
  {
    hide Say, IdleDeadline, EnvLife;
    if k < |s.conns| {
      if TicksAt(s, k, now) {
        IdleLives(s, k, now, 0);
        Logs.SayKeeps(s.env, s.conns[k].info.conn, now, ClientIdle);
        TickMarks(IdledAt(s, k, now), k + 1, now, j);
      } else {
        TickMarks(s, k + 1, now, j);
      }
    }
  }

  /** Opened, silent for the length of the alarm, and ticked at the end of time: idle is said twice. */
  lemma IdleTwiceReached(w: World, cfg: Config, id: nat, peer: seq<Byte>, t0: int, t1: int)
    requires Usable(cfg) && cfg.policy.closeThreshold < WORD && cfg.policy.idleAlarm > 0
    requires id != CONN_NONE && id != CONN_ALL && t0 + cfg.policy.idleAlarm <= t1 < TIME_NEVER
    ensures var calls := [CallOpen(id, peer, t0), CallTick(t1), CallTick(TIME_NEVER)];
            exists s :: Reaches(w, cfg, calls, s) && !LifeOrderly(s.env, id)
  {
    hide Open, Tick, Usable, NewServer, Inv, LifeOrderly, TickFrom, FindConn, Fresh, Reaches, Scanned;
    var s0 := NewServer(cfg);
    var c0, c1, c2 := CallOpen(id, peer, t0), CallTick(t1), CallTick(TIME_NEVER);
    Endless.Opened(w, cfg, id, peer, t0);
    var s1 := Open(w, s0, id, peer, t0).0;
    NewIsInv(w, cfg);
    InvIsScanned(w, s0);
    DoKeeps(w, s0, c0);
    InvIsScanned(w, s1);
    var s2 := Tick(s1, t1);
    Silent(cfg, s1, id, peer, t0, t1);
    DoKeeps(w, s1, c1);
    InvIsScanned(w, s2);
    var s3 := Tick(s2, TIME_NEVER);
    TickOrderlyAt(w, s2, 0, TIME_NEVER);
    ThreeOn(w, cfg, c0, c1, c2, s1, s2);
    assert Reaches(w, cfg, [c0, c1, c2], s3);
  }

  lemma Silent(cfg: Config, s: Server, id: nat, peer: seq<Byte>, t0: int, t1: int)
    requires s.env.log.cap > 0 && !s.env.closed && s.env.cfg == Completed(cfg) && cfg.policy.idleAlarm > 0
    requires |s.conns| > 0 && s.conns[0] == Fresh(id, peer, t0) && t0 + cfg.policy.idleAlarm <= t1
    ensures var t := Tick(s, t1);
            !t.env.closed && |t.conns| > 0 && t.conns[0].used && t.conns[0].idleReported && t.conns[0].info.conn == id
  {
    hide TickFrom, CStr, Field;
    TickMarks(At(s, t1), 0, t1, 0);
  }
}
