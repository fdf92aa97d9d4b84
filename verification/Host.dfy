/** The server in place: the calls of `gsp_server`, each doing what its specification says. */
module Host {
  import opened Bytes
  import opened Message
  import P = Protocol
  import opened Redact
  import opened Events
  import Rings
  import EventLog
  import WireLog
  import Logs
  import opened Hub
  import opened Conns
  import opened Server
  import C = Core
  import opened Connection

  class Host {
    const core: C.Core
    const conns: seq<Connection>

    ghost function Repr(): set<object> {
      core.Parts() + (set i, o | 0 <= i < |conns| && o in conns[i].Parts() :: o)
    }

    ghost predicate Apart() {
      && (forall i :: 0 <= i < |conns| ==> core.Parts() !! conns[i].Parts() && conns[i].rx.Length == Capacity(core.cfg))
      && (forall i, j :: 0 <= i < j < |conns| ==> conns[i].Parts() !! conns[j].Parts())
    }

    ghost predicate Valid()
      reads Repr()
    {
      Apart() && core.Valid() && forall i :: 0 <= i < |conns| ==> conns[i].Valid()
    }

    ghost function Slots(): (r: seq<Conn>)
      requires Valid()
      reads Repr()
      ensures |r| == |conns|
    {
      seq(|conns|, i requires 0 <= i < |conns| && Valid() reads Repr() => conns[i].Abs())
    }

    ghost function Abs(): Server
      requires Valid()
      reads Repr()
    {
      Server(core.Abs(), Slots())
    }

    /** The connection table, all of it unused. */
    static method Table(cfg: Config) returns (table: seq<Connection>)
      ensures |table| == cfg.maxConnections
      ensures forall i :: 0 <= i < |table| ==> fresh(table[i].Parts()) && Unused(table[i], cfg)
      ensures forall i, j :: 0 <= i < j < |table| ==> table[i].Parts() !! table[j].Parts()
    {
      table := [];
      while |table| < cfg.maxConnections
        invariant |table| <= cfg.maxConnections
        invariant forall i :: 0 <= i < |table| ==> fresh(table[i].Parts()) && Unused(table[i], cfg)
        invariant forall i, j :: 0 <= i < j < |table| ==> table[i].Parts() !! table[j].Parts()
      {
        var c := new Connection(Capacity(cfg));
        table := table + [c];
      }
    }

    static ghost predicate Unused(c: Connection, cfg: Config)
      reads c, c.rx, c.framer
    {
      c.Valid() && c.Abs() == NO_CONN && c.rx.Length == Capacity(cfg)
    }

    constructor (config: Config)
      requires Usable(config)
      ensures Valid() && fresh(Repr()) && Abs() == NewServer(config)
    {
      hide Usable;
      var cfg := Completed(config);
      var table := Table(cfg);
      conns := table;
      assert cfg.eventRing > 0 && cfg.writeRing > 0;
      core := new C.Core(cfg);
      new;
      assert core.Abs() == NewEnv(cfg);
      assert Slots() == seq(cfg.maxConnections, _ => NO_CONN);
    }

    /** `gsp_server_create`. */
    static method Create(config: Config) returns (host: Host?)
      ensures host == null <==> !Usable(config)
      ensures host != null ==> host.Valid() && fresh(host.Repr()) && host.Abs() == NewServer(config)
    {
      if Usable(config) {
        host := new Host(config);
      } else {
        host := null;
      }
    }

    lemma ValidCore()
      requires Valid()
      ensures core.Valid() && Abs().env.cfg == core.cfg && Abs().env == core.Abs() && Abs().env.closed == core.closed && Abs().env.now == core.now
      ensures core.Parts() <= Repr()
    {
    }

    lemma SlotAt(k: nat)
      requires Valid() && k < |conns|
      ensures conns[k].Valid() && Slots()[k] == conns[k].Abs() && conns[k].Parts() <= Repr()
    {
    }

    lemma AbsIsScanned()
      requires Valid()
      ensures Scanned(Abs())
    {
      forall k | 0 <= k < |conns|
        ensures Slots()[k].scan <= |Slots()[k].rx|
      {
        assert conns[k].Valid();
      }
    }

    /** Only the shared state and the connection at `k` have changed. */
    twostate lemma OneChanged(k: nat)
      requires old(Valid()) && k < |conns| && core.Valid() && conns[k].Valid()
      requires forall i :: 0 <= i < |conns| && i != k ==> unchanged(conns[i], conns[i].rx, conns[i].framer)
      ensures Valid() && Slots() == old(Slots())[k := conns[k].Abs()]
    {
    }

    /** Only the shared state has changed. */
    twostate lemma NoneChanged()
      requires old(Valid()) && core.Valid()
      requires forall i :: 0 <= i < |conns| ==> unchanged(conns[i], conns[i].rx, conns[i].framer)
      ensures Valid() && Slots() == old(Slots())
    {
    }

    // ------------------------------------------------------------------------------------
    // Connections
    // ------------------------------------------------------------------------------------

    method Find(id: nat) returns (k: Option<nat>)
      requires Valid()
      ensures Valid() && Abs() == old(Abs()) && k == FindConn(Slots(), id)
    {
      for i := 0 to |conns|
        invariant FindFrom(Slots(), id, i) == FindConn(Slots(), id)
      {
        if conns[i].used && conns[i].info.conn == id {
          return Some(i);
        }
      }
      return None;
    }

    method FindFree() returns (k: Option<nat>)
      requires Valid()
      ensures Valid() && Abs() == old(Abs()) && k == FreeFrom(Slots(), 0)
    {
      for i := 0 to |conns|
        invariant FreeFrom(Slots(), i) == FreeFrom(Slots(), 0)
      {
        if !conns[i].used {
          return Some(i);
        }
      }
      return None;
    }

    method AnnounceIn(w: World, id: nat, now: int)
      requires core.Valid()
      modifies core.Parts()
      ensures core.Valid() && core.Abs() == Announce(w, old(core.Abs()), id, now)
    {
      hide SendPlayer, SendSession, HasAnything;
      if core.cfg.policy.announcePlayer && core.playerSet && HasAnything(core.player) {
        core.SendPlayerIn(w, id, core.player, OnConnect, now);
      }
      if core.cfg.policy.announceReady && core.session == SessionActive {
        core.SendSessionIn(w, id, SessionActive, OnConnect, now);
      }
    }

    method FreshIn(k: nat, id: nat, peer: seq<Byte>, now: int)
      requires Valid() && k < |conns|
      modifies conns[k].Parts()
      ensures conns[k].Valid() && conns[k].Abs() == Fresh(id, peer, now)
    {
      hide CStr, Field;
      var c := conns[k];
      c.used, c.idleReported, c.rxLen, c.scan, c.nextWrite := true, false, 0, 0, now;
      c.info := NO_INFO.(conn := id, openedUs := now, lastMessageUs := TIME_UNKNOWN, lastShot := NO_SHOT,
                         peer := Field(PEER_MAX, CStr(peer)));
      c.story := NO_STORY;
      c.framer.Reset();
    }

    method Admit(k: nat, id: nat, peer: seq<Byte>, now: int)
      requires Valid() && k < |conns|
      modifies core, conns[k].Parts()
      ensures Valid() && core.Abs() == old(core.Abs()).(now := now) && Slots() == old(Slots())[k := Fresh(id, peer, now)]
    {
      hide Fresh, Slots;
      core.now := now;
      NoneChanged();
      FreshIn(k, id, peer, now);
      OneChanged(k);
    }

    method Greet(w: World, id: nat, info: Info, now: int)
      requires Valid()
      modifies core.Parts()
      ensures Valid() && Slots() == old(Slots())
      ensures core.Abs() == Announce(w, SayConnection(w, old(core.Abs()), id, ConnectionOpened(info), now), id, now)
    {
      hide SayConnection, Announce, Slots;
      core.SayConnectionIn(w, id, ConnectionOpened(info), now);
      AnnounceIn(w, id, now);
      NoneChanged();
    }

    method OpenAt(w: World, k: nat, id: nat, peer: seq<Byte>, now: int)
      requires Valid() && k < |conns|
      modifies core.Parts(), conns[k].Parts()
      ensures Valid()
      ensures var c := Fresh(id, peer, now);
              var e := SayConnection(w, old(core.Abs()).(now := now), id, ConnectionOpened(c.info), now);
              core.Abs() == Announce(w, e, id, now) && Slots() == old(Slots())[k := c]
    {
      hide Fresh, SayConnection, Announce, Slots, Valid;
      ValidCore();
      SlotAt(k);
      Admit(k, id, peer, now);
      SlotAt(k);
      Greet(w, id, conns[k].info, now);
    }

    method OpenIn(w: World, id: nat, peer: seq<Byte>, now: int) returns (status: P.Status)
      requires Valid()
      modifies Repr()
      ensures Valid() && (Abs(), status) == Open(w, old(Abs()), id, peer, now)
    {
      hide FindConn, FreeFrom, Fresh, SayConnection, Announce, Valid;
      ValidCore();
      if core.closed {
        return P.Closed;
      }
      if id == CONN_NONE || id == CONN_ALL {
        return P.InvalidArg;
      }
      var found := Find(id);
      if found.Some? {
        return P.InvalidState;
      }
      var free := FindFree();
      if free == None {
        return P.TooManyConnections;
      }
      SlotAt(free.value);
      OpenAt(w, free.value, id, peer, now);
      return P.Ok;
    }

    method ShutIn(w: World, k: nat, cause: CloseCause, at: int)
      requires Valid() && k < |conns|
      modifies core.Parts(), conns[k]
      ensures Valid() && Abs() == Shut(w, old(Abs()), k, cause, at)
    {
      hide SayConnection, DropWritesFor;
      var c := conns[k];
      core.SayConnectionIn(w, c.info.conn, ConnectionClosed(c.info, cause), at);
      core.DropWritesForIn(c.info.conn);
      c.used := false;
      OneChanged(k);
    }

    method SetNow(now: int)
      requires Valid()
      modifies core
      ensures Valid() && Abs() == At(old(Abs()), now)
    {
      core.now := now;
      NoneChanged();
    }

    method ClosedIn(w: World, id: nat, cause: CloseCause, now: int) returns (status: P.Status)
      requires Valid()
      modifies Repr()
      ensures Valid() && (Abs(), status) == Closed(w, old(Abs()), id, cause, now)
    {
      hide FindConn, Shut, Valid;
      ValidCore();
      if core.closed {
        return P.Closed;
      }
      var found := Find(id);
      if found == None {
        return P.UnknownConnection;
      }
      SlotAt(found.value);
      SetNow(now);
      ShutIn(w, found.value, cause, now);
      return P.Ok;
    }

    method ShutAllIn(w: World)
      requires Valid()
      modifies Repr()
      ensures Valid() && Abs() == ShutFrom(w, old(Abs()), 0)
    {
      hide Shut, Valid, ShutFrom;
      ValidCore();
      for i := 0 to |conns|
        invariant Valid() && ShutFrom(w, Abs(), i) == ShutFrom(w, old(Abs()), 0)
      {
        ValidCore();
        SlotAt(i);
        ShutFromStep(w, Abs(), i);
        if conns[i].used {
          ShutIn(w, i, ServerClosed, core.now);
        }
      }
      ShutFromEnd(w, Abs());
    }

    method Seal()
      requires Valid()
      modifies core
      ensures Valid() && Abs() == old(Abs()).(env := old(Abs()).env.(closed := true))
    {
      core.closed := true;
      NoneChanged();
    }

    method CloseIn(w: World)
      requires Valid()
      modifies Repr()
      ensures Valid() && Abs() == Close(w, old(Abs()))
    {
      hide ShutFrom, Valid;
      ValidCore();
      if core.closed {
        return;
      }
      ShutAllIn(w);
      Seal();
    }

    method BytesAt(w: World, k: nat, data: seq<Byte>, now: int) returns (status: P.Status)
      requires Valid() && k < |conns|
      modifies core.Parts(), conns[k].Parts()
      ensures Valid()
      ensures var (e, c, st) := TakeBytes(w, old(core.Abs()).(now := now), old(conns[k].Abs()), data, now);
              core.Abs() == e && Slots() == old(Slots())[k := c] && status == st
    {
      hide TakeBytes, Slots;
      core.now := now;
      status := conns[k].TakeBytesIn(w, core, data, now);
      OneChanged(k);
    }

    method OnBytesIn(w: World, id: nat, data: seq<Byte>, now: int) returns (status: P.Status)
      requires Valid()
      modifies Repr()
      ensures Valid() && Scanned(old(Abs())) && (Abs(), status) == OnBytes(w, old(Abs()), id, data, now)
    {
      hide FindConn, TakeBytes, Valid;
      AbsIsScanned();
      ValidCore();
      if core.closed {
        return P.Closed;
      }
      var found := Find(id);
      if found == None {
        return P.UnknownConnection;
      }
      ghost var s := Abs();
      SlotAt(found.value);
      status := BytesAt(w, found.value, data, now);
    }

    // ------------------------------------------------------------------------------------
    // The clock
    // ------------------------------------------------------------------------------------

    method IdleIn(k: nat, now: int)
      requires Valid() && k < |conns|
      modifies core.Parts(), conns[k]
      ensures Valid()
      ensures var c := old(Slots())[k];
              Abs() == Server(Say(old(core.Abs()), c.info.conn, now, ClientIdle), old(Slots())[k := c.(idleReported := true)])
    {
      hide Say;
      var c := conns[k];
      c.idleReported := true;
      core.SayIn(c.info.conn, now, ClientIdle);
      OneChanged(k);
    }

    method TickIn(now: int)
      requires Valid()
      modifies Repr()
      ensures Valid() && Abs() == Tick(old(Abs()), now)
    {
      hide TickFrom, Valid, Say;
      ValidCore();
      if core.closed {
        return;
      }
      SetNow(now);
      ghost var s := Abs();
      for i := 0 to |conns|
        invariant Valid() && TickFrom(Abs(), i, now) == TickFrom(s, 0, now)
      {
        ValidCore();
        SlotAt(i);
        TickFromStep(Abs(), i, now);
        if conns[i].used && IdleDeadlineIn(i) <= now {
          IdleIn(i, now);
        }
      }
      TickFromEnd(Abs(), now);
    }

    function IdleDeadlineIn(k: nat): (r: int)
      requires Valid() && k < |conns|
      reads Repr()
      ensures r == IdleDeadline(Abs().env.cfg.policy, Slots()[k])
    {
      SlotAt(k);
      var c := conns[k];
      var alarm := core.cfg.policy.idleAlarm;
      if alarm <= 0 || c.idleReported then TIME_NEVER
      else (if c.info.lastMessageUs != TIME_UNKNOWN then c.info.lastMessageUs else c.info.openedUs) + alarm
    }

    method Waits(id: nat) returns (r: bool)
      requires Valid()
      ensures Valid() && Abs() == old(Abs()) && r == HasWrite(core.Abs().writes, id)
    {
      ghost var ws := core.Abs().writes;
      assert |core.writes.View()| == core.writes.count;
      for i := 0 to core.writes.count
        invariant forall j :: 0 <= j < i ==> ws[j].conn != id
      {
        var x := core.writes.Get(i);
        assert x == ws[i];
        if x.conn == id {
          return true;
        }
      }
      return false;
    }

    method NextDueIn() returns (due: int)
      requires Valid()
      ensures Valid() && Abs() == old(Abs()) && due == NextDue(Abs())
    {
      hide Valid, HasWrite, DueFrom;
      ValidCore();
      due := TIME_NEVER;
      if core.closed {
        return;
      }
      ghost var s := Abs();
      DueFromNone(s.env);
      for i := 0 to |conns|
        invariant Valid() && Abs() == s
        invariant due == DueFrom(s.env, s.conns[..i])
      {
        ValidCore();
        SlotAt(i);
        DueFromStep(s.env, s.conns, i);
        if conns[i].used {
          var cand := IdleDeadlineIn(i);
          if cand < due {
            due := cand;
          }
          if core.cfg.policy.writeSpacing > 0 && conns[i].nextWrite > core.now {
            var waiting := Waits(conns[i].info.conn);
            SlotAt(i);
            if waiting && conns[i].nextWrite < due {
              due := conns[i].nextWrite;
            }
          }
        }
      }
      assert s.conns[..|conns|] == s.conns;
    }

    // ------------------------------------------------------------------------------------
    // Player and session
    // ------------------------------------------------------------------------------------

    method SendPlayerAt(w: World, k: nat, p: PlayerInfo, why: PlayerReason, at: int)
      requires Valid() && k < |conns|
      modifies core.Parts()
      ensures Valid()
      ensures Abs() == Server(SendPlayer(w, old(core.Abs()), old(Slots())[k].info.conn, p, why, at), old(Slots()))
    {
      hide SendPlayer;
      core.SendPlayerIn(w, conns[k].info.conn, p, why, at);
      NoneChanged();
    }

    method SendPlayerAll(w: World, p: PlayerInfo, why: PlayerReason, at: int)
      requires Valid()
      modifies Repr()
      ensures Valid()
      ensures Abs() == Server(SendPlayerFrom(w, old(core.Abs()), old(Slots()), 0, p, why, at), old(Slots()))
    {
      hide SendPlayerFrom, SendPlayer, Valid;
      ghost var cs: seq<Conn>, goal := Slots(), SendPlayerFrom(w, Abs().env, Slots(), 0, p, why, at);
      ValidCore();
      for i := 0 to |conns|
        invariant Valid() && Slots() == cs && SendPlayerFrom(w, Abs().env, cs, i, p, why, at) == goal
      {
        ValidCore();
        SlotAt(i);
        SendPlayerStep(w, Abs().env, cs, i, p, why, at);
        if conns[i].used {
          SendPlayerAt(w, i, p, why, at);
        }
      }
      SendPlayerEnd(w, Abs().env, cs, p, why, at);
    }

    method SetPlayerField(p: PlayerInfo, now: int)
      requires Valid()
      modifies core
      ensures Valid() && Slots() == old(Slots())
      ensures core.Abs() == old(core.Abs()).(now := now, player := p, playerSet := true)
    {
      core.now, core.player, core.playerSet := now, p, true;
      NoneChanged();
    }

    method SetPlayerIn(w: World, p: PlayerInfo, now: int) returns (status: P.Status)
      requires Valid()
      modifies Repr()
      ensures Valid() && (Abs(), status) == SetPlayer(w, old(Abs()), p, now)
    {
      hide SendPlayerFrom, SamePlayer, HasAnything, Valid;
      ValidCore();
      if core.closed {
        return P.Closed;
      }
      var changed := !core.playerSet || !SamePlayer(core.player, p);
      PlayerFields();
      SetPlayerField(p, now);
      if changed && HasAnything(p) {
        SendPlayerAll(w, p, Changed, now);
      }
      return P.Ok;
    }

    lemma PlayerFields()
      requires Valid()
      ensures Abs().env.playerSet == core.playerSet && Abs().env.player == core.player && Abs().env.session == core.session
    {
    }

    method SendPlayerInfoIn(w: World, id: nat, p: Option<PlayerInfo>, now: int) returns (status: P.Status)
      requires Valid()
      modifies Repr()
      ensures Valid() && (Abs(), status) == SendPlayerInfo(w, old(Abs()), id, p, now)
    {
      hide SendPlayerFrom, SendPlayer, FindConn, Valid;
      ValidCore();
      if core.closed {
        return P.Closed;
      }
      PlayerFields();
      var q := if p.Some? then p.value else core.player;
      SetNow(now);
      if id == CONN_ALL {
        SendPlayerAll(w, q, Explicit, now);
        return P.Ok;
      }
      var found := Find(id);
      if found == None {
        return P.UnknownConnection;
      }
      ValidCore();
      SlotAt(found.value);
      SendPlayerAt(w, found.value, q, Explicit, now);
      return P.Ok;
    }

    method SendSessionAt(w: World, k: nat, state: Session, at: int)
      requires Valid() && k < |conns|
      modifies core.Parts()
      ensures Valid()
      ensures Abs() == Server(SendSession(w, old(core.Abs()), old(Slots())[k].info.conn, state, Changed, at), old(Slots()))
    {
      hide SendSession;
      core.SendSessionIn(w, conns[k].info.conn, state, Changed, at);
      NoneChanged();
    }

    method SendSessionAll(w: World, state: Session, at: int)
      requires Valid()
      modifies Repr()
      ensures Valid()
      ensures Abs() == Server(SendSessionFrom(w, old(core.Abs()), old(Slots()), 0, state, at), old(Slots()))
    {
      hide SendSessionFrom, SendSession, Valid;
      ghost var cs: seq<Conn>, goal := Slots(), SendSessionFrom(w, Abs().env, Slots(), 0, state, at);
      ValidCore();
      for i := 0 to |conns|
        invariant Valid() && Slots() == cs && SendSessionFrom(w, Abs().env, cs, i, state, at) == goal
      {
        ValidCore();
        SlotAt(i);
        SendSessionStep(w, Abs().env, cs, i, state, at);
        if conns[i].used {
          SendSessionAt(w, i, state, at);
        }
      }
      SendSessionEnd(w, Abs().env, cs, state, at);
    }

    method SetSessionField(state: Session)
      requires Valid()
      modifies core
      ensures Valid() && Abs() == old(Abs()).(env := old(Abs()).env.(session := state))
    {
      core.session := state;
      NoneChanged();
    }

    method SetSessionIn(w: World, state: Session, now: int) returns (status: P.Status)
      requires Valid()
      modifies Repr()
      ensures Valid() && (Abs(), status) == SetSession(w, old(Abs()), state, now)
    {
      hide SendSessionFrom, Valid;
      ValidCore();
      if core.closed {
        return P.Closed;
      }
      SetNow(now);
      PlayerFields();
      if core.session == state {
        return P.Ok;
      }
      SetSessionField(state);
      SendSessionAll(w, state, now);
      return P.Ok;
    }

    // ------------------------------------------------------------------------------------
    // Polls
    // ------------------------------------------------------------------------------------

    method RecordIn(i: nat) returns (x: Write)
      requires Valid() && i < |Abs().env.writes|
      modifies core.Parts()
      ensures Valid() && i < |old(Abs()).env.writes| && x == old(Abs()).env.writes[i]
      ensures Abs() == Recorded(old(Abs()), x)
    {
      hide WireBytes;
      x := core.writes.Get(i);
      core.WireBytesIn(x.conn, ServerToClient, x.data, false, core.now, false);
      NoneChanged();
    }

    method PutOffIn(k: nat)
      requires Valid() && k < |conns|
      modifies conns[k]
      ensures Valid() && Abs() == PutOff(old(Abs()), k)
    {
      conns[k].nextWrite := core.now + core.cfg.policy.writeSpacing;
      OneChanged(k);
    }

    method TakeOutIn(i: nat)
      requires Valid() && i < |Abs().env.writes|
      modifies core.Parts()
      ensures i < |old(Abs()).env.writes| && Valid() && Abs() == TakenOut(old(Abs()), i)
    {
      var x := core.writes.Get(i);
      core.writes.RemoveAt(i);
      core.trace := core.trace + [Polled(x, core.now)];
      NoneChanged();
    }

    /** The write at `i` handed out: recorded, the next one to `k` put off, and taken out of the ring. */
    method HandOutIn(i: nat, k: Option<nat>) returns (x: Write)
      requires Valid() && i < |Abs().env.writes| && k == FindConn(Slots(), Abs().env.writes[i].conn)
      modifies Repr()
      ensures Valid() && Abs() == HandOut(old(Abs()), i)
      ensures i < |old(Abs()).env.writes| && x == old(Abs()).env.writes[i]
    {
      hide Recorded, PutOff, TakenOut, FindConn, Valid, HandOut;
      ValidCore();
      HandOutParts(Abs(), i, k);
      x := RecordIn(i);
      if k.Some? && core.cfg.policy.writeSpacing > 0 {
        SlotAt(k.value);
        PutOffIn(k.value);
      }
      TakeOutIn(i);
    }

    method PollWritesIn(max: nat) returns (out: seq<Write>)
      requires Valid()
      modifies Repr()
      ensures Valid() && (Abs(), out) == PollWrites(old(Abs()), max)
    {
      hide Valid, HandOut, Held, FindConn, PollWritesFrom;
      out := [];
      ghost var s := Abs();
      var i, more := 0, true;
      PolledNothing(s, max);
      while more
        invariant Valid() && i <= |Abs().env.writes| && |out| <= max
        invariant PollWritesFrom(s, 0, max) == AfterPolled(out, PollWritesFrom(Abs(), i, max - |out|))
        invariant !more ==> i == |Abs().env.writes| || |out| == max
        decreases more, |Abs().env.writes| - i
      {
        PollStep(Abs(), i, max - |out|);
        ghost var was := Abs();
        var x, wait, k := LookAt(i);
        if x == None || |out| == max {
          more := false;
        } else if wait {
          i := i + 1;
        } else {
          var y := HandOutIn(i, k);
          PolledOne(out, y, PollWritesFrom(Abs(), i, max - |out| - 1));
          out := out + [y];
        }
      }
      PollEnd(Abs(), i, max - |out|);
      assert out + [] == out;
    }

    /** The write at `i`, if there is one, and whether its connection is to be kept waiting. */
    method LookAt(i: nat) returns (x: Option<Write>, wait: bool, k: Option<nat>)
      requires Valid() && i <= |Abs().env.writes|
      ensures Valid() && Abs() == old(Abs())
      ensures x == if i < |Abs().env.writes| then Some(Abs().env.writes[i]) else None
      ensures x.Some? ==> wait == Held(Abs(), x.value) && k == FindConn(Slots(), x.value.conn)
    {
      hide FindConn;
      assert |core.writes.View()| == core.writes.count;
      if i == core.writes.count {
        return None, false, None;
      }
      var y := core.writes.Get(i);
      x := Some(y);
      k := Find(y.conn);
      wait := k.Some? && core.now < conns[k.value].nextWrite;
    }

    method PollEventsIn(max: nat) returns (out: seq<Event>)
      requires Valid()
      modifies core.Parts()
      ensures Valid() && (Abs(), out) == PollEvents(old(Abs()), max)
    {
      hide EventLog.Poll;
      out := core.log.PollOut(max);
      NoneChanged();
    }

    method PollWireIn(max: nat) returns (out: seq<Chunk>)
      requires Valid()
      modifies core.Parts()
      ensures Valid() && (Abs(), out) == PollWire(old(Abs()), max)
    {
      out := [];
      if core.wire != null {
        hide WireLog.PollWire;
        out := core.wire.PollOut(max, |core.log.emitted|);
      }
      NoneChanged();
    }
  }

  lemma ShutFromStep(w: World, s: Server, k: nat)
    requires k < |s.conns|
    ensures |Shut(w, s, k, ServerClosed, s.env.now).conns| == |s.conns|
    ensures ShutFrom(w, s, k)
         == ShutFrom(w, if s.conns[k].used then Shut(w, s, k, ServerClosed, s.env.now) else s, k + 1)
  {
    hide SayConnection, DropWritesFor;
  }

  lemma ShutFromEnd(w: World, s: Server)
    ensures ShutFrom(w, s, |s.conns|) == s
  {
  }

  lemma TickFromStep(s: Server, k: nat, now: int)
    requires k < |s.conns|
    ensures var c := s.conns[k];
            TickFrom(s, k, now)
            == TickFrom(if c.used && IdleDeadline(s.env.cfg.policy, c) <= now
                        then Server(Say(s.env, c.info.conn, now, ClientIdle), s.conns[k := c.(idleReported := true)]) else s,
                        k + 1, now)
  {
    hide Say, IdleDeadline;
  }

  lemma TickFromEnd(s: Server, now: int)
    ensures TickFrom(s, |s.conns|, now) == s
  {
  }

  lemma DueFromNone(e: Env)
    ensures forall conns: seq<Conn> :: DueFrom(e, conns[..0]) == TIME_NEVER
  {
  }

  lemma DueFromStep(e: Env, conns: seq<Conn>, i: nat)
    requires i < |conns|
    ensures DueFrom(e, conns[..i + 1])
         == if conns[i].used then Sooner(DueOn(e, conns[i]), DueFrom(e, conns[..i])) else DueFrom(e, conns[..i])
    ensures DueFrom(e, conns[..i]) <= TIME_NEVER
  {
    hide DueOn;
    assert conns[..i + 1][..i] == conns[..i];
    DueFromBounded(e, conns[..i]);
  }

  lemma {:induction false} DueFromBounded(e: Env, conns: seq<Conn>)
    ensures DueFrom(e, conns) <= TIME_NEVER
    decreases |conns|
  {
    if conns != [] {
      DueFromBounded(e, conns[..|conns| - 1]);
    }
  }

  lemma SendPlayerStep(w: World, e: Env, conns: seq<Conn>, k: nat, p: PlayerInfo, why: PlayerReason, at: int)
    requires k < |conns|
    ensures SendPlayerFrom(w, e, conns, k, p, why, at)
         == SendPlayerFrom(w, if conns[k].used then SendPlayer(w, e, conns[k].info.conn, p, why, at) else e, conns, k + 1, p, why, at)
  {
    hide SendPlayer;
  }

  lemma SendPlayerEnd(w: World, e: Env, conns: seq<Conn>, p: PlayerInfo, why: PlayerReason, at: int)
    ensures SendPlayerFrom(w, e, conns, |conns|, p, why, at) == e
  {
  }

  lemma SendSessionStep(w: World, e: Env, conns: seq<Conn>, k: nat, state: Session, at: int)
    requires k < |conns|
    ensures SendSessionFrom(w, e, conns, k, state, at)
         == SendSessionFrom(w, if conns[k].used then SendSession(w, e, conns[k].info.conn, state, Changed, at) else e, conns, k + 1, state, at)
  {
    hide SendSession;
  }

  lemma SendSessionEnd(w: World, e: Env, conns: seq<Conn>, state: Session, at: int)
    ensures SendSessionFrom(w, e, conns, |conns|, state, at) == e
  {
  }

  /** A poll that has handed out `out` and then goes on with `r`. */
  function AfterPolled(out: seq<Write>, r: (Server, seq<Write>)): (Server, seq<Write>) {
    (r.0, out + r.1)
  }

  lemma PolledNothing(s: Server, max: nat)
    ensures PollWritesFrom(s, 0, max) == AfterPolled([], PollWritesFrom(s, 0, max))
  {
    hide PollWritesFrom;
    var r := PollWritesFrom(s, 0, max);
    assert [] + r.1 == r.1;
  }

  lemma PolledOne(out: seq<Write>, x: Write, r: (Server, seq<Write>))
    ensures AfterPolled(out, AfterPolled([x], r)) == AfterPolled(out + [x], r)
  {
    assert out + ([x] + r.1) == out + [x] + r.1;
  }

  lemma PollStep(s: Server, i: nat, max: nat)
    requires i <= |s.env.writes|
    ensures i < |s.env.writes| && max > 0 ==>
              PollWritesFrom(s, i, max)
              == if Held(s, s.env.writes[i]) then PollWritesFrom(s, i + 1, max)
                 else AfterPolled([s.env.writes[i]], PollWritesFrom(HandOut(s, i), i, max - 1))
    ensures i < |s.env.writes| ==> |HandOut(s, i).env.writes| == |s.env.writes| - 1
  {
    hide Held, WireBytes;
  }

  lemma PollEnd(s: Server, i: nat, max: nat)
    requires i <= |s.env.writes| && (i == |s.env.writes| || max == 0)
    ensures PollWritesFrom(s, i, max) == (s, [])
  {
  }

  function Recorded(s: Server, x: Write): Server {
    s.(env := WireBytes(s.env, x.conn, ServerToClient, Clear(x.data), s.env.now, false))
  }

  function PutOff(s: Server, k: nat): Server
    requires k < |s.conns|
  {
    s.(conns := s.conns[k := s.conns[k].(nextWrite := s.env.now + s.env.cfg.policy.writeSpacing)])
  }

  function TakenOut(s: Server, i: nat): Server
    requires i < |s.env.writes|
  {
    s.(env := s.env.(writes := Rings.Without(s.env.writes, i), trace := s.env.trace + [Polled(s.env.writes[i], s.env.now)]))
  }

  lemma HandOutParts(s: Server, i: nat, k: Option<nat>)
    requires i < |s.env.writes| && k == FindConn(s.conns, s.env.writes[i].conn)
    ensures var s1 := Recorded(s, s.env.writes[i]);
            var s2 := if k.Some? && s.env.cfg.policy.writeSpacing > 0 then PutOff(s1, k.value) else s1;
            && s1.conns == s.conns && i < |s1.env.writes| && i < |s2.env.writes|
            && HandOut(s, i) == TakenOut(s2, i)
  {
    hide WireBytes, FindConn;
    var x := s.env.writes[i];
    Logs.WireBytesKeepsRest(s.env, x.conn, ServerToClient, Clear(x.data), s.env.now, false);
  }
}
