/** The calls a host makes: connections, bytes, the clock, the player and the polls. */
module Server {
  import opened Bytes
  import opened Message
  import P = Protocol
  import opened Redact
  import opened Events
  import opened Rings
  import opened EventLog
  import opened WireLog
  import opened Hub
  import opened Conns
  import opened Frame

  datatype Server = Server(env: Env, conns: seq<Conn>)

  const MAX_CONNECTIONS: nat := 4096
  const RING_LIMIT: nat := 1000000

  function Default(n: nat, d: nat): nat {
    if n != 0 then n else d
  }

  /** The configuration with its zeros filled in. */
  function Completed(cfg: Config): Config {
    Config(Default(cfg.maxConnections, 4), Default(cfg.eventRing, 64), Default(cfg.writeRing, 32), cfg.wireRing,
           Default(cfg.maxMessage, 16 * 1024), cfg.policy)
  }

  /** The configurations `gsp_server_create` takes; its fields are unsigned 32-bit numbers. */
  predicate Usable(cfg: Config) {
    var c := Completed(cfg);
    && LEAST_MESSAGE <= c.maxMessage < WORD && c.maxConnections <= MAX_CONNECTIONS
    && c.eventRing <= RING_LIMIT && c.writeRing <= RING_LIMIT && c.wireRing < WORD
  }

  function NewEnv(cfg: Config): Env {
    Env(cfg, 0, NewLog(cfg.eventRing), [], NewWire(cfg.wireRing), NO_PLAYER, false, SessionNone, false, 0, [])
  }

  function NewServer(cfg: Config): Server {
    var c := Completed(cfg);
    Server(NewEnv(c), seq(c.maxConnections, _ => NO_CONN))
  }

  // --------------------------------------------------------------------------------------
  // Connections
  // --------------------------------------------------------------------------------------

  function FindFrom(conns: seq<Conn>, id: nat, i: nat): (r: Option<nat>)
    requires i <= |conns|
    ensures r.Some? ==> i <= r.value < |conns| && conns[r.value].used && conns[r.value].info.conn == id
    ensures r == None ==> forall k :: i <= k < |conns| ==> !(conns[k].used && conns[k].info.conn == id)
    decreases |conns| - i
  {
    if i == |conns| then None
    else if conns[i].used && conns[i].info.conn == id then Some(i)
    else FindFrom(conns, id, i + 1)
  }

  function FindConn(conns: seq<Conn>, id: nat): (r: Option<nat>)
    ensures r.Some? ==> r.value < |conns| && conns[r.value].used && conns[r.value].info.conn == id
    ensures r == None ==> forall k :: 0 <= k < |conns| ==> !(conns[k].used && conns[k].info.conn == id)
  {
    FindFrom(conns, id, 0)
  }

  function FreeFrom(conns: seq<Conn>, i: nat): (r: Option<nat>)
    requires i <= |conns|
    ensures r.Some? ==> i <= r.value < |conns| && !conns[r.value].used
    ensures r == None ==> forall k :: i <= k < |conns| ==> conns[k].used
    decreases |conns| - i
  {
    if i == |conns| then None else if !conns[i].used then Some(i) else FreeFrom(conns, i + 1)
  }

  const PEER_MAX: nat := 64

  function Fresh(id: nat, peer: seq<Byte>, now: int): Conn {
    NO_CONN.(used := true, nextWrite := now,
             info := NO_INFO.(conn := id, openedUs := now, lastMessageUs := TIME_UNKNOWN, lastShot := NO_SHOT,
                              peer := Field(PEER_MAX, CStr(peer))))
  }

  function Announce(w: World, e: Env, id: nat, now: int): Env {
    var e1 :=
      if e.cfg.policy.announcePlayer && e.playerSet && HasAnything(e.player)
      then SendPlayer(w, e, id, e.player, OnConnect, now) else e;
    if e.cfg.policy.announceReady && e1.session == SessionActive
    then SendSession(w, e1, id, SessionActive, OnConnect, now) else e1
  }

  function Open(w: World, s: Server, id: nat, peer: seq<Byte>, now: int): (Server, P.Status) {
    if s.env.closed then (s, P.Closed)
    else if id == CONN_NONE || id == CONN_ALL then (s, P.InvalidArg)
    else if FindConn(s.conns, id).Some? then (s, P.InvalidState)
    else
      match FreeFrom(s.conns, 0)
      case None => (s, P.TooManyConnections)
      case Some(k) =>
        var c := Fresh(id, peer, now);
        var e := SayConnection(w, s.env.(now := now), id, ConnectionOpened(c.info), now);
        (Server(Announce(w, e, id, now), s.conns[k := c]), P.Ok)
  }

  /** The connection at `k` ends: reported, its writes dropped, its slot free. */
  function Shut(w: World, s: Server, k: nat, cause: CloseCause, at: int): Server
    requires k < |s.conns|
  {
    var c := s.conns[k];
    var e := SayConnection(w, s.env, c.info.conn, ConnectionClosed(c.info, cause), at);
    Server(DropWritesFor(e, c.info.conn), s.conns[k := c.(used := false)])
  }

  function At(s: Server, now: int): Server {
    s.(env := s.env.(now := now))
  }

  function Closed(w: World, s: Server, id: nat, cause: CloseCause, now: int): (Server, P.Status) {
    if s.env.closed then (s, P.Closed)
    else
      match FindConn(s.conns, id)
      case None => (s, P.UnknownConnection)
      case Some(k) => (Shut(w, At(s, now), k, cause, now), P.Ok)
  }

  function ShutFrom(w: World, s: Server, k: nat): Server
    requires k <= |s.conns|
    decreases |s.conns| - k
  {
    if k == |s.conns| then s
    else if s.conns[k].used then ShutFrom(w, Shut(w, s, k, ServerClosed, s.env.now), k + 1)
    else ShutFrom(w, s, k + 1)
  }

  function Close(w: World, s: Server): Server {
    if s.env.closed then s
    else var t := ShutFrom(w, s, 0); t.(env := t.env.(closed := true))
  }

  predicate Scanned(s: Server) {
    forall k :: 0 <= k < |s.conns| ==> s.conns[k].scan <= |s.conns[k].rx|
  }

  function OnBytes(w: World, s: Server, id: nat, data: seq<Byte>, now: int): (Server, P.Status)
    requires Scanned(s)
  {
    if s.env.closed then (s, P.Closed)
    else
      match FindConn(s.conns, id)
      case None => (s, P.UnknownConnection)
      case Some(k) =>
        var (e, c, status) := TakeBytes(w, s.env.(now := now), s.conns[k], data, now);
        (Server(e, s.conns[k := c]), status)
  }

  // --------------------------------------------------------------------------------------
  // The clock
  // --------------------------------------------------------------------------------------

  function IdleDeadline(p: Policy, c: Conn): int {
    if p.idleAlarm <= 0 || c.idleReported then TIME_NEVER
    else (if c.info.lastMessageUs != TIME_UNKNOWN then c.info.lastMessageUs else c.info.openedUs) + p.idleAlarm
  }

  predicate HasWrite(writes: seq<Write>, id: nat) {
    exists i :: 0 <= i < |writes| && writes[i].conn == id
  }

  function Sooner(a: int, b: int): int {
    if a < b then a else b
  }

  /** When something is due on one connection. */
  function DueOn(e: Env, c: Conn): int {
    var idle := Sooner(IdleDeadline(e.cfg.policy, c), TIME_NEVER);
    if e.cfg.policy.writeSpacing > 0 && c.nextWrite > e.now && HasWrite(e.writes, c.info.conn)
    then Sooner(c.nextWrite, idle) else idle
  }

  function DueFrom(e: Env, conns: seq<Conn>): int {
    if conns == [] then TIME_NEVER
    else
      var k := |conns| - 1;
      if conns[k].used then Sooner(DueOn(e, conns[k]), DueFrom(e, conns[..k])) else DueFrom(e, conns[..k])
  }

  function NextDue(s: Server): int {
    if s.env.closed then TIME_NEVER else DueFrom(s.env, s.conns)
  }

  function TickFrom(s: Server, k: nat, now: int): Server
    requires k <= |s.conns|
    decreases |s.conns| - k
  {
    if k == |s.conns| then s
    else
      var c := s.conns[k];
      if c.used && IdleDeadline(s.env.cfg.policy, c) <= now then
        TickFrom(Server(Say(s.env, c.info.conn, now, ClientIdle), s.conns[k := c.(idleReported := true)]), k + 1, now)
      else TickFrom(s, k + 1, now)
  }

  function Tick(s: Server, now: int): Server {
    if s.env.closed then s else TickFrom(At(s, now), 0, now)
  }

  // --------------------------------------------------------------------------------------
  // Player and session
  // --------------------------------------------------------------------------------------

  function SendPlayerFrom(w: World, e: Env, conns: seq<Conn>, k: nat, p: PlayerInfo, why: PlayerReason, at: int): Env
    requires k <= |conns|
    decreases |conns| - k
  {
    if k == |conns| then e
    else
      var e1 := if conns[k].used then SendPlayer(w, e, conns[k].info.conn, p, why, at) else e;
      SendPlayerFrom(w, e1, conns, k + 1, p, why, at)
  }

  function SetPlayer(w: World, s: Server, p: PlayerInfo, now: int): (Server, P.Status) {
    if s.env.closed then (s, P.Closed)
    else
      var changed := !s.env.playerSet || !SamePlayer(s.env.player, p);
      var e := s.env.(now := now, player := p, playerSet := true);
      if changed && HasAnything(p) then (s.(env := SendPlayerFrom(w, e, s.conns, 0, p, Changed, now)), P.Ok)
      else (s.(env := e), P.Ok)
  }

  /** Without `p`, the stored player is sent. */
  function SendPlayerInfo(w: World, s: Server, id: nat, p: Option<PlayerInfo>, now: int): (Server, P.Status) {
    if s.env.closed then (s, P.Closed)
    else
      var q := if p.Some? then p.value else s.env.player;
      var e := s.env.(now := now);
      if id == CONN_ALL then (s.(env := SendPlayerFrom(w, e, s.conns, 0, q, Explicit, now)), P.Ok)
      else if FindConn(s.conns, id) == None then (s.(env := e), P.UnknownConnection)
      else (s.(env := SendPlayer(w, e, id, q, Explicit, now)), P.Ok)
  }

  function SendSessionFrom(w: World, e: Env, conns: seq<Conn>, k: nat, state: Session, at: int): Env
    requires k <= |conns|
    decreases |conns| - k
  {
    if k == |conns| then e
    else
      var e1 := if conns[k].used then SendSession(w, e, conns[k].info.conn, state, Changed, at) else e;
      SendSessionFrom(w, e1, conns, k + 1, state, at)
  }

  function SetSession(w: World, s: Server, state: Session, now: int): (Server, P.Status) {
    if s.env.closed then (s, P.Closed)
    else
      var e := s.env.(now := now);
      if e.session == state then (s.(env := e), P.Ok)
      else
        (s.(env := SendSessionFrom(w, e.(session := state), s.conns, 0, state, now)), P.Ok)
  }

  // --------------------------------------------------------------------------------------
  // Polls
  // --------------------------------------------------------------------------------------

  /** Held back: a write so soon after the last one to the same connection. */
  predicate Held(s: Server, x: Write) {
    var k := FindConn(s.conns, x.conn);
    k.Some? && s.env.now < s.conns[k.value].nextWrite
  }

  /** The write at `i` handed out: recorded now, and the next one to its connection put off. */
  function HandOut(s: Server, i: nat): Server
    requires i < |s.env.writes|
  {
    var x, k := s.env.writes[i], FindConn(s.conns, s.env.writes[i].conn);
    var e := WireBytes(s.env, x.conn, ServerToClient, Clear(x.data), s.env.now, false);
    Server(
      e.(writes := Without(s.env.writes, i), trace := e.trace + [Polled(x, e.now)]),
      if k.Some? && e.cfg.policy.writeSpacing > 0
      then s.conns[k.value := s.conns[k.value].(nextWrite := e.now + e.cfg.policy.writeSpacing)] else s.conns)
  }

  function PollWritesFrom(s: Server, i: nat, max: nat): (Server, seq<Write>)
    requires i <= |s.env.writes|
    decreases |s.env.writes| - i
  {
    if i == |s.env.writes| || max == 0 then (s, [])
    else if Held(s, s.env.writes[i]) then PollWritesFrom(s, i + 1, max)
    else
      var x := s.env.writes[i];
      var (t, out) := PollWritesFrom(HandOut(s, i), i, max - 1);
      (t, [x] + out)
  }

  function PollWrites(s: Server, max: nat): (Server, seq<Write>) {
    PollWritesFrom(s, 0, max)
  }

  function PollEvents(s: Server, max: nat): (Server, seq<Event>) {
    var (l, out) := EventLog.Poll(s.env.log, max);
    (s.(env := s.env.(log := l)), out)
  }

  function PollWire(s: Server, max: nat): (Server, seq<Chunk>) {
    var (l, out) := WireLog.PollWire(s.env.wire, max, |s.env.log.emitted|);
    (s.(env := s.env.(wire := l)), out)
  }

  // --------------------------------------------------------------------------------------
  // Runs
  // --------------------------------------------------------------------------------------

  datatype Call =
    | CallOpen(id: nat, peer: seq<Byte>, now: int)
    | CallClosed(id: nat, cause: CloseCause, now: int)
    | CallBytes(id: nat, data: seq<Byte>, now: int)
    | CallTick(now: int)
    | CallSetPlayer(player: PlayerInfo, now: int)
    | CallSendPlayer(id: nat, info: Option<PlayerInfo>, now: int)
    | CallSetSession(state: Session, now: int)
    | CallPollWrites(max: nat)
    | CallPollEvents(max: nat)
    | CallPollWire(max: nat)
    | CallClose

  function Do(w: World, s: Server, call: Call): Server
    requires Scanned(s)
  {
    match call
    case CallOpen(id, peer, now) => Open(w, s, id, peer, now).0
    case CallClosed(id, cause, now) => Closed(w, s, id, cause, now).0
    case CallBytes(id, data, now) => OnBytes(w, s, id, data, now).0
    case CallTick(now) => Tick(s, now)
    case CallSetPlayer(player, now) => SetPlayer(w, s, player, now).0
    case CallSendPlayer(id, info, now) => SendPlayerInfo(w, s, id, info, now).0
    case CallSetSession(state, now) => SetSession(w, s, state, now).0
    case CallPollWrites(max) => PollWrites(s, max).0
    case CallPollEvents(max) => PollEvents(s, max).0
    case CallPollWire(max) => PollWire(s, max).0
    case CallClose => Close(w, s)
  }
}
