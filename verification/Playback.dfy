/** What a replay makes of a capture: the server, the table of open ids, the replies waiting and the report. */
module Playback {
  import opened Bytes
  import opened Numbers
  import opened Message
  import P = Protocol
  import opened Decode
  import opened Events
  import EventLog
  import Lives
  import Runs
  import Rings
  import opened Hub
  import opened Conns
  import opened Server
  import opened Resuming
  import S = Stalls
  import R = Record

  const REPLAY_CONNS: nat := 64
  const REPLAY_PENDING: nat := 32

  const TO_SERVER: Byte := 0
  const TO_CLIENT: Byte := 1
  const META_LINE: Byte := 2
  const LOST_FLAG: nat := 2

  const CLOSED_WORD: seq<Byte> := Ascii("CONNECTION_CLOSED")

  datatype Report = Report(
    chunks: nat, lost: nat, client: nat, server: nat, meta: nat, connections: nat,
    messages: nat, shots: nat, errors: nat, flagsSeen: set<Flag>,
    produced: nat, matched: nat, differing: nat, missing: nat, unsolicited: nat, extra: nat)

  const NO_REPORT: Report := Report(0, 0, 0, 0, 0, 0, 0, 0, 0, {}, 0, 0, 0, 0, 0, 0)

  // --------------------------------------------------------------------------------------
  // One recorded reply
  // --------------------------------------------------------------------------------------

  function CodeOf(kind: WriteKind): int {
    match kind
    case Ack => P.CODE_SHOT_RECEIVED
    case Player => P.CODE_PLAYER_INFO
    case Ready => P.CODE_READY
    case RoundEnded => P.CODE_ROUND_ENDED
    case Failed => P.CODE_FAILURE
  }

  predicate Identical(x: Write, c: R.Record) {
    x.conn == c.conn && x.data == c.data
  }

  predicate SameCode(x: Write, c: R.Record, decoded: Option<Response>) {
    decoded.Some? && x.conn == c.conn && CodeOf(x.kind) == decoded.value.code
  }

  predicate HostOriginated(decoded: Option<Response>) {
    decoded.Some? && decoded.value.code in [P.CODE_PLAYER_INFO, P.CODE_READY, P.CODE_ROUND_ENDED]
  }

  predicate Claims(x: Write, c: R.Record, decoded: Option<Response>, exact: bool) {
    if exact then Identical(x, c) else SameCode(x, c, decoded)
  }

  datatype Verdict = Matched | Differing | Unsolicited | Missing

  /** The first pending reply that claims the recorded one, taken out. */
  predicate TakesFirst(before: seq<Write>, after: seq<Write>, c: R.Record, decoded: Option<Response>, exact: bool) {
    exists i :: 0 <= i < |before| && IsFirst(before, i, c, decoded, exact) && after == Rings.Without(before, i)
  }

  predicate IsFirst(pending: seq<Write>, i: nat, c: R.Record, decoded: Option<Response>, exact: bool)
    requires i < |pending|
  {
    Claims(pending[i], c, decoded, exact) && forall j :: 0 <= j < i ==> !Claims(pending[j], c, decoded, exact)
  }

  predicate NoneClaims(pending: seq<Write>, c: R.Record, decoded: Option<Response>, exact: bool) {
    forall i :: 0 <= i < |pending| ==> !Claims(pending[i], c, decoded, exact)
  }

  /**
   * What a recorded reply is: the first identical reply claims it; failing that the first of the
   * same code, as a difference; failing that it is the host's own, or missing.
   */
  predicate Judged(before: seq<Write>, after: seq<Write>, c: R.Record, decoded: Option<Response>, v: Verdict) {
    match v
    case Matched => TakesFirst(before, after, c, decoded, true)
    case Differing => NoneClaims(before, c, decoded, true) && TakesFirst(before, after, c, decoded, false)
    case Unsolicited =>
      NoneClaims(before, c, decoded, true) && NoneClaims(before, c, decoded, false) && HostOriginated(decoded) && after == before
    case Missing =>
      NoneClaims(before, c, decoded, true) && NoneClaims(before, c, decoded, false) && !HostOriginated(decoded) && after == before
  }

  lemma JudgedSize(before: seq<Write>, after: seq<Write>, c: R.Record, decoded: Option<Response>, v: Verdict)
    requires Judged(before, after, c, decoded, v)
    ensures |after| == |before| - if v == Matched || v == Differing then 1 else 0
  {
  }

  function Counted(r: Report, v: Verdict): Report {
    match v
    case Matched => r.(matched := r.matched + 1)
    case Differing => r.(differing := r.differing + 1)
    case Unsolicited => r.(unsolicited := r.unsolicited + 1)
    case Missing => r.(missing := r.missing + 1)
  }

  /** Every reply produced is accounted for, and every recorded one. */
  predicate Balanced(r: Report, pending: nat) {
    && r.produced == r.matched + r.differing + r.extra + pending
    && r.server == r.matched + r.differing + r.missing + r.unsolicited
  }

  // --------------------------------------------------------------------------------------
  // Which reply it is
  // --------------------------------------------------------------------------------------

  /** The first pending reply from `i` on that claims the recorded one. */
  function FirstClaim(pending: seq<Write>, c: R.Record, decoded: Option<Response>, exact: bool, i: nat): (r: Option<nat>)
    requires i <= |pending|
    ensures r.Some? ==> i <= r.value < |pending| && Claims(pending[r.value], c, decoded, exact)
                        && forall j :: i <= j < r.value ==> !Claims(pending[j], c, decoded, exact)
    ensures r == None ==> forall j :: i <= j < |pending| ==> !Claims(pending[j], c, decoded, exact)
    decreases |pending| - i
  {
    if i == |pending| then None
    else if Claims(pending[i], c, decoded, exact) then Some(i)
    else FirstClaim(pending, c, decoded, exact, i + 1)
  }

  function Judgement(pending: seq<Write>, c: R.Record, decoded: Option<Response>): (Verdict, seq<Write>) {
    match FirstClaim(pending, c, decoded, true, 0)
    case Some(i) => (Matched, Rings.Without(pending, i))
    case None =>
      match FirstClaim(pending, c, decoded, false, 0)
      case Some(i) => (Differing, Rings.Without(pending, i))
      case None => (if HostOriginated(decoded) then Unsolicited else Missing, pending)
  }

  /** There is one judgement, and it is this. */
  lemma OneJudgement(before: seq<Write>, after: seq<Write>, c: R.Record, decoded: Option<Response>, v: Verdict)
    ensures Judged(before, after, c, decoded, v) <==> (v, after) == Judgement(before, c, decoded)
  {
    hide Claims, HostOriginated;
    var a, b := FirstClaim(before, c, decoded, true, 0), FirstClaim(before, c, decoded, false, 0);
    assert a.Some? ==> IsFirst(before, a.value, c, decoded, true);
    assert b.Some? ==> IsFirst(before, b.value, c, decoded, false);
  }

  // --------------------------------------------------------------------------------------
  // Draining
  // --------------------------------------------------------------------------------------

  /** A replay under way: the ids it holds open, and the replies that no recorded one has claimed yet. */
  datatype Play = Play(server: Server, ids: seq<nat>, pending: seq<Write>, report: Report)

  /** The writes that come of polling eight at a time until none comes. */
  function Produced(s: Server): seq<Write>
    requires s.env.log.cap > 0
    decreases |s.env.writes|
  {
    S.PollOn(s, 0, 8);
    var (t, out) := PollWrites(s, 8);
    if out == [] then [] else out + Produced(t)
  }

  /** The events that come of polling sixteen at a time. */
  function Happened(s: Server): seq<Event>
    decreases |s.env.log.items|
  {
    var (t, out) := PollEvents(s, 16);
    if out == [] then [] else out + Happened(t)
  }

  /** As many of the replies as there is room for, the first ones. */
  function Pooled(pending: seq<Write>, out: seq<Write>): (r: seq<Write>)
    ensures |r| <= REPLAY_PENDING && |r| <= |pending| + |out|
  {
    Upto(pending + out, REPLAY_PENDING)
  }

  function Upto(s: seq<Write>, max: nat): (r: seq<Write>)
    ensures |r| <= max && |r| <= |s|
  {
    if |s| <= max then s else s[..max]
  }

  /** Replies produced are kept for later, those that do not fit counted as extra. */
  function Took(p: Play, out: seq<Write>): Play {
    var kept := Pooled(p.pending, out);
    p.(pending := kept,
       report := p.report.(produced := p.report.produced + |out|, extra := p.report.extra + (|p.pending| + |out| - |kept|)))
  }

  function Messages(es: seq<Event>): seq<Message> {
    if es == [] then []
    else
      var x := es[|es| - 1].body;
      Messages(es[..|es| - 1]) + if x.Heard? then [x.message] else []
  }

  function ShotsOf(ms: seq<Message>): nat {
    if ms == [] then 0 else ShotsOf(ms[..|ms| - 1]) + if ms[|ms| - 1].kind == Shot then 1 else 0
  }

  function FlagsOf(ms: seq<Message>): set<Flag> {
    set m, f | m in ms && f in m.flags :: f
  }

  function Errors(es: seq<Event>): nat {
    if es == [] then 0 else Errors(es[..|es| - 1]) + if es[|es| - 1].body.ProtocolError? then 1 else 0
  }

  /** Messages, shots, errors and flags are counted off the events. */
  function Tallied(p: Play, es: seq<Event>): Play {
    var ms := Messages(es);
    p.(report := p.report.(messages := p.report.messages + |ms|, shots := p.report.shots + ShotsOf(ms),
                           errors := p.report.errors + Errors(es), flagsSeen := p.report.flagsSeen + FlagsOf(ms)))
  }

  function Emptied(p: Play): Play
    requires p.server.env.log.cap > 0
  {
    Took(p.(server := S.DrainWrites(p.server)), Produced(p.server))
  }

  function Told(p: Play): Play {
    Tallied(p.(server := S.DrainEvents(p.server)), Happened(p.server))
  }

  /** `replay_drain`. */
  function AfterDrain(p: Play): (q: Play)
    requires S.Running(p.server)
    ensures S.Running(q.server) && q.server == S.AllDrained(p.server) && q.ids == p.ids
  {
    S.DrainedOn(p.server);
    Told(Emptied(p))
  }

  lemma PooledTwice(pending: seq<Write>, a: seq<Write>, b: seq<Write>)
    ensures Pooled(Pooled(pending, a), b) == Pooled(pending, a + b)
  {
    assert pending + a + b == pending + (a + b);
    if |pending + a| > REPLAY_PENDING {
      assert ((pending + a)[..REPLAY_PENDING] + b)[..REPLAY_PENDING] == (pending + (a + b))[..REPLAY_PENDING];
    }
  }

  lemma TookTwice(p: Play, a: seq<Write>, b: seq<Write>)
    ensures Took(Took(p, a), b) == Took(p, a + b)
  {
    hide Pooled;
    PooledTwice(p.pending, a, b);
  }

  /** One round of polling writes, then the rest of them. */
  lemma EmptiedStep(p: Play)
    requires S.Running(p.server) && |p.pending| <= REPLAY_PENDING
    ensures var (t, out) := PollWrites(p.server, 8);
            && t.env.log.cap > 0
            && if out == [] then p.(server := t) == Emptied(p)
               else |t.env.writes| < |p.server.env.writes| && Emptied(Took(p.(server := t), out)) == Emptied(p)
  {
    hide PollWritesFrom, Pooled;
    S.PollOn(p.server, 0, 8);
    var (t, out) := PollWrites(p.server, 8);
    if out == [] {
      NothingPooled(p.pending);
    } else {
      TookTwice(p.(server := S.DrainWrites(t)), out, Produced(t));
    }
  }

  lemma NothingPooled(pending: seq<Write>)
    requires |pending| <= REPLAY_PENDING
    ensures Pooled(pending, []) == pending
  {
    assert pending + [] == pending;
  }

  lemma {:induction false} MessagesConcat(a: seq<Event>, b: seq<Event>)
    ensures Messages(a + b) == Messages(a) + Messages(b) && Errors(a + b) == Errors(a) + Errors(b)
    decreases |b|
  {
    if b == [] {
      assert a + b == a;
    } else {
      var k := |b| - 1;
      assert (a + b)[..|a + b| - 1] == a + b[..k];
      MessagesConcat(a, b[..k]);
    }
  }

  lemma {:induction false} ShotsConcat(a: seq<Message>, b: seq<Message>)
    ensures ShotsOf(a + b) == ShotsOf(a) + ShotsOf(b) && FlagsOf(a + b) == FlagsOf(a) + FlagsOf(b)
    decreases |b|
  {
    if b == [] {
      assert a + b == a;
    } else {
      var k := |b| - 1;
      assert (a + b)[..|a + b| - 1] == a + b[..k];
      ShotsConcat(a, b[..k]);
    }
  }

  lemma NotedTwice(p: Play, a: seq<Event>, b: seq<Event>)
    ensures Tallied(Tallied(p, a), b) == Tallied(p, a + b)
  {
    hide Messages, ShotsOf, FlagsOf, Errors;
    MessagesConcat(a, b);
    ShotsConcat(Messages(a), Messages(b));
    assert p.report.flagsSeen + FlagsOf(Messages(a)) + FlagsOf(Messages(b))
        == p.report.flagsSeen + (FlagsOf(Messages(a)) + FlagsOf(Messages(b)));
  }

  lemma NothingNoted(p: Play)
    ensures Tallied(p, []) == p
  {
    assert FlagsOf([]) == {};
  }

  /** One event more. */
  lemma NotedSnoc(p: Play, es: seq<Event>, i: nat)
    requires i < |es|
    ensures Tallied(p, es[..i + 1]) == Tallied(Tallied(p, es[..i]), [es[i]])
  {
    hide Tallied;
    NotedTwice(p, es[..i], [es[i]]);
    assert es[..i] + [es[i]] == es[..i + 1];
  }

  /** What one event is counted for. */
  lemma NotedOne(p: Play, x: Event)
    ensures Tallied(p, [x]) == match x.body
                             case Heard(m, _) =>
                               p.(report := p.report.(messages := p.report.messages + 1,
                                                      shots := p.report.shots + if m.kind == Shot then 1 else 0,
                                                      flagsSeen := p.report.flagsSeen + m.flags))
                             case ProtocolError(_) => p.(report := p.report.(errors := p.report.errors + 1))
                             case _ => p
  {
    hide Messages, ShotsOf, FlagsOf, Errors;
    OneEvent(x);
    if x.body.Heard? {
      OneMessage(x.body.message);
    } else {
      NoMessage();
    }
  }

  lemma OneEvent(x: Event)
    ensures Messages([x]) == if x.body.Heard? then [x.body.message] else []
    ensures Errors([x]) == if x.body.ProtocolError? then 1 else 0
  {
    assert [x][..0] == [] && Messages([]) == [] && Errors([]) == 0;
  }

  lemma OneMessage(m: Message)
    ensures ShotsOf([m]) == (if m.kind == Shot then 1 else 0) && FlagsOf([m]) == m.flags
  {
    assert [m][..0] == [] && ShotsOf([]) == 0;
  }

  lemma NoMessage()
    ensures ShotsOf([]) == 0 && FlagsOf([]) == {}
  {
  }

  lemma ToldStep(p: Play)
    ensures var (t, out) := PollEvents(p.server, 16);
            if out == [] then p.(server := t) == Told(p)
            else |t.env.log.items| < |p.server.env.log.items| && Told(Tallied(p.(server := t), out)) == Told(p)
  {
    hide Tallied;
    var (t, out) := PollEvents(p.server, 16);
    if out == [] {
      NothingNoted(p.(server := t));
    } else {
      NotedTwice(p.(server := S.DrainEvents(t)), out, Happened(t));
      NotedServer(p.(server := t), out, S.DrainEvents(t));
    }
  }

  /** What is counted does not depend on where the server stands. */
  lemma NotedServer(p: Play, es: seq<Event>, t: Server)
    ensures Tallied(p, es).(server := t) == Tallied(p.(server := t), es) && Tallied(p, es).server == p.server
  {
  }

  // --------------------------------------------------------------------------------------
  // One chunk
  // --------------------------------------------------------------------------------------

  lemma OpenRuns(w: World, s: Server, conn: nat, at: int)
    requires S.Running(s)
    ensures S.Running(Open(w, s, conn, [], at).0)
  {
    hide FindConn, FreeFrom, SayConnection, Announce, Field, CStr;
    if !s.env.closed && conn != CONN_NONE && conn != CONN_ALL && FindConn(s.conns, conn) == None && FreeFrom(s.conns, 0).Some? {
      var c, e := Fresh(conn, [], at), s.env.(now := at);
      Lives.SayConnectionLives(w, e, conn, ConnectionOpened(c.info), at, conn);
      AnnounceFields(w, SayConnection(w, e, conn, ConnectionOpened(c.info), at), conn, at);
    }
  }

  lemma CloseRuns(w: World, s: Server, conn: nat, at: int)
    requires S.Running(s)
    ensures S.Running(Closed(w, s, conn, RemoteClosed, at).0)
  {
    hide FindConn, SayConnection, DropWritesFor;
    if !s.env.closed && FindConn(s.conns, conn).Some? {
      var c := s.conns[FindConn(s.conns, conn).value];
      var e := s.env.(now := at);
      Lives.SayConnectionLives(w, e, c.info.conn, ConnectionClosed(c.info, RemoteClosed), at, conn);
      Runs.DropKeepsEnv(SayConnection(w, e, c.info.conn, ConnectionClosed(c.info, RemoteClosed), at), c.info.conn);
    }
  }

  /** An id that the server opened: remembered if there is room, and counted. */
  function Listed(p: Play, conn: nat): Play {
    p.(ids := if |p.ids| < REPLAY_CONNS then p.ids + [conn] else p.ids,
       report := p.report.(connections := p.report.connections + 1))
  }

  /** A connection is opened when its first bytes come. */
  function Opened(w: World, p: Play, conn: nat, at: int): (q: Play)
    requires S.Running(p.server)
    ensures S.Running(q.server)
  {
    if conn in p.ids then p
    else
      OpenRuns(w, p.server, conn, at);
      var (t, status) := Open(w, p.server, conn, [], at);
      AfterDrain(if status == P.Ok then Listed(p.(server := t), conn) else p.(server := t))
  }

  /** Drains and resumed calls, `n` of them at most; and whether the last was taken. */
  function Resumed(w: World, p: Play, conn: nat, at: int, n: nat): (r: (Play, bool))
    requires S.Running(p.server)
    ensures S.Running(r.0.server)
    decreases n
  {
    if n == 0 then (p, false)
    else
      var u := AfterDrain(p);
      S.BytesLive(w, u.server, conn, [], at);
      var (t, status) := OnBytes(w, u.server, conn, [], at);
      if status == P.QueueFull then Resumed(w, u.(server := t), conn, at, n - 1) else (u.(server := t), true)
  }

  /** The chunk's bytes handed over, and resumed while they are refused. */
  function Fed(w: World, p: Play, conn: nat, data: seq<Byte>, at: int, rounds: nat): (r: (Play, bool))
    requires S.Running(p.server)
    ensures S.Running(r.0.server)
  {
    S.BytesLive(w, p.server, conn, data, at);
    var (t, status) := OnBytes(w, p.server, conn, data, at);
    if status == P.QueueFull then Resumed(w, p.(server := t), conn, at, rounds) else (p.(server := t), true)
  }

  function ClientStep(w: World, p: Play, c: R.Record, rounds: nat): (r: (Play, bool))
    requires S.Running(p.server)
    ensures S.Running(r.0.server)
  {
    var u := Opened(w, p.(report := p.report.(client := p.report.client + 1)), c.conn, c.at);
    var (v, done) := Fed(w, u, c.conn, c.data, c.at, rounds);
    if done then (AfterDrain(v), true) else (v, false)
  }

  function Compared(w: World, p: Play, c: R.Record): Play {
    var (v, after) := Judgement(p.pending, c, DecodeResponse(w.lib, c.data));
    p.(pending := after, report := Counted(p.report, v))
  }

  function ServerStep(w: World, p: Play, c: R.Record): (q: Play)
    requires S.Running(p.server)
    ensures S.Running(q.server)
  {
    var u := AfterDrain(p);
    Compared(w, u.(report := u.report.(server := u.report.server + 1)), c)
  }

  function WithoutFirst(ids: seq<nat>, conn: nat): seq<nat> {
    if ids == [] then [] else if ids[0] == conn then ids[1..] else [ids[0]] + WithoutFirst(ids[1..], conn)
  }

  predicate SaysClosed(c: R.Record) {
    |c.data| >= |CLOSED_WORD| && c.data[..|CLOSED_WORD|] == CLOSED_WORD
  }

  /** A line that says a connection was closed closes it, if it is held open here. */
  function MetaStep(w: World, p: Play, c: R.Record): (q: Play)
    requires S.Running(p.server)
    ensures S.Running(q.server)
  {
    var u := p.(report := p.report.(meta := p.report.meta + 1));
    if SaysClosed(c) && c.conn in p.ids then
      CloseRuns(w, p.server, c.conn, c.at);
      AfterDrain(u.(server := Closed(w, p.server, c.conn, RemoteClosed, c.at).0, ids := WithoutFirst(p.ids, c.conn)))
    else u
  }

  function Seen(p: Play, c: R.Record): Play {
    p.(report := p.report.(chunks := p.report.chunks + 1, lost := p.report.lost + if c.flags / LOST_FLAG % 2 == 1 then 1 else 0))
  }

  /** One chunk; false if its bytes are still refused after `rounds` rounds. */
  function ChunkStep(w: World, p: Play, c: R.Record, rounds: nat): (r: (Play, bool))
    requires S.Running(p.server)
    ensures S.Running(r.0.server)
  {
    var u := Seen(p, c);
    if c.direction == TO_SERVER then ClientStep(w, u, c, rounds)
    else if c.direction == TO_CLIENT then (ServerStep(w, u, c), true)
    else if c.direction == META_LINE then (MetaStep(w, u, c), true)
    else (u, true)
  }

  /** The chunks one after another, as far as their bytes are taken. */
  function ChunkSteps(w: World, p: Play, rs: seq<R.Record>, rounds: nat): (r: (Play, bool))
    requires S.Running(p.server)
    ensures S.Running(r.0.server)
    decreases |rs|
  {
    if rs == [] then (p, true)
    else
      var (u, done) := ChunkSteps(w, p, rs[..|rs| - 1], rounds);
      if done then ChunkStep(w, u, rs[|rs| - 1], rounds) else (u, false)
  }

  /** Behind the last chunk: drained once more, and what nothing claimed counted. */
  function Finished(p: Play): (q: Play)
    requires S.Running(p.server)
    ensures S.Running(q.server)
  {
    var u := AfterDrain(p);
    u.(report := u.report.(extra := u.report.extra + |u.pending|))
  }

  /** `gsp_replay_into_server`. */
  function Played(w: World, p: Play, rs: seq<R.Record>, rounds: nat): (r: (Play, bool))
    requires S.Running(p.server)
  {
    var (u, done) := ChunkSteps(w, p, rs, rounds);
    if done then (Finished(u), true) else (u, false)
  }

  lemma {:induction false} StepsConcat(w: World, p: Play, a: seq<R.Record>, b: seq<R.Record>, rounds: nat)
    requires S.Running(p.server)
    ensures ChunkSteps(w, p, a + b, rounds)
         == var (u, done) := ChunkSteps(w, p, a, rounds);
            if done then ChunkSteps(w, u, b, rounds) else (u, false)
    decreases |b|
  {
    hide ChunkStep, S.Running;
    if b == [] {
      assert a + b == a;
    } else {
      var k := |b| - 1;
      assert (a + b)[..|a + b| - 1] == a + b[..k];
      StepsConcat(w, p, a, b[..k], rounds);
    }
  }

  // --------------------------------------------------------------------------------------
  // Every reply is counted once
  // --------------------------------------------------------------------------------------

  /** The counters of chunks are as they were. */
  predicate SameChunks(a: Report, b: Report) {
    b.chunks == a.chunks && b.lost == a.lost && b.client == a.client && b.server == a.server && b.meta == a.meta
  }

  predicate Accounted(p: Play) {
    Balanced(p.report, |p.pending|)
  }

  lemma DrainedBalanced(p: Play)
    requires S.Running(p.server)
    ensures SameChunks(p.report, AfterDrain(p).report) && (Accounted(p) ==> Accounted(AfterDrain(p)))
  {
    hide S.DrainWrites, S.DrainEvents, Produced, Happened, Messages, ShotsOf, FlagsOf, Errors, S.Running;
  }

  lemma OpenedBalanced(w: World, p: Play, conn: nat, at: int)
    requires S.Running(p.server)
    ensures var q := Opened(w, p, conn, at); SameChunks(p.report, q.report) && (Accounted(p) ==> Accounted(q))
  {
    hide Open, AfterDrain, S.Running;
    if conn !in p.ids {
      OpenRuns(w, p.server, conn, at);
      var (t, status) := Open(w, p.server, conn, [], at);
      DrainedBalanced(if status == P.Ok then Listed(p.(server := t), conn) else p.(server := t));
    }
  }

  lemma {:induction false} ResumedBalanced(w: World, p: Play, conn: nat, at: int, n: nat)
    requires S.Running(p.server)
    ensures var q := Resumed(w, p, conn, at, n).0; SameChunks(p.report, q.report) && (Accounted(p) ==> Accounted(q))
    decreases n
  {
    hide OnBytes, AfterDrain, Scanned;
    if n > 0 {
      var u := AfterDrain(p);
      DrainedBalanced(p);
      S.BytesLive(w, u.server, conn, [], at);
      ResumedBalanced(w, u.(server := OnBytes(w, u.server, conn, [], at).0), conn, at, n - 1);
    }
  }

  lemma FedBalanced(w: World, p: Play, conn: nat, data: seq<Byte>, at: int, rounds: nat)
    requires S.Running(p.server)
    ensures var q := Fed(w, p, conn, data, at, rounds).0; SameChunks(p.report, q.report) && (Accounted(p) ==> Accounted(q))
  {
    hide OnBytes, Resumed, Scanned;
    S.BytesLive(w, p.server, conn, data, at);
    ResumedBalanced(w, p.(server := OnBytes(w, p.server, conn, data, at).0), conn, at, rounds);
  }

  /** One chunk is counted as what it is, and keeps the account of replies. */
  lemma StepBalanced(w: World, p: Play, c: R.Record, rounds: nat)
    requires S.Running(p.server)
    ensures var q := ChunkStep(w, p, c, rounds).0;
            && (Accounted(p) ==> Accounted(q))
            && q.report.chunks == p.report.chunks + 1
            && q.report.lost == p.report.lost + (if c.flags / 2 % 2 == 1 then 1 else 0)
            && q.report.client == p.report.client + (if c.direction == TO_SERVER then 1 else 0)
            && q.report.server == p.report.server + (if c.direction == TO_CLIENT then 1 else 0)
            && q.report.meta == p.report.meta + (if c.direction == META_LINE then 1 else 0)
  {
    hide Opened, Fed, AfterDrain, DecodeResponse, Judgement, Closed, S.Running;
    var u := Seen(p, c);
    if c.direction == TO_SERVER {
      var v := u.(report := u.report.(client := u.report.client + 1));
      OpenedBalanced(w, v, c.conn, c.at);
      var x := Opened(w, v, c.conn, c.at);
      FedBalanced(w, x, c.conn, c.data, c.at, rounds);
      DrainedBalanced(Fed(w, x, c.conn, c.data, c.at, rounds).0);
    } else if c.direction == TO_CLIENT {
      DrainedBalanced(u);
      ComparedBalanced(w, AfterDrain(u), c);
    } else if c.direction == META_LINE && SaysClosed(c) && c.conn in u.ids {
      CloseRuns(w, u.server, c.conn, c.at);
      var v := u.(report := u.report.(meta := u.report.meta + 1));
      DrainedBalanced(v.(server := Closed(w, u.server, c.conn, RemoteClosed, c.at).0, ids := WithoutFirst(u.ids, c.conn)));
    }
  }

  lemma ComparedBalanced(w: World, p: Play, c: R.Record)
    ensures var q := Compared(w, p.(report := p.report.(server := p.report.server + 1)), c);
            && (Accounted(p) ==> Accounted(q))
            && SameChunks(p.report.(server := p.report.server + 1), q.report)
  {
    hide DecodeResponse, FirstClaim, HostOriginated;
  }

  /** How many of the chunks go one way. */
  function Going(rs: seq<R.Record>, direction: Byte): nat {
    if rs == [] then 0 else Going(rs[..|rs| - 1], direction) + if rs[|rs| - 1].direction == direction then 1 else 0
  }

  lemma {:induction false} StepsBalanced(w: World, p: Play, rs: seq<R.Record>, rounds: nat)
    requires S.Running(p.server)
    ensures var (q, done) := ChunkSteps(w, p, rs, rounds);
            && (Accounted(p) ==> Accounted(q))
            && (done ==>
                  && q.report.chunks == p.report.chunks + |rs| && q.report.client == p.report.client + Going(rs, TO_SERVER)
                  && q.report.server == p.report.server + Going(rs, TO_CLIENT) && q.report.meta == p.report.meta + Going(rs, META_LINE))
    decreases |rs|
  {
    hide ChunkStep, S.Running, Balanced;
    if rs != [] {
      var n := |rs| - 1;
      StepsBalanced(w, p, rs[..n], rounds);
      StepBalanced(w, ChunkSteps(w, p, rs[..n], rounds).0, rs[n], rounds);
    }
  }

  lemma FinishedBalanced(p: Play)
    requires S.Running(p.server)
    ensures SameChunks(p.report, Finished(p).report) && (Accounted(p) ==> Balanced(Finished(p).report, 0))
  {
    hide AfterDrain, S.Running;
    DrainedBalanced(p);
  }

  lemma NothingBalanced()
    ensures Balanced(NO_REPORT, 0) && NO_REPORT.chunks == 0 && NO_REPORT.client == 0 && NO_REPORT.server == 0 && NO_REPORT.meta == 0
  {
  }

  /**
   * Whatever the server, the clock and the capture, every reply produced and every reply recorded is
   * counted once, at the end of the replay and, with the replies still pending, wherever it is cut
   * short; and at the end every chunk has been counted as what it is.
   */
  lemma PlayedBalanced(w: World, p: Play, rs: seq<R.Record>, rounds: nat)
    requires S.Running(p.server) && p.report == NO_REPORT && p.pending == []
    ensures var (q, done) := Played(w, p, rs, rounds);
            && Balanced(q.report, if done then 0 else |q.pending|)
            && (done ==>
                  && q.report.chunks == |rs| && q.report.client == Going(rs, TO_SERVER)
                  && q.report.server == Going(rs, TO_CLIENT) && q.report.meta == Going(rs, META_LINE))
  {
    hide ChunkSteps, Finished, S.Running, Going, Balanced;
    NothingBalanced();
    StepsBalanced(w, p, rs, rounds);
    FinishedBalanced(ChunkSteps(w, p, rs, rounds).0);
  }

  // --------------------------------------------------------------------------------------
  // One step at a time
  // --------------------------------------------------------------------------------------

  lemma PooledSnoc(pending: seq<Write>, out: seq<Write>, i: nat)
    requires i < |out|
    ensures Pooled(pending, out[..i + 1])
         == if |Pooled(pending, out[..i])| < REPLAY_PENDING then Pooled(pending, out[..i]) + [out[i]] else Pooled(pending, out[..i])
  {
    assert pending + out[..i + 1] == pending + out[..i] + [out[i]];
  }

  lemma NothingTaken(p: Play)
    ensures |p.pending| <= REPLAY_PENDING ==> Took(p, []) == p
  {
    if |p.pending| <= REPLAY_PENDING {
      NothingPooled(p.pending);
    }
  }

  lemma TookServer(p: Play, out: seq<Write>)
    ensures Took(p, out).server == p.server
  {
  }

  lemma DrainedIs(p: Play)
    requires S.Running(p.server)
    ensures AfterDrain(p) == Told(Emptied(p)) && Emptied(p).server == S.DrainWrites(p.server)
  {
  }

  lemma ResumedStep(w: World, p: Play, conn: nat, at: int, n: nat)
    requires S.Running(p.server) && n > 0
    ensures S.Running(AfterDrain(p).server)
    ensures var u := AfterDrain(p); var (t, status) := OnBytes(w, u.server, conn, [], at);
            && S.Running(t)
            && Resumed(w, p, conn, at, n)
               == if status == P.QueueFull then Resumed(w, u.(server := t), conn, at, n - 1) else (u.(server := t), true)
  {
    hide OnBytes, AfterDrain, Scanned;
    S.BytesLive(w, AfterDrain(p).server, conn, [], at);
  }

  lemma NotResumed(w: World, p: Play, conn: nat, at: int)
    requires S.Running(p.server)
    ensures Resumed(w, p, conn, at, 0) == (p, false)
  {
  }

  lemma NoSteps(w: World, p: Play, rounds: nat)
    requires S.Running(p.server)
    ensures ChunkSteps(w, p, [], rounds) == (p, true)
  {
  }

  lemma StepsOn(w: World, p: Play, rs: seq<R.Record>, i: nat, rounds: nat)
    requires S.Running(p.server) && i < |rs|
    ensures ChunkSteps(w, p, rs[..i + 1], rounds)
         == var (u, done) := ChunkSteps(w, p, rs[..i], rounds);
            if done then ChunkStep(w, u, rs[i], rounds) else (u, false)
  {
    hide ChunkStep, S.Running;
    assert rs[..i + 1][..i] == rs[..i];
  }

  /** Cut short, nothing more is done. */
  lemma StepsStop(w: World, p: Play, rs: seq<R.Record>, i: nat, rounds: nat)
    requires S.Running(p.server) && i <= |rs| && !ChunkSteps(w, p, rs[..i], rounds).1
    ensures ChunkSteps(w, p, rs, rounds) == ChunkSteps(w, p, rs[..i], rounds)
  {
    hide ChunkSteps, S.Running;
    assert rs == rs[..i] + rs[i..];
    StepsConcat(w, p, rs[..i], rs[i..], rounds);
  }

  lemma PlayedIs(w: World, p: Play, rs: seq<R.Record>, rounds: nat)
    requires S.Running(p.server)
    ensures var (u, done) := ChunkSteps(w, p, rs, rounds);
            S.Running(u.server) && Played(w, p, rs, rounds) == if done then (Finished(u), true) else (u, false)
  {
    hide ChunkSteps, Finished, S.Running;
  }

  lemma PlayedShort(w: World, p: Play, fed: seq<R.Record>, later: seq<R.Record>, rounds: nat)
    requires S.Running(p.server) && !ChunkSteps(w, p, fed, rounds).1
    ensures Played(w, p, fed + later, rounds) == ChunkSteps(w, p, fed, rounds)
  {
    hide ChunkSteps, Finished, S.Running;
    assert (fed + later)[..|fed|] == fed;
    StepsStop(w, p, fed + later, |fed|, rounds);
  }

  // --------------------------------------------------------------------------------------
  // What feeding makes of the server
  // --------------------------------------------------------------------------------------

  lemma {:induction false} ResumedServer(w: World, p: Play, conn: nat, at: int, n: nat)
    requires S.Running(p.server) && p.server.env.now == at
    ensures var (q, done) := Resumed(w, p, conn, at, n);
            q.server == S.Rounds(w, p.server, conn, at, n).0 && done == S.EndsBy(w, p.server, conn, at, n)
    decreases n
  {
    hide OnBytes, AfterDrain, S.AllDrained, Scanned, S.Rounds, S.EndsBy;
    if n == 0 {
      S.NoRounds(w, p.server, conn, at);
    } else {
      ResumedStep(w, p, conn, at, n);
      S.RoundsStep(w, p.server, conn, at, n);
      var u := AfterDrain(p);
      assert u.server == S.AllDrained(p.server);
      var (t, status) := OnBytes(w, u.server, conn, [], at);
      assert (t, status) == S.Round(w, p.server, conn, at);
      if status == P.QueueFull {
        ResumedServer(w, u.(server := t), conn, at, n - 1);
      }
    }
  }

  /**
   * The server is what one call with the chunk's bytes makes of it, at the chunk's time, and while
   * that is refused what draining and resuming makes of it, round after round.
   */
  lemma FedServer(w: World, p: Play, conn: nat, data: seq<Byte>, at: int, rounds: nat)
    requires S.Running(p.server)
    ensures var (q, done) := Fed(w, p, conn, data, at, rounds);
            var (t, status) := OnBytes(w, p.server, conn, data, at);
            if status != P.QueueFull then done && q.server == t
            else
              && S.Running(t) && t.env.now == at
              && q.server == S.Rounds(w, t, conn, at, rounds).0 && done == S.EndsBy(w, t, conn, at, rounds)
  {
    hide OnBytes, Resumed, S.Rounds, S.EndsBy, Scanned;
    S.BytesLive(w, p.server, conn, data, at);
    var (t, status) := OnBytes(w, p.server, conn, data, at);
    if status == P.QueueFull {
      ResumedServer(w, p.(server := t), conn, at, rounds);
    }
  }
}
