/** One connection: its receive buffer, the framing of it, and what a framed object sets off. */
module Conns {
  import opened Bytes
  import opened Message
  import opened Protocol
  import opened Decode
  import opened Events
  import opened Hub
  import opened Frame

  /**
   * History. `offered` is every byte handed over since the connection opened. Of those, `blank`
   * were whitespace between messages, `carried` belonged to delivered objects, `refused` were
   * thrown away with a reported error, and `missing` went without one. `messages` and `errors`
   * count what was delivered and what was reported; `heard` is what the delivered objects decoded
   * to. `fed` and `delivered` are the bytes taken and the objects delivered since the buffer was
   * last thrown away.
   */
  datatype Story = Story(offered: seq<Byte>, fed: seq<Byte>, delivered: seq<seq<Byte>>, heard: seq<Message>,
                         blank: nat, carried: nat, refused: nat, missing: nat, messages: nat, errors: nat)

  const NO_STORY: Story := Story([], [], [], [], 0, 0, 0, 0, 0, 0)

  /** `rx` is the pending input, of which the framer has seen the first `scan` bytes. */
  datatype Conn = Conn(used: bool, idleReported: bool, info: Info, framer: State, rx: seq<Byte>, scan: nat,
                       nextWrite: int, story: Story)

  const NO_CONN: Conn := Conn(false, false, NO_INFO, RESET, [], 0, 0, NO_STORY)

  function Capacity(cfg: Config): nat {
    cfg.maxMessage + 1
  }

  /** Drops what the framer has seen, so that an object starts at 0. */
  function Compact(c: Conn): (r: Conn)
    requires c.scan <= |c.rx|
    ensures r.scan == 0 && r.rx == c.rx[c.scan..]
  {
    if c.scan == 0 then c else c.(rx := c.rx[c.scan..], scan := 0)
  }

  function ResetRx(c: Conn): Conn {
    c.(rx := [], scan := 0, framer := RESET, story := c.story.(fed := [], delivered := []))
  }

  /** Bytes that go with a reported error. */
  function Spoil(c: Conn, n: nat): Conn {
    c.(story := c.story.(refused := c.story.refused + n))
  }

  /** After an error the whole buffer goes. */
  function Discard(c: Conn): Conn {
    Spoil(ResetRx(c), |c.rx|)
  }

  /** Whitespace between messages is passed over. */
  function Pass(c: Conn): Conn {
    c.(scan := c.scan + 1, story := c.story.(blank := c.story.blank + 1))
  }

  // --------------------------------------------------------------------------------------
  // What cannot be used
  // --------------------------------------------------------------------------------------

  function FailureText(reason: ErrorReason): seq<Byte> {
    if reason == TooLarge then TEXT_TOO_LARGE else TEXT_BAD_JSON
  }

  function ErrorCounted(c: Conn): Conn {
    c.(info := c.info.(protocolErrors := Inc32(c.info.protocolErrors), consecutiveErrors := Inc32(c.info.consecutiveErrors)),
       story := c.story.(errors := c.story.errors + 1))
  }

  function FailureOf(c: Conn, reason: ErrorReason, snippet: seq<Byte>, discarded: nat): Failure {
    Failure(reason, if discarded > CONN_ALL then CONN_ALL else discarded, c.info.consecutiveErrors,
            Upto(snippet, SNIPPET_MAX))
  }

  /** The event, and at the threshold a request to close. */
  function SayFailure(e: Env, c: Conn, f: Failure, at: int): Env {
    var e1 := Say(e, c.info.conn, at, ProtocolError(f));
    if e.cfg.policy.closeThreshold > 0 && c.info.consecutiveErrors == e.cfg.policy.closeThreshold then
      Say(e1, c.info.conn, at, CloseRequested(f))
    else e1
  }

  /** `protocol_error`: recorded, counted, answered, reported. */
  function Refuse(w: World, e: Env, c: Conn, reason: ErrorReason, snippet: seq<Byte>, discarded: nat, at: int): (Env, Conn) {
    var e1 := WireClient(e, c.info.conn, snippet, at);
    var d := ErrorCounted(c);
    var e2 := QueueWrite(w, e1, c.info.conn, Failed, CODE_FAILURE, FailureText(reason), None);
    (SayFailure(e2, d, FailureOf(d, reason, snippet, discarded), at), d)
  }

  // --------------------------------------------------------------------------------------
  // A message
  // --------------------------------------------------------------------------------------

  /** A shot's number repeats the previous shot's on this connection. */
  function Marked(c: Conn, m: Message): Message {
    if m.kind == Shot && c.info.lastShot != NO_SHOT && m.shotNumber == c.info.lastShot
    then m.(flags := m.flags + {ShotNumberRepeated}) else m
  }

  function Delivering(t: Story, json: seq<Byte>, m: Message): Story {
    t.(delivered := t.delivered + [json], heard := t.heard + [m], carried := t.carried + |json|, messages := t.messages + 1)
  }

  function MessageCounted(c: Conn, m: Message, json: seq<Byte>, at: int): Conn {
    var i := c.info.(messages := Inc32(c.info.messages), lastMessageUs := at, consecutiveErrors := 0);
    c.(info := if m.kind == Shot then i.(lastShot := m.shotNumber, shots := Inc32(i.shots)) else i,
       story := Delivering(c.story, json, m))
  }

  predicate Rejected(cfg: Config, m: Message) {
    cfg.policy.rejectIncomplete && BallIncomplete in m.flags
  }

  function AckText(cfg: Config): seq<Byte> {
    if cfg.policy.ackText != [] then cfg.policy.ackText else TEXT_SHOT_RECEIVED
  }

  function Reply(w: World, e: Env, conn: nat, m: Message): Env {
    if Rejected(e.cfg, m) then QueueWrite(w, e, conn, Failed, CODE_FAILURE, TEXT_INCOMPLETE, None)
    else QueueWrite(w, e, conn, Ack, CODE_SHOT_RECEIVED, AckText(e.cfg), None)
  }

  function NoteActive(e: Env, c: Conn, at: int): (Env, Conn) {
    if c.idleReported then (Say(e, c.info.conn, at, ClientActive), c.(idleReported := false)) else (e, c)
  }

  /** The first name a connection gives stands. */
  function NoteIdentity(w: World, e: Env, c: Conn, m: Message, at: int): (Env, Conn) {
    if m.deviceId == [] then (e, c)
    else if !c.info.identified then
      var d := c.(info := c.info.(identified := true, deviceId := m.deviceId));
      (SayConnection(w, e, c.info.conn, Identified(d.info), at), d)
    else if c.info.deviceId != m.deviceId then (Say(e, c.info.conn, at, Warning(DeviceIdChanged, 0)), c)
    else (e, c)
  }

  function Latest(m: Message, f: OptionField, otherwise: bool): bool {
    if f in m.options then m.options[f] else otherwise
  }

  /** Readiness and ball detection are reported on change only. */
  function NoteState(e: Env, c: Conn, m: Message, at: int): (Env, Conn) {
    var ready := Latest(m, LaunchMonitorIsReady, c.info.ready);
    var detected := Latest(m, LaunchMonitorBallDetected, c.info.ballDetected);
    if ready == c.info.ready && detected == c.info.ballDetected then (e, c)
    else
      (Say(e, c.info.conn, at, ClientState(ready, detected, c.info.ready, c.info.ballDetected)),
       c.(info := c.info.(ready := ready, ballDetected := detected)))
  }

  function Notes(w: World, e: Env, c: Conn, m: Message, at: int): (Env, Conn) {
    var (e1, c1) := NoteActive(e, c, at);
    var (e2, c2) := NoteIdentity(w, e1, c1, m, at);
    NoteState(e2, c2, m, at)
  }

  /** Notes touch neither the buffer nor the history, and leave the connection's name alone. */
  lemma NotesKeep(w: World, e: Env, c: Conn, m: Message, at: int)
    ensures var d := Notes(w, e, c, m, at).1;
            && d.story == c.story && d.rx == c.rx && d.scan == c.scan && d.framer == c.framer
            && d.info.conn == c.info.conn
  {
    hide Say, SayConnection;
  }

  /** A message that decoded: recorded, counted, answered, and then reported. */
  function Accept(w: World, e: Env, c: Conn, json: seq<Byte>, m: Message, at: int): (Env, Conn) {
    var e1 := WireClient(e, c.info.conn, json, at);
    var number := e1.number;
    var e2 := Reply(w, e1.(number := Inc32(number)), c.info.conn, m);
    var (e3, d) := Notes(w, e2, MessageCounted(c, m, json, at), m, at);
    (Say(e3, c.info.conn, at, Heard(Marked(c, m), number)), d)
  }

  /** `deliver_message`: true exactly if the object decodes; otherwise an error is reported for it. */
  function Deliver(w: World, e: Env, c: Conn, json: seq<Byte>, at: int): (Env, Conn, bool) {
    match DecodeMessage(w.lib, json)
    case None => var (e1, d) := Refuse(w, e, c, BadJson, json, |json|, at); (e1, d, false)
    case Some(m) => var (e1, d) := Accept(w, e, c, json, m, at); (e1, d, true)
  }

  // --------------------------------------------------------------------------------------
  // What is pending
  // --------------------------------------------------------------------------------------

  /** How framing ended: drained, refused for a full write ring, or the buffer thrown away. */
  datatype Ending = Drained | Refused | Discarded

  datatype Turn = Turn(env: Env, conn: Conn, ending: Ending)

  lemma DeliverKeeps(w: World, e: Env, c: Conn, json: seq<Byte>, at: int)
    ensures var (e1, d, ok) := Deliver(w, e, c, json, at);
            d.rx == c.rx && d.scan == c.scan && d.framer == c.framer
  {
    hide DecodeMessage, WireClient, QueueWrite, Say, SayConnection;
  }

  /** What a byte that belongs to an object leads to, the framer having moved over it. */
  function AfterByte(w: World, e: Env, c: Conn, step: Frame.Step, at: int): (Env, Conn, Option<Ending>)
    requires c.scan <= |c.rx|
  {
    if step == Close then
      DeliverKeeps(w, e, c, c.rx[..c.scan], at);
      var (e1, d, ok) := Deliver(w, e, c, c.rx[..c.scan], at);
      if ok then (e1, Compact(d), None) else (e1, Discard(d), Some(Discarded))
    else if c.scan > e.cfg.maxMessage then
      var (e1, d) := Refuse(w, e, c, TooLarge, c.rx[..c.scan], |c.rx|, at);
      (e1, Discard(d), Some(Discarded))
    else (e, c, None)
  }

  /** One byte of an object, the first of it being at 0. */
  function FrameByte(w: World, e: Env, c: Conn, at: int): (Env, Conn, Option<Ending>)
    requires c.scan < |c.rx|
  {
    var (f, step) := Advance(c.framer, c.rx[c.scan]);
    if step == Garbage then
      var (e1, d) := Refuse(w, e, c, LeadingGarbage, c.rx[c.scan..], |c.rx| - c.scan, at);
      (e1, Discard(d), Some(Discarded))
    else AfterByte(w, e, c.(framer := f, scan := c.scan + 1), step, at)
  }

  function Unscanned(c: Conn): int {
    |c.rx| - c.scan
  }

  lemma FrameByteShrinks(w: World, e: Env, c: Conn, at: int)
    requires c.scan < |c.rx|
    ensures var (e1, d, end) := FrameByte(w, e, c, at);
            d.scan <= |d.rx| && (end == None ==> Unscanned(d) == Unscanned(c) - 1)
  {
    hide Deliver, Refuse, Advance;
    var (f, step) := Advance(c.framer, c.rx[c.scan]);
    DeliverKeeps(w, e, c.(framer := f, scan := c.scan + 1), c.rx[..c.scan + 1], at);
  }

  /** `frame_pending`. */
  function FramePending(w: World, e: Env, c: Conn, at: int): Turn
    requires c.scan <= |c.rx|
    decreases Unscanned(c)
  {
    if c.scan == |c.rx| then Turn(e, if InMessage(c.framer) then c else Compact(c), Drained)
    else if !InMessage(c.framer) && IsWs(c.rx[c.scan]) then FramePending(w, e, Pass(c), at)
    else if !InMessage(c.framer) && WritesFull(e) then Turn(e, Compact(c), Refused)
    else
      var d := if InMessage(c.framer) then c else Compact(c);
      FrameByteShrinks(w, e, d, at);
      match FrameByte(w, e, d, at)
      case (e1, d1, None) => FramePending(w, e1, d1, at)
      case (e1, d1, Some(ending)) => Turn(e1, d1, ending)
  }

  // --------------------------------------------------------------------------------------
  // Bytes from the host
  // --------------------------------------------------------------------------------------

  function Append(c: Conn, more: seq<Byte>): Conn {
    c.(rx := c.rx + more, story := c.story.(fed := c.story.fed + more))
  }

  function Room(e: Env, c: Conn): nat {
    if |c.rx| < Capacity(e.cfg) then Capacity(e.cfg) - |c.rx| else 0
  }

  function Miss(c: Conn, n: nat): Conn {
    c.(story := c.story.(missing := c.story.missing + n))
  }

  lemma {:induction false} FramePendingKeeps(w: World, e: Env, c: Conn, at: int)
    requires c.scan <= |c.rx|
    ensures var t := FramePending(w, e, c, at);
            && t.conn.scan <= |t.conn.rx| <= |c.rx|
            && (t.ending == Discarded ==> t.conn.rx == [] && |c.rx| > 0)
    decreases Unscanned(c)
  {
    hide FrameByte, Advance;
    if c.scan != |c.rx| {
      if !InMessage(c.framer) && IsWs(c.rx[c.scan]) {
        FramePendingKeeps(w, e, Pass(c), at);
      } else if InMessage(c.framer) || !WritesFull(e) {
        var d := if InMessage(c.framer) then c else Compact(c);
        FrameByteShrinks(w, e, d, at);
        FrameByteKeeps(w, e, d, at);
        var (e1, d1, end) := FrameByte(w, e, d, at);
        if end == None {
          FramePendingKeeps(w, e1, d1, at);
        }
      }
    }
  }

  lemma FrameByteKeeps(w: World, e: Env, c: Conn, at: int)
    requires c.scan < |c.rx|
    ensures var (e1, d, end) := FrameByte(w, e, c, at);
            |d.rx| <= |c.rx| && (end == None || end == Some(Discarded)) && (end == Some(Discarded) ==> d.rx == [])
  {
    hide Deliver, Refuse, Advance;
    var (f, step) := Advance(c.framer, c.rx[c.scan]);
    DeliverKeeps(w, e, c.(framer := f, scan := c.scan + 1), c.rx[..c.scan + 1], at);
  }

  /** The loop of `gsp_server_on_bytes`: what is left of `data` when it stops, and whether it was refused. */
  function Absorb(w: World, e: Env, c: Conn, data: seq<Byte>, at: int): (r: (Env, Conn, seq<Byte>, bool))
    requires c.scan <= |c.rx|
    decreases |data|, |c.rx|
  {
    var take := if Room(e, c) < |data| then Room(e, c) else |data|;
    var c1 := Append(c, data[..take]);
    FramePendingKeeps(w, e, c1, at);
    var t := FramePending(w, e, c1, at);
    if t.ending == Discarded then Absorb(w, t.env, Spoil(t.conn, |data| - take), [], at)
    else if t.ending == Refused then (t.env, t.conn, data[take..], true)
    else if take == |data| || take == 0 then (t.env, t.conn, data[take..], false)
    else Absorb(w, t.env, t.conn, data[take..], at)
  }

  /** What becomes of bytes not yet taken when the write ring is full. */
  function Retain(e: Env, c: Conn, conn: nat, rest: seq<Byte>, at: int): (Env, Conn) {
    if rest == [] || |rest| <= Room(e, c) then
      var d := Append(c, rest);
      (Say(e, conn, at, Warning(WriteRingFull, |d.rx| % WORD)), d)
    else
      (Say(e, conn, at, Warning(WriteRingFull, |rest| % WORD)), Miss(ResetRx(c), |c.rx| + |rest|))
  }

  /** `gsp_server_on_bytes` on an open connection. */
  function TakeBytes(w: World, e: Env, c: Conn, data: seq<Byte>, at: int): (Env, Conn, Protocol.Status)
    requires c.scan <= |c.rx|
  {
    var c0 := c.(story := c.story.(offered := c.story.offered + data));
    var (e1, d, rest, full) := Absorb(w, e, c0, data, at);
    if full then
      var (e2, d2) := Retain(e1, d, c.info.conn, rest, at);
      (e2, d2, QueueFull)
    else (e1, Miss(d, |rest|), Ok)
  }
}
