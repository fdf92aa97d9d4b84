/** One connection in place: the receive buffer and framer, and everything its bytes set off. */
module Connection {
  import opened Bytes
  import opened Numbers
  import opened Message
  import P = Protocol
  import opened Decode
  import Decoder
  import opened Events
  import opened Hub
  import opened Conns
  import opened Frame
  import C = Core
  import Serving

  class Connection {
    const rx: array<Byte>
    const framer: Framer
    var used: bool
    var idleReported: bool
    var info: Info
    var rxLen: nat
    var scan: nat
    var nextWrite: int
    ghost var story: Story

    ghost function Parts(): set<object> {
      {this, rx, framer}
    }

    ghost predicate Valid()
      reads this
    {
      scan <= rxLen <= rx.Length
    }

    ghost function Abs(): Conn
      requires Valid()
      reads this, rx, framer
    {
      Conn(used, idleReported, info, framer.Abs(), rx[..rxLen], scan, nextWrite, story)
    }

    constructor (capacity: nat)
      ensures Valid() && fresh(Parts()) && rx.Length == capacity && Abs() == NO_CONN
    {
      rx := new Byte[capacity];
      framer := new Framer();
      used, idleReported, info, rxLen, scan, nextWrite, story := false, false, NO_INFO, 0, 0, 0, NO_STORY;
    }

    /** Moves what the framer has not seen to the front. */
    method CompactIn()
      requires Valid()
      modifies this, rx
      ensures Valid() && Abs() == Compact(old(Abs())) && scan == 0
    {
      if scan == 0 {
        return;
      }
      ghost var was := rx[..rxLen];
      var n := rxLen - scan;
      for i := 0 to n
        modifies rx
        invariant rx[..i] == was[scan..][..i]
        invariant forall j :: i <= j < rxLen ==> rx[j] == was[j]
      {
        rx[i] := rx[scan + i];
      }
      rxLen, scan := n, 0;
      assert rx[..rxLen] == was[old(scan)..];
    }

    method ResetRxIn()
      requires Valid()
      modifies this, framer
      ensures Valid() && Abs() == ResetRx(old(Abs()))
    {
      rxLen, scan := 0, 0;
      framer.Reset();
      story := story.(fed := [], delivered := []);
    }

    /** After an error the whole buffer goes. */
    method DropRxIn()
      requires Valid()
      modifies this, framer
      ensures Valid() && Abs() == Discard(old(Abs()))
    {
      ghost var n := rxLen;
      ResetRxIn();
      story := story.(refused := story.refused + n);
    }

    method AppendIn(more: seq<Byte>)
      requires Valid() && rxLen + |more| <= rx.Length
      modifies this, rx
      ensures Valid() && Abs() == Append(old(Abs()), more)
    {
      ghost var was, held := rx[..rxLen], rxLen;
      for i := 0 to |more|
        modifies rx
        invariant rx[..rxLen] == was && rx[rxLen..rxLen + i] == more[..i]
      {
        rx[rxLen + i] := more[i];
      }
      rxLen := rxLen + |more|;
      story := story.(fed := story.fed + more);
      assert rx[..rxLen] == rx[..held] + rx[held..held + |more|];
      assert rx[held..held + |more|] == more;
    }

    // ------------------------------------------------------------------------------------
    // What cannot be used
    // ------------------------------------------------------------------------------------

    method ErrorCountedIn()
      requires Valid()
      modifies this
      ensures Valid() && Abs() == ErrorCounted(old(Abs()))
    {
      info := info.(protocolErrors := Inc32(info.protocolErrors), consecutiveErrors := Inc32(info.consecutiveErrors));
      story := story.(errors := story.errors + 1);
    }

    method SayFailureIn(core: C.Core, f: Failure, at: int)
      requires Valid() && core.Valid() && core.Parts() !! Parts()
      modifies core.Parts()
      ensures core.Valid() && core.Abs() == SayFailure(old(core.Abs()), Abs(), f, at)
    {
      hide Say;
      core.SayIn(info.conn, at, ProtocolError(f));
      if core.cfg.policy.closeThreshold > 0 && info.consecutiveErrors == core.cfg.policy.closeThreshold {
        core.SayIn(info.conn, at, CloseRequested(f));
      }
    }

    method RefuseIn(w: World, core: C.Core, reason: ErrorReason, snippet: seq<Byte>, discarded: nat, at: int)
      requires Valid() && core.Valid() && core.Parts() !! Parts()
      modifies core.Parts(), this
      ensures Valid() && core.Valid()
      ensures (core.Abs(), Abs()) == Refuse(w, old(core.Abs()), old(Abs()), reason, snippet, discarded, at)
    {
      hide WireClient, QueueWrite, SayFailure;
      core.WireClientIn(info.conn, snippet, at);
      ErrorCountedIn();
      var ok := core.QueueWriteIn(w, info.conn, Failed, P.CODE_FAILURE, FailureText(reason), None);
      var f := Failure(reason, if discarded > CONN_ALL then CONN_ALL else discarded, info.consecutiveErrors,
                       Upto(snippet, SNIPPET_MAX));
      SayFailureIn(core, f, at);
    }

    // ------------------------------------------------------------------------------------
    // A message
    // ------------------------------------------------------------------------------------

    method MessageCountedIn(m: Message, ghost json: seq<Byte>, at: int)
      requires Valid()
      modifies this
      ensures Valid() && Abs() == MessageCounted(old(Abs()), m, json, at)
    {
      info := info.(messages := Inc32(info.messages), lastMessageUs := at, consecutiveErrors := 0);
      if m.kind == Shot {
        info := info.(lastShot := m.shotNumber, shots := Inc32(info.shots));
      }
      story := Delivering(story, json, m);
    }

    method ReplyIn(w: World, core: C.Core, m: Message)
      requires Valid() && core.Valid() && core.Parts() !! Parts()
      modifies core.Parts()
      ensures core.Valid() && core.Abs() == Reply(w, old(core.Abs()), info.conn, m)
    {
      hide QueueWrite;
      var ok;
      if core.cfg.policy.rejectIncomplete && BallIncomplete in m.flags {
        ok := core.QueueWriteIn(w, info.conn, Failed, P.CODE_FAILURE, P.TEXT_INCOMPLETE, None);
      } else {
        var ack := if core.cfg.policy.ackText != [] then core.cfg.policy.ackText else P.TEXT_SHOT_RECEIVED;
        ok := core.QueueWriteIn(w, info.conn, Ack, P.CODE_SHOT_RECEIVED, ack, None);
      }
    }

    method NoteActiveIn(core: C.Core, at: int)
      requires Valid() && core.Valid() && core.Parts() !! Parts()
      modifies core.Parts(), this
      ensures Valid() && core.Valid()
      ensures (core.Abs(), Abs()) == NoteActive(old(core.Abs()), old(Abs()), at)
    {
      hide Say;
      if idleReported {
        idleReported := false;
        core.SayIn(info.conn, at, ClientActive);
      }
    }

    method NoteIdentityIn(w: World, core: C.Core, m: Message, at: int)
      requires Valid() && core.Valid() && core.Parts() !! Parts()
      modifies core.Parts(), this
      ensures Valid() && core.Valid()
      ensures (core.Abs(), Abs()) == NoteIdentity(w, old(core.Abs()), old(Abs()), m, at)
    {
      hide Say, SayConnection;
      if m.deviceId == [] {
        return;
      }
      if !info.identified {
        info := info.(identified := true, deviceId := m.deviceId);
        core.SayConnectionIn(w, info.conn, Identified(info), at);
      } else if info.deviceId != m.deviceId {
        core.SayIn(info.conn, at, Warning(DeviceIdChanged, 0));
      }
    }

    method NoteStateIn(core: C.Core, m: Message, at: int)
      requires Valid() && core.Valid() && core.Parts() !! Parts()
      modifies core.Parts(), this
      ensures Valid() && core.Valid()
      ensures (core.Abs(), Abs()) == NoteState(old(core.Abs()), old(Abs()), m, at)
    {
      hide Say;
      var ready := Latest(m, LaunchMonitorIsReady, info.ready);
      var detected := Latest(m, LaunchMonitorBallDetected, info.ballDetected);
      if ready == info.ready && detected == info.ballDetected {
        return;
      }
      var body := ClientState(ready, detected, info.ready, info.ballDetected);
      info := info.(ready := ready, ballDetected := detected);
      core.SayIn(info.conn, at, body);
    }

    method NotesIn(w: World, core: C.Core, m: Message, at: int)
      requires Valid() && core.Valid() && core.Parts() !! Parts()
      modifies core.Parts(), this
      ensures Valid() && core.Valid()
      ensures (core.Abs(), Abs()) == Notes(w, old(core.Abs()), old(Abs()), m, at)
    {
      hide NoteActive, NoteIdentity, NoteState;
      NoteActiveIn(core, at);
      NoteIdentityIn(w, core, m, at);
      NoteStateIn(core, m, at);
    }

    /** Recorded, numbered and answered. */
    method AnswerIn(w: World, core: C.Core, json: seq<Byte>, m: Message, at: int) returns (number: nat)
      requires Valid() && core.Valid() && core.Parts() !! Parts()
      modifies core.Parts()
      ensures core.Valid() && number == WireClient(old(core.Abs()), info.conn, json, at).number
      ensures core.Abs() == Reply(w, WireClient(old(core.Abs()), info.conn, json, at).(number := Inc32(number)), info.conn, m)
    {
      hide WireClient, Reply;
      core.WireClientIn(info.conn, json, at);
      number := core.number;
      core.number := Inc32(core.number);
      ReplyIn(w, core, m);
    }

    method AcceptIn(w: World, core: C.Core, json: seq<Byte>, m: Message, at: int)
      requires Valid() && core.Valid() && core.Parts() !! Parts()
      modifies core.Parts(), this
      ensures Valid() && core.Valid()
      ensures (core.Abs(), Abs()) == Accept(w, old(core.Abs()), old(Abs()), json, m, at)
    {
      hide WireClient, Reply, Notes, Say, MessageCounted, C.Core.Abs, C.Core.Valid;
      var number := AnswerIn(w, core, json, m, at);
      var marked := m;
      if m.kind == Shot && info.lastShot != NO_SHOT && m.shotNumber == info.lastShot {
        marked := m.(flags := m.flags + {ShotNumberRepeated});
      }
      assert marked == Marked(old(Abs()), m);
      MessageCountedIn(m, json, at);
      CountedConn(old(Abs()), m, json, at);
      NotesKeep(w, core.Abs(), Abs(), m, at);
      NotesIn(w, core, m, at);
      core.SayIn(info.conn, at, Heard(marked, number));
    }

    /** `deliver_message`. */
    method DeliverIn(w: World, core: C.Core, json: seq<Byte>, at: int) returns (ok: bool)
      requires Valid() && core.Valid() && core.Parts() !! Parts()
      modifies core.Parts(), this
      ensures Valid() && core.Valid()
      ensures (core.Abs(), Abs(), ok) == Deliver(w, old(core.Abs()), old(Abs()), json, at)
    {
      hide Refuse, Accept, DecodeMessage;
      var m := Decoder.MessageDecode(w.lib, json);
      if m == None {
        RefuseIn(w, core, BadJson, json, |json|, at);
        return false;
      }
      AcceptIn(w, core, json, m.value, at);
      return true;
    }

    // ------------------------------------------------------------------------------------
    // Framing
    // ------------------------------------------------------------------------------------

    /** Throws the buffer away after an error. */
    method DiscardIn(w: World, core: C.Core, reason: ErrorReason, snippet: seq<Byte>, discarded: nat, at: int)
      requires Valid() && core.Valid() && core.Parts() !! Parts()
      modifies core.Parts(), this, framer
      ensures Valid() && core.Valid()
      ensures var (e, d) := Refuse(w, old(core.Abs()), old(Abs()), reason, snippet, discarded, at);
              core.Abs() == e && Abs() == Discard(d)
    {
      hide Refuse;
      RefuseIn(w, core, reason, snippet, discarded, at);
      DropRxIn();
    }

    /** An object has just been closed: delivered, and the buffer moved on or thrown away. */
    method CloseIn(w: World, core: C.Core, at: int) returns (ok: bool)
      requires Valid() && core.Valid() && core.Parts() !! Parts()
      modifies core.Parts(), this, rx, framer
      ensures Valid() && core.Valid()
      ensures var (e, d, good) := Deliver(w, old(core.Abs()), old(Abs()), old(rx[..scan]), at);
              && d.scan <= |d.rx|
              && ok == good && core.Abs() == e && Abs() == if good then Compact(d) else Discard(d)
    {
      hide Deliver, Compact;
      DeliverKeeps(w, core.Abs(), Abs(), rx[..scan], at);
      ok := DeliverIn(w, core, rx[..scan], at);
      if ok {
        CompactIn();
      } else {
        DropRxIn();
      }
    }

    method AfterByteIn(w: World, core: C.Core, step: Frame.Step, at: int) returns (end: Option<Ending>)
      requires Valid() && core.Valid() && core.Parts() !! Parts()
      modifies core.Parts(), this, rx, framer
      ensures Valid() && core.Valid()
      ensures (core.Abs(), Abs(), end) == AfterByte(w, old(core.Abs()), old(Abs()), step, at)
    {
      hide Deliver, Refuse, Compact;
      assert Abs().rx[..scan] == rx[..scan];
      if step == Close {
        var ok := CloseIn(w, core, at);
        return if ok then None else Some(Discarded);
      }
      if scan > core.cfg.maxMessage {
        DiscardIn(w, core, TooLarge, rx[..scan], rxLen, at);
        return Some(Discarded);
      }
      return None;
    }

    method FrameByteIn(w: World, core: C.Core, at: int) returns (end: Option<Ending>)
      requires Valid() && core.Valid() && core.Parts() !! Parts() && scan < rxLen
      modifies core.Parts(), this, rx, framer
      ensures Valid() && core.Valid()
      ensures (core.Abs(), Abs(), end) == FrameByte(w, old(core.Abs()), old(Abs()), at)
    {
      hide Refuse, AfterByte, Advance, C.Core.Abs, C.Core.Valid;
      ghost var c := Abs();
      assert c.rx[c.scan..] == rx[scan..rxLen];
      var step := framer.Feed(rx[scan]);
      if step == Garbage {
        GarbageKeepsFramer(c);
        DiscardIn(w, core, LeadingGarbage, rx[scan..rxLen], rxLen - scan, at);
        return Some(Discarded);
      }
      scan := scan + 1;
      end := AfterByteIn(w, core, step, at);
    }

    /** What comes before a byte is fed: between messages whitespace is passed over, and a slot must be free. */
    method Gate(core: C.Core) returns (gate: Entry)
      requires Valid() && core.Valid() && core.Parts() !! Parts() && scan < rxLen
      modifies this, rx
      ensures Valid() && core.Valid() && core.Abs() == old(core.Abs())
      ensures gate == EntryOf(core.Abs(), old(Abs())) && Abs() == AtEntry(old(Abs()), gate)
    {
      hide Compact, WritesFull;
      if framer.depth != 0 {
        return Enter;
      }
      if IsWs(rx[scan]) {
        scan := scan + 1;
        story := story.(blank := story.blank + 1);
        return Blank;
      }
      var full := core.WriteRingFull();
      CompactIn();
      return if full then Wait else Enter;
    }

    /** One round of `frame_pending`, on a byte not yet scanned. */
    method RoundIn(w: World, core: C.Core, at: int) returns (end: Option<Ending>)
      requires Valid() && core.Valid() && core.Parts() !! Parts() && scan < rxLen
      modifies core.Parts(), this, rx, framer
      ensures Valid() && core.Valid()
      ensures end == None ==> rxLen - scan < old(rxLen - scan)
      ensures FramePending(w, old(core.Abs()), old(Abs()), at)
           == if end == None then FramePending(w, core.Abs(), Abs(), at) else Turn(core.Abs(), Abs(), end.value)
    {
      hide FramePending, FrameByte, EntryOf, AtEntry;
      Rounds(w, core.Abs(), Abs(), at);
      var gate := Gate(core);
      end := None;
      if gate == Wait {
        end := Some(Refused);
      } else if gate == Enter {
        FrameByteShrinks(w, core.Abs(), Abs(), at);
        end := FrameByteIn(w, core, at);
      }
    }

    /** `frame_pending`. */
    method FramePendingIn(w: World, core: C.Core, at: int) returns (ending: Ending)
      requires Valid() && core.Valid() && core.Parts() !! Parts()
      modifies core.Parts(), this, rx, framer
      ensures Valid() && core.Valid()
      ensures Turn(core.Abs(), Abs(), ending) == FramePending(w, old(core.Abs()), old(Abs()), at)
    {
      hide FramePending, Compact;
      while scan < rxLen
        invariant Valid() && core.Valid()
        invariant FramePending(w, core.Abs(), Abs(), at) == FramePending(w, old(core.Abs()), old(Abs()), at)
        decreases rxLen - scan
      {
        var end := RoundIn(w, core, at);
        if end.Some? {
          return end.value;
        }
      }
      AllFramed(w, core.Abs(), Abs(), at);
      if framer.depth == 0 {
        CompactIn();
      }
      return Drained;
    }

    // ------------------------------------------------------------------------------------
    // Bytes from the host
    // ------------------------------------------------------------------------------------

    /** Takes what there is room for, and frames it. */
    method TakeIn(w: World, core: C.Core, data: seq<Byte>, at: int) returns (take: nat, ending: Ending)
      requires Valid() && core.Valid() && core.Parts() !! Parts() && rx.Length == Capacity(core.cfg)
      modifies core.Parts(), this, rx, framer
      ensures Valid() && core.Valid()
      ensures take == (if Room(old(core.Abs()), old(Abs())) < |data| then Room(old(core.Abs()), old(Abs())) else |data|)
      ensures Turn(core.Abs(), Abs(), ending) == FramePending(w, old(core.Abs()), Append(old(Abs()), data[..take]), at)
    {
      hide FramePending;
      var room := rx.Length - rxLen;
      take := if room < |data| then room else |data|;
      AppendIn(data[..take]);
      ending := FramePendingIn(w, core, at);
    }

    /** The loop of `gsp_server_on_bytes`: what is left of `data` when it stops, and why. */
    method AbsorbIn(w: World, core: C.Core, data: seq<Byte>, at: int) returns (rest: seq<Byte>, full: bool)
      requires Valid() && core.Valid() && core.Parts() !! Parts() && rx.Length == Capacity(core.cfg)
      modifies core.Parts(), this, rx, framer
      ensures Valid() && core.Valid()
      ensures (core.Abs(), Abs(), rest, full) == Absorb(w, old(core.Abs()), old(Abs()), data, at)
    {
      hide FramePending, Room, Append, C.Core.Abs, C.Core.Valid;
      rest := data;
      full := false;
      while true
        invariant Valid() && core.Valid() && !full
        invariant Absorb(w, core.Abs(), Abs(), rest, at) == Absorb(w, old(core.Abs()), old(Abs()), data, at)
        decreases |rest|, rxLen
      {
        TakenShrinks(w, core.Abs(), Abs(), rest, at);
        var take, ending := TakeIn(w, core, rest, at);
        if ending == Discarded {
          SpoilIn(|rest| - take);
          rest := [];
          continue;
        }
        rest := rest[take..];
        if ending == Refused {
          return rest, true;
        }
        if rest == [] || take == 0 {
          return rest, false;
        }
      }
    }

    method SpoilIn(ghost n: nat)
      requires Valid()
      modifies this
      ensures Valid() && Abs() == Spoil(old(Abs()), n)
    {
      story := story.(refused := story.refused + n);
    }

    method MissIn(ghost n: nat)
      requires Valid()
      modifies this
      ensures Valid() && Abs() == Miss(old(Abs()), n)
    {
      story := story.(missing := story.missing + n);
    }

    /** The buffer and what was not taken both go. */
    method LoseIn(n: nat)
      requires Valid()
      modifies this, framer
      ensures Valid() && info == old(info)
      ensures Abs() == Miss(ResetRx(old(Abs())), |old(Abs()).rx| + n)
    {
      ghost var held := rxLen;
      ResetRxIn();
      MissIn(held + n);
    }

    /** Keeps what was not taken if there is room for it, and says so. */
    method RetainIn(core: C.Core, rest: seq<Byte>, at: int)
      requires Valid() && core.Valid() && core.Parts() !! Parts() && rx.Length == Capacity(core.cfg)
      modifies core.Parts(), this, rx, framer
      ensures Valid() && core.Valid()
      ensures (core.Abs(), Abs()) == Retain(old(core.Abs()), old(Abs()), old(info.conn), rest, at)
    {
      hide Say, C.Core.Abs, C.Core.Valid, Append, ResetRx, Miss, Capacity;
      var conn, room := info.conn, rx.Length - rxLen;
      SameConfig(core);
      assert room == Room(core.Abs(), Abs());
      if rest == [] || |rest| <= room {
        AppendIn(rest);
        core.SayIn(conn, at, Warning(WriteRingFull, rxLen % WORD));
      } else {
        LoseIn(|rest|);
        core.SayIn(conn, at, Warning(WriteRingFull, |rest| % WORD));
      }
    }

    /** `gsp_server_on_bytes` once the connection is found. */
    method TakeBytesIn(w: World, core: C.Core, data: seq<Byte>, at: int) returns (status: P.Status)
      requires Valid() && core.Valid() && core.Parts() !! Parts() && rx.Length == Capacity(core.cfg)
      modifies core.Parts(), this, rx, framer
      ensures Valid() && core.Valid()
      ensures (core.Abs(), Abs(), status) == TakeBytes(w, old(core.Abs()), old(Abs()), data, at)
    {
      hide Absorb, Retain;
      ghost var e0, c0 := core.Abs(), Abs();
      story := story.(offered := story.offered + data);
      AbsorbConn(w, e0, Abs(), data, at);
      var rest, full := AbsorbIn(w, core, data, at);
      if full {
        RetainIn(core, rest, at);
        return P.QueueFull;
      }
      MissIn(|rest|);
      return P.Ok;
    }
  }

  /** What is to be done with the byte at hand. */
  datatype Entry = Blank | Wait | Enter

  function EntryOf(e: Env, c: Conn): Entry
    requires c.scan < |c.rx|
  {
    if InMessage(c.framer) then Enter
    else if IsWs(c.rx[c.scan]) then Blank
    else if WritesFull(e) then Wait else Enter
  }

  function AtEntry(c: Conn, entry: Entry): Conn
    requires c.scan < |c.rx|
  {
    if entry == Blank then Pass(c) else if InMessage(c.framer) then c else Compact(c)
  }

  lemma Rounds(w: World, e: Env, c: Conn, at: int)
    requires c.scan < |c.rx|
    ensures var d := AtEntry(c, EntryOf(e, c));
            && d.scan <= |d.rx|
            && match EntryOf(e, c)
               case Blank => Unscanned(d) == Unscanned(c) - 1 && FramePending(w, e, c, at) == FramePending(w, e, d, at)
               case Wait => FramePending(w, e, c, at) == Turn(e, d, Refused)
               case Enter =>
                 && d.scan < |d.rx| && Unscanned(d) == Unscanned(c)
                 && var (e1, d1, end) := FrameByte(w, e, d, at);
                    && d1.scan <= |d1.rx|
                    && FramePending(w, e, c, at)
                       == if end == None then FramePending(w, e1, d1, at) else Turn(e1, d1, end.value)
  {
    hide FrameByte, WritesFull;
    if EntryOf(e, c) == Enter {
      FrameByteShrinks(w, e, AtEntry(c, Enter), at);
    }
  }

  lemma AllFramed(w: World, e: Env, c: Conn, at: int)
    requires c.scan == |c.rx|
    ensures FramePending(w, e, c, at) == Turn(e, if InMessage(c.framer) then c else Compact(c), Drained)
  {
  }

  lemma TakenShrinks(w: World, e: Env, c: Conn, data: seq<Byte>, at: int)
    requires c.scan <= |c.rx|
    ensures var take := if Room(e, c) < |data| then Room(e, c) else |data|;
            var t := FramePending(w, e, Append(c, data[..take]), at);
            t.ending == Discarded ==> t.conn.rx == [] && |c.rx| + take > 0
  {
    hide FramePending, Room;
    var take := if Room(e, c) < |data| then Room(e, c) else |data|;
    FramePendingKeeps(w, e, Append(c, data[..take]), at);
  }

  /** The automaton does not move on garbage. */
  lemma GarbageKeepsFramer(c: Conn)
    requires c.scan < |c.rx| && Advance(c.framer, c.rx[c.scan]).1 == Garbage
    ensures Advance(c.framer, c.rx[c.scan]).0 == c.framer
  {
  }

  lemma AbsorbConn(w: World, e: Env, c: Conn, data: seq<Byte>, at: int)
    requires e.log.cap > 0 && c.scan <= |c.rx|
    ensures Absorb(w, e, c, data, at).1.info.conn == c.info.conn
  {
    hide Absorb;
    Serving.AbsorbConnId(w, e, c, data, at);
  }

  lemma SameConfig(core: C.Core)
    requires core.Valid()
    ensures core.Abs().cfg == core.cfg
  {
  }

  lemma CountedConn(c: Conn, m: Message, json: seq<Byte>, at: int)
    ensures MessageCounted(c, m, json, at).info.conn == c.info.conn
  {
  }
}
