/** The drop-oldest event ring: what is in it, what it has lost and what it has said about that. */
module EventLog {
  import opened Bytes
  import opened Events
  import opened Rings

  /**
   * `items` is the ring. `emitted`, `taken`, `gone` and `mark` are history: every event ever put
   * into the ring, how many were polled, how many were dropped, and how many had been emitted
   * when a poll last left the ring empty.
   */
  datatype Log = Log(cap: nat, items: seq<Event>, sequence: nat, dropped: nat, warned: Warned,
                     emitted: seq<Event>, taken: nat, gone: nat, mark: nat)

  function NewLog(cap: nat): Log {
    Log(cap, [], 0, 0, Quiet, [], 0, 0, 0)
  }

  function Put(l: Log, e: Event): Log {
    if l.cap == 0 then l
    else if |l.items| == l.cap && l.items != [] then
      l.(items := l.items[1..] + [e], dropped := Inc32(l.dropped), warned := Warn(l.warned),
         emitted := l.emitted + [e], gone := l.gone + 1)
    else l.(items := l.items + [e], emitted := l.emitted + [e])
  }

  /** `gs_server.c`'s emit: the event, and once per overflow run a warning behind it. */
  function Emit(l: Log, conn: nat, at: int, body: Body, now: int): Log {
    var l1 := Put(l.(sequence := Inc32(l.sequence)), Event(l.sequence, conn, at, body));
    if l1.warned == Owed then
      Put(l1.(warned := Said, sequence := Inc32(l1.sequence)),
          Event(l1.sequence, CONN_NONE, now, Warning(EventsDropped, l1.dropped)))
    else l1
  }

  function Least(a: nat, b: nat): nat {
    if a < b then a else b
  }

  function Poll(l: Log, max: nat): (Log, seq<Event>) {
    var n := Least(|l.items|, max);
    if max == 0 then (l, [])
    else if n == |l.items| then
      (l.(items := [], taken := l.taken + n, warned := Quiet, mark := |l.emitted|), l.items)
    else (l.(items := l.items[n..], taken := l.taken + n), l.items[..n])
  }

  // --------------------------------------------------------------------------------------
  // What every run keeps
  // --------------------------------------------------------------------------------------

  predicate IsComplaint(e: Event, code: WarningCode) {
    e.body.Warning? && e.body.code == code
  }

  function Complaints(es: seq<Event>, code: WarningCode): nat {
    if es == [] then 0
    else Complaints(es[..|es| - 1], code) + if IsComplaint(es[|es| - 1], code) then 1 else 0
  }

  lemma ComplaintsSnoc(es: seq<Event>, e: Event, from: nat, code: WarningCode)
    requires from <= |es|
    ensures Complaints((es + [e])[from..], code)
         == Complaints(es[from..], code) + if IsComplaint(e, code) then 1 else 0
  {
    var s := (es + [e])[from..];
    assert s[..|s| - 1] == es[from..];
  }

  /** Sequence numbers count the events, and wrap. */
  predicate Numbered(es: seq<Event>) {
    forall i :: 0 <= i < |es| ==> es[i].sequence == i % WORD
  }

  /**
   * The ring holds the last events emitted; emitted is polled plus dropped plus held; both
   * counters are exact modulo the word; and since the ring was last emptied there has been exactly
   * one complaint if anything was dropped, none otherwise.
   */
  predicate Accounted(l: Log) {
    && 0 < l.cap && |l.items| <= l.cap
    && |l.emitted| == l.taken + l.gone + |l.items|
    && l.items == l.emitted[l.taken + l.gone..]
    && Numbered(l.emitted)
    && l.sequence == |l.emitted| % WORD
    && l.dropped == l.gone % WORD
    && l.warned != Owed
    && l.mark <= |l.emitted|
    && Complaints(l.emitted[l.mark..], EventsDropped) == (if l.warned == Quiet then 0 else 1)
  }

  lemma NewIsAccounted(cap: nat)
    requires cap > 0
    ensures Accounted(NewLog(cap))
  {
  }

  /** `Accounted` but for a complaint that may be owed, and for the numbers. */
  predicate Holding(l: Log) {
    && 0 < l.cap && |l.items| <= l.cap
    && |l.emitted| == l.taken + l.gone + |l.items|
    && l.items == l.emitted[l.taken + l.gone..]
    && l.dropped == l.gone % WORD
  }

  lemma IncIsModulo(n: nat)
    ensures Inc32(n % WORD) == (n + 1) % WORD
  {
    var q := n / WORD;
    assert n == q * WORD + n % WORD;
    if n % WORD + 1 == WORD {
      assert n + 1 == (q + 1) * WORD;
    } else {
      assert n + 1 == q * WORD + (n % WORD + 1);
    }
  }

  lemma PutHolds(l: Log, e: Event)
    requires Holding(l)
    ensures Holding(Put(l, e)) && Put(l, e).emitted == l.emitted + [e]
    ensures Put(l, e).gone == l.gone + (if |l.items| == l.cap then 1 else 0)
    ensures Put(l, e).warned == if |l.items| == l.cap then Warn(l.warned) else l.warned
  {
    IncIsModulo(l.gone);
    hide Inc32;
    var m := Put(l, e);
    var k := l.taken + l.gone;
    if |l.items| == l.cap {
      assert (l.emitted + [e])[k + 1..] == l.emitted[k..][1..] + [e];
    } else {
      assert (l.emitted + [e])[k..] == l.emitted[k..] + [e];
    }
  }

  lemma NumberedSnoc(es: seq<Event>, e: Event)
    requires Numbered(es) && e.sequence == |es| % WORD
    ensures Numbered(es + [e])
  {
  }

  lemma EmitIsAccounted(l: Log, conn: nat, at: int, body: Body, now: int)
    requires Accounted(l) && !(body.Warning? && body.code == EventsDropped)
    ensures Accounted(Emit(l, conn, at, body, now))
    ensures var m := Emit(l, conn, at, body, now);
            var e := Event(|l.emitted| % WORD, conn, at, body);
            && m.mark == l.mark && m.cap == l.cap && m.taken == l.taken
            && (|| m.emitted == l.emitted + [e]
                || (exists value: nat ::
                      m.emitted == l.emitted + [e] + [Event((|l.emitted| + 1) % WORD, CONN_NONE, now, Warning(EventsDropped, value))]))
  {
    hide Inc32, Put, Complaints, Numbered;
    var e := Event(l.sequence, conn, at, body);
    var l0 := l.(sequence := Inc32(l.sequence));
    var l1 := Put(l0, e);
    IncIsModulo(|l.emitted|);
    PutHolds(l0, e);
    PutFields(l0, e);
    NumberedSnoc(l.emitted, e);
    ComplaintsSnoc(l.emitted, e, l.mark, EventsDropped);
    if l1.warned == Owed {
      var w := Event(l1.sequence, CONN_NONE, now, Warning(EventsDropped, l1.dropped));
      var l2 := l1.(warned := Said, sequence := Inc32(l1.sequence));
      IncIsModulo(|l1.emitted|);
      PutHolds(l2, w);
      PutFields(l2, w);
      NumberedSnoc(l1.emitted, w);
      ComplaintsSnoc(l1.emitted, w, l.mark, EventsDropped);
    }
  }

  lemma PutFields(l: Log, e: Event)
    ensures var m := Put(l, e); m.cap == l.cap && m.sequence == l.sequence && m.taken == l.taken && m.mark == l.mark
  {
  }

  lemma PollIsAccounted(l: Log, max: nat)
    requires Accounted(l)
    ensures Accounted(Poll(l, max).0)
    ensures Poll(l, max).1 == l.emitted[l.taken + l.gone..][..|Poll(l, max).1|]
    ensures Poll(l, max).0.emitted == l.emitted
  {
    hide Accounted, Numbered;
    AccountedItems(l);
    var n := Least(|l.items|, max);
    if max != 0 {
      if n == |l.items| {
        assert l.items[..n] == l.items;
        EmptiedIsAccounted(l);
      } else {
        PartIsAccounted(l, n);
      }
    }
  }

  lemma AccountedItems(l: Log)
    requires Accounted(l)
    ensures l.taken + l.gone <= |l.emitted| && l.items == l.emitted[l.taken + l.gone..]
  {
  }

  /** Emptied, the ring forgives: the next overflow will be complained about again. */
  lemma EmptiedIsAccounted(l: Log)
    requires Accounted(l)
    ensures Accounted(l.(items := [], taken := l.taken + |l.items|, warned := Quiet, mark := |l.emitted|))
  {
    hide Numbered;
    assert l.emitted[|l.emitted|..] == [];
  }

  lemma PartIsAccounted(l: Log, n: nat)
    requires Accounted(l) && n < |l.items|
    ensures Accounted(l.(items := l.items[n..], taken := l.taken + n))
  {
    hide Numbered, Complaints;
    assert l.emitted[l.taken + l.gone..][n..] == l.emitted[l.taken + n + l.gone..];
  }

  // --------------------------------------------------------------------------------------
  // In place
  // --------------------------------------------------------------------------------------

  class EventRing {
    const ring: Ring<Event>
    var sequence: nat
    var dropped: nat
    var warned: Warned
    ghost var emitted: seq<Event>
    ghost var taken: nat
    ghost var gone: nat
    ghost var mark: nat

    ghost predicate Valid()
      reads this, ring
    {
      ring.Valid()
    }

    ghost function Abs(): Log
      requires Valid()
      reads this, ring, ring.slots
    {
      Log(ring.slots.Length, ring.View(), sequence, dropped, warned, emitted, taken, gone, mark)
    }

    ghost function Parts(): set<object> {
      {this, ring, ring.slots}
    }

    constructor (cap: nat)
      requires cap > 0
      ensures Valid() && Abs() == NewLog(cap) && fresh(Parts())
    {
      ring := new Ring(cap);
      sequence, dropped, warned := 0, 0, Quiet;
      emitted, taken, gone, mark := [], 0, 0, 0;
    }

    method PutIn(e: Event)
      requires Valid()
      modifies this, ring, ring.slots
      ensures Valid() && Abs() == Put(old(Abs()), e)
    {
      if ring.count == ring.slots.Length {
        ring.Drop();
        dropped := Inc32(dropped);
        warned := if warned != Quiet then Said else Owed;
        gone := gone + 1;
      }
      ring.Push(e);
      emitted := emitted + [e];
    }

    method EmitIn(conn: nat, at: int, body: Body, now: int)
      requires Valid()
      modifies this, ring, ring.slots
      ensures Valid() && Abs() == Emit(old(Abs()), conn, at, body, now)
    {
      var e := Event(sequence, conn, at, body);
      sequence := Inc32(sequence);
      PutIn(e);
      if warned == Owed {
        warned := Said;
        var w := Event(sequence, CONN_NONE, now, Warning(EventsDropped, dropped));
        sequence := Inc32(sequence);
        PutIn(w);
      }
    }

    method PollOut(max: nat) returns (out: seq<Event>)
      requires Valid()
      modifies this, ring
      ensures Valid() && (Abs(), out) == Poll(old(Abs()), max)
    {
      out := [];
      if max == 0 {
        return;
      }
      ghost var was := ring.View();
      while ring.count > 0 && |out| < max
        invariant Valid() && |out| <= |was| && |out| <= max
        invariant ring.View() == was[|out|..] && out == was[..|out|]
        invariant Abs() == old(Abs()).(items := was[|out|..], taken := old(taken) + |out|)
      {
        var x := ring.Get(0);
        ring.Drop();
        out := out + [x];
        taken := taken + 1;
      }
      assert |ring.View()| == ring.count == |was| - |out|;
      assert was[..|was|] == was && was[|was|..] == [];
      if ring.count == 0 {
        warned := Quiet;
        mark := |emitted|;
      }
    }
  }
}
