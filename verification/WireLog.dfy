/** The drop-oldest wire ring: its survivors say when chunks before them were lost. */
module WireLog {
  import opened Bytes
  import opened Events
  import opened Rings
  import opened EventLog

  /** A chunk as polled, its place in the order of pushes, and the place behind the one polled before it. */
  datatype Given = Given(ordinal: nat, after: nat, chunk: Chunk)

  /**
   * `items` is the ring; `owed` says that a loss is still to be marked. `pushed`, `taken`, `gone`,
   * `upTo`, `given` and `mark` are history: the chunks as pushed, how many were polled and how
   * many dropped, the place behind the last one polled, what was polled, and how many events had
   * been emitted when a poll last left the ring empty.
   */
  datatype Wire = Wire(cap: nat, items: seq<Chunk>, sequence: nat, dropped: nat, warned: Warned, owed: bool,
                       pushed: seq<Chunk>, taken: nat, gone: nat, upTo: nat, given: seq<Given>, mark: nat)

  function NewWire(cap: nat): Wire {
    Wire(cap, [], 0, 0, Quiet, false, [], 0, 0, 0, [], 0)
  }

  function MarkFirst(items: seq<Chunk>): (r: seq<Chunk>)
    ensures |r| == |items|
  {
    if items == [] then [] else items[0 := items[0].(lost := true)]
  }

  function DropOldest(l: Wire): Wire {
    if l.items == [] then l
    else
      l.(items := MarkFirst(l.items[1..]), owed := l.owed || |l.items| == 1, dropped := Inc32(l.dropped),
         warned := Warn(l.warned), gone := l.gone + 1)
  }

  function Push(l: Wire, chunk: Chunk): Wire {
    var c := chunk.(sequence := l.sequence);
    var m := if |l.items| == l.cap then DropOldest(l) else l;
    m.(items := m.items + [c.(lost := c.lost || m.owed)], owed := false, sequence := Inc32(l.sequence),
       pushed := l.pushed + [c])
  }

  function Gives(first: nat, upTo: nat, out: seq<Chunk>): (r: seq<Given>)
    ensures |r| == |out|
  {
    if out == [] then []
    else
      var k := |out| - 1;
      Gives(first, upTo, out[..k]) + [Given(first + k, if k == 0 then upTo else first + k, out[k])]
  }

  /** The first `n` chunks handed out. */
  function Taken(l: Wire, n: nat): Wire
    requires n <= |l.items|
  {
    var first := l.taken + l.gone;
    l.(items := l.items[n..], taken := l.taken + n, given := l.given + Gives(first, l.upTo, l.items[..n]),
       upTo := if n == 0 then l.upTo else first + n)
  }

  /** `seen` is the number of events emitted so far. */
  function PollWire(l: Wire, max: nat, seen: nat): (Wire, seq<Chunk>) {
    var n := Least(|l.items|, max);
    if max == 0 || l.cap == 0 then (l, [])
    else (if n == |l.items| then Taken(l, n).(warned := Quiet, mark := seen) else Taken(l, n), l.items[..n])
  }

  // --------------------------------------------------------------------------------------
  // What every run keeps
  // --------------------------------------------------------------------------------------

  /** What becomes of a pushed chunk: the mark is set exactly when the chunk before it was not polled. */
  function AsPolled(pushed: seq<Chunk>, ordinal: nat, after: nat): Chunk
    requires ordinal < |pushed|
  {
    pushed[ordinal].(lost := ordinal != after)
  }

  /**
   * Every chunk polled carries the bytes pushed at its place, and LOST exactly when that place is
   * not the one behind the chunk polled before it.
   */
  predicate Faithful(pushed: seq<Chunk>, given: seq<Given>, upTo: nat) {
    if given == [] then upTo == 0
    else
      var g := given[|given| - 1];
      && g.ordinal + 1 == upTo && g.after <= g.ordinal < |pushed|
      && g.chunk == AsPolled(pushed, g.ordinal, g.after)
      && Faithful(pushed, given[..|given| - 1], g.after)
  }

  predicate NumberedChunks(cs: seq<Chunk>) {
    forall i :: 0 <= i < |cs| ==> cs[i].sequence == i % WORD && !cs[i].lost
  }

  predicate HeldAsPushed(l: Wire) {
    && |l.pushed| == l.taken + l.gone + |l.items|
    && forall k :: 0 <= k < |l.items| ==>
         l.items[k] == AsPolled(l.pushed, l.taken + l.gone + k, if k == 0 then l.upTo else l.taken + l.gone + k)
  }

  /** Pushed is polled plus dropped plus held, in order, and what is held is marked as it must be. */
  predicate Traced(l: Wire) {
    && 0 < l.cap && |l.items| <= l.cap
    && HeldAsPushed(l)
    && l.upTo <= l.taken + l.gone
    && l.owed == (l.items == [] && l.upTo != l.taken + l.gone)
    && NumberedChunks(l.pushed)
    && l.sequence == |l.pushed| % WORD
    && l.dropped == l.gone % WORD
    && Faithful(l.pushed, l.given, l.upTo)
  }

  lemma NewIsTraced(cap: nat)
    requires cap > 0
    ensures Traced(NewWire(cap))
  {
  }

  lemma {:induction false} FaithfulGrows(pushed: seq<Chunk>, c: Chunk, given: seq<Given>, upTo: nat)
    requires Faithful(pushed, given, upTo)
    ensures Faithful(pushed + [c], given, upTo)
    decreases |given|
  {
    if given != [] {
      FaithfulGrows(pushed, c, given[..|given| - 1], given[|given| - 1].after);
    }
  }

  lemma {:induction false} FaithfulGives(pushed: seq<Chunk>, given: seq<Given>, upTo: nat, first: nat, out: seq<Chunk>)
    requires Faithful(pushed, given, upTo) && upTo <= first && first + |out| <= |pushed|
    requires forall k :: 0 <= k < |out| ==> out[k] == AsPolled(pushed, first + k, if k == 0 then upTo else first + k)
    ensures Faithful(pushed, given + Gives(first, upTo, out), if out == [] then upTo else first + |out|)
    decreases |out|
  {
    if out == [] {
      assert given + [] == given;
    } else {
      var k := |out| - 1;
      FaithfulGives(pushed, given, upTo, first, out[..k]);
      var all := given + Gives(first, upTo, out);
      assert all[..|all| - 1] == given + Gives(first, upTo, out[..k]);
      assert all[|all| - 1] == Given(first + k, if k == 0 then upTo else first + k, out[k]);
    }
  }

  lemma DropIsTraced(l: Wire)
    requires Traced(l) && l.items != []
    ensures Traced(DropOldest(l))
    ensures |DropOldest(l).items| == |l.items| - 1 && DropOldest(l).pushed == l.pushed
  {
    hide Faithful, Inc32;
    IncIsModulo(l.gone);
    var m := DropOldest(l);
    forall k | 0 <= k < |m.items|
      ensures m.items[k] == AsPolled(m.pushed, m.taken + m.gone + k, if k == 0 then m.upTo else m.taken + m.gone + k)
    {
      assert l.items[k + 1] == AsPolled(l.pushed, l.taken + l.gone + (k + 1), l.taken + l.gone + (k + 1));
      assert l.items[1..][k] == l.items[k + 1];
    }
  }

  lemma AddIsTraced(l: Wire, chunk: Chunk)
    requires Traced(l) && |l.items| < l.cap && !chunk.lost
    ensures Traced(Push(l, chunk))
  {
    hide Faithful, Inc32;
    IncIsModulo(|l.pushed|);
    var c := chunk.(sequence := l.sequence);
    FaithfulGrows(l.pushed, c, l.given, l.upTo);
    var m := Push(l, chunk);
    forall k | 0 <= k < |m.items|
      ensures m.items[k] == AsPolled(m.pushed, m.taken + m.gone + k, if k == 0 then m.upTo else m.taken + m.gone + k)
    {
      if k < |l.items| {
        assert l.items[k] == AsPolled(l.pushed, l.taken + l.gone + k, if k == 0 then l.upTo else l.taken + l.gone + k);
      }
    }
  }

  lemma PushIsTraced(l: Wire, chunk: Chunk)
    requires Traced(l) && !chunk.lost
    ensures Traced(Push(l, chunk)) && Push(l, chunk).pushed == l.pushed + [chunk.(sequence := |l.pushed| % WORD)]
    ensures Push(l, chunk).given == l.given && Push(l, chunk).mark == l.mark && Push(l, chunk).cap == l.cap
    ensures Push(l, chunk).warned == if |l.items| == l.cap then Warn(l.warned) else l.warned
    ensures Push(l, chunk).gone == l.gone + if |l.items| == l.cap then 1 else 0
  {
    hide Traced;
    assert Traced(l) ==> l.sequence == |l.pushed| % WORD && 0 < l.cap && |l.items| <= l.cap by {
      TracedFields(l);
    }
    if |l.items| == l.cap {
      DropIsTraced(l);
      AddIsTraced(DropOldest(l), chunk);
    } else {
      AddIsTraced(l, chunk);
    }
  }

  lemma TracedFields(l: Wire)
    ensures Traced(l) ==> l.sequence == |l.pushed| % WORD && 0 < l.cap && |l.items| <= l.cap
  {
  }

  lemma PollIsTraced(l: Wire, max: nat, seen: nat)
    requires Traced(l)
    ensures Traced(PollWire(l, max, seen).0) && PollWire(l, max, seen).0.pushed == l.pushed
  {
    hide Faithful, NumberedChunks, AsPolled;
    var first, n := l.taken + l.gone, Least(|l.items|, max);
    if max != 0 {
      var out := l.items[..n];
      forall k | 0 <= k < |out|
        ensures out[k] == AsPolled(l.pushed, first + k, if k == 0 then l.upTo else first + k)
      {
        assert out[k] == l.items[k];
      }
      FaithfulGives(l.pushed, l.given, l.upTo, first, out);
      var m := PollWire(l, max, seen).0;
      if n > 0 {
        forall k | 0 <= k < |m.items|
          ensures m.items[k] == AsPolled(m.pushed, m.taken + m.gone + k, if k == 0 then m.upTo else m.taken + m.gone + k)
        {
          assert m.items[k] == l.items[n + k] == AsPolled(l.pushed, first + (n + k), first + (n + k));
        }
      } else {
        assert l.items[0..] == l.items;
      }
    }
  }

  /**
   * In terms of the numbers on the chunks: LOST exactly when the number is not one after the
   * previous chunk's, unless a multiple of 2^32 chunks was lost in between.
   */
  lemma LostBySequence(pushed: seq<Chunk>, given: seq<Given>, upTo: nat, i: nat)
    requires Faithful(pushed, given, upTo) && NumberedChunks(pushed) && 0 < i < |given|
    ensures var a, b := given[i - 1], given[i];
            && a.ordinal + 1 == b.after <= b.ordinal
            && (b.chunk.lost <==> b.ordinal != a.ordinal + 1)
            && (b.ordinal - b.after < WORD ==>
                  (b.chunk.lost <==> b.chunk.sequence != Inc32(a.chunk.sequence)))
    decreases |given|
  {
    hide Inc32;
    if i == |given| - 1 {
      var a, b := given[i - 1], given[i];
      assert given[..|given| - 1][i - 1] == a;
      assert a.chunk.sequence == a.ordinal % WORD && b.chunk.sequence == b.ordinal % WORD;
      IncIsModulo(a.ordinal);
      if b.ordinal - b.after < WORD {
        ModulosDiffer(b.after, b.ordinal);
      }
    } else {
      var shorter := given[..|given| - 1];
      LostBySequence(pushed, shorter, given[|given| - 1].after, i);
      assert shorter[i - 1] == given[i - 1] && shorter[i] == given[i];
    }
  }

  lemma ModulosDiffer(a: nat, b: nat)
    requires a <= b < a + WORD
    ensures a % WORD == b % WORD <==> a == b
  {
    var p, q := a / WORD, b / WORD;
    assert a == p * WORD + a % WORD && b == q * WORD + b % WORD;
    if a % WORD == b % WORD {
      assert (q - p) * WORD == b - a;
      assert q == p;
    }
  }

  // --------------------------------------------------------------------------------------
  // In place
  // --------------------------------------------------------------------------------------

  class WireRing {
    const ring: Ring<Chunk>
    var sequence: nat
    var dropped: nat
    var warned: Warned
    var owed: bool
    ghost var pushed: seq<Chunk>
    ghost var taken: nat
    ghost var gone: nat
    ghost var upTo: nat
    ghost var given: seq<Given>
    ghost var mark: nat

    ghost predicate Valid()
      reads this, ring
    {
      ring.Valid()
    }

    ghost function Abs(): Wire
      requires Valid()
      reads this, ring, ring.slots
    {
      Wire(ring.slots.Length, ring.View(), sequence, dropped, warned, owed, pushed, taken, gone, upTo, given, mark)
    }

    ghost function Parts(): set<object> {
      {this, ring, ring.slots}
    }

    constructor (cap: nat)
      requires cap > 0
      ensures Valid() && Abs() == NewWire(cap) && fresh(Parts())
    {
      ring := new Ring(cap);
      sequence, dropped, warned, owed := 0, 0, Quiet, false;
      pushed, taken, gone, upTo, given, mark := [], 0, 0, 0, [], 0;
    }

    method DropFirst()
      requires Valid() && ring.count > 0
      modifies this, ring, ring.slots
      ensures Valid() && Abs() == DropOldest(old(Abs()))
    {
      ring.Drop();
      dropped := Inc32(dropped);
      if ring.count > 0 {
        var first := ring.Get(0);
        ring.Set(0, first.(lost := true));
      } else {
        owed := true;
      }
      assert |ring.View()| == ring.count;
      warned := if warned != Quiet then Said else Owed;
      gone := gone + 1;
    }

    method PushIn(chunk: Chunk)
      requires Valid()
      modifies this, ring, ring.slots
      ensures Valid() && Abs() == Push(old(Abs()), chunk)
    {
      hide DropOldest;
      var c := chunk.(sequence := sequence);
      ghost var next := Inc32(sequence);
      assert |ring.View()| == ring.count;
      label Start:
      if ring.count == ring.slots.Length {
        DropFirst();
        DropKeeps(old(Abs()));
      }
      label Dropped:
      ring.Push(c.(lost := c.lost || owed));
      owed := false;
      sequence := Inc32(sequence);
      pushed := pushed + [c];
      assert ring.View() == old@Dropped(Abs()).items + [c.(lost := c.lost || old@Dropped(owed))];
    }

    method TakeOne() returns (x: Chunk)
      requires Valid() && ring.count > 0
      modifies this, ring
      ensures Valid() && |old(Abs()).items| > 0 && ring.count == old(ring.count) - 1
      ensures x == old(Abs()).items[0] && Abs() == Taken(old(Abs()), 1)
    {
      ghost var l := Abs();
      assert |ring.View()| == ring.count;
      x := ring.Get(0);
      ring.Drop();
      assert l.items[..1] == [x] && [x][..0] == [];
      given := given + [Given(taken + gone, upTo, x)];
      upTo := taken + gone + 1;
      taken := taken + 1;
    }

    method PollOut(max: nat, ghost seen: nat) returns (out: seq<Chunk>)
      requires Valid()
      modifies this, ring
      ensures Valid() && (Abs(), out) == PollWire(old(Abs()), max, seen)
    {
      hide Taken, Gives;
      out := [];
      if max == 0 {
        return;
      }
      ghost var l := Abs();
      assert |ring.View()| == ring.count;
      TakenNone(l);
      while ring.count > 0 && |out| < max
        invariant Valid() && |out| <= |l.items| && |out| <= max
        invariant ring.count == |l.items| - |out|
        invariant Abs() == Taken(l, |out|) && out == l.items[..|out|]
      {
        TakenStep(l, |out|);
        var x := TakeOne();
        out := out + [x];
      }
      if ring.count == 0 {
        warned := Quiet;
        mark := seen;
      }
    }
  }

  lemma TakenNone(l: Wire)
    ensures Taken(l, 0) == l
  {
    assert l.items[0..] == l.items && l.given + [] == l.given;
  }

  lemma TakenStep(l: Wire, n: nat)
    requires n < |l.items|
    ensures |Taken(l, n).items| == |l.items| - n && Taken(l, n).items[0] == l.items[n]
    ensures Taken(Taken(l, n), 1) == Taken(l, n + 1)
    ensures l.items[..n] + [l.items[n]] == l.items[..n + 1]
  {
    var m, first := Taken(l, n), l.taken + l.gone;
    assert l.items[n..][1..] == l.items[n + 1..];
    assert l.items[..n + 1][..n] == l.items[..n];
    assert m.items[..1] == [l.items[n]] && [l.items[n]][..0] == [];
    var g := Given(first + n, if n == 0 then l.upTo else first + n, l.items[n]);
    assert Gives(m.taken + m.gone, m.upTo, [l.items[n]]) == [g];
    assert Gives(first, l.upTo, l.items[..n + 1]) == Gives(first, l.upTo, l.items[..n]) + [g];
    assert l.given + (Gives(first, l.upTo, l.items[..n]) + [g]) == l.given + Gives(first, l.upTo, l.items[..n]) + [g];
  }

  lemma DropKeeps(l: Wire)
    ensures DropOldest(l).sequence == l.sequence && DropOldest(l).pushed == l.pushed && DropOldest(l).cap == l.cap
    ensures l.items != [] ==> |DropOldest(l).items| == |l.items| - 1
  {
  }
}
