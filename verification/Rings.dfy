/** A fixed array used as a ring: where the server keeps its events, its writes and its wire log. */
module Rings {

  /** `s` without its element `i`. */
  function Without<T>(s: seq<T>, i: nat): seq<T>
    requires i < |s|
  {
    s[..i] + s[i + 1..]
  }

  /** The elements that satisfy `keep`, in order. */
  function Kept<T>(s: seq<T>, keep: T -> bool): (r: seq<T>)
    ensures |r| <= |s|
  {
    if s == [] then []
    else if keep(s[|s| - 1]) then Kept(s[..|s| - 1], keep) + [s[|s| - 1]]
    else Kept(s[..|s| - 1], keep)
  }

  /** One step along the ring from a slot of it. */
  function Wrap(i: nat, cap: nat): (r: nat)
    requires cap > 0 && i < 2 * cap
    ensures r < cap
    ensures r == i || r == i - cap
  {
    if i < cap then i else i - cap
  }

  lemma WrapIsModulo(i: nat, cap: nat)
    requires cap > 0 && i < 2 * cap
    ensures i % cap == Wrap(i, cap)
  {
    if i >= cap {
      assert i == 1 * cap + (i - cap);
    }
  }

  class Ring<T(0)> {
    const slots: array<T>
    var head: nat
    var count: nat

    ghost predicate Valid()
      reads this
    {
      && slots.Length > 0
      && head < slots.Length
      && count <= slots.Length
    }

    /** The elements held, oldest first. */
    ghost function View(): (s: seq<T>)
      requires Valid()
      reads this, slots
      ensures |s| == count
    {
      seq(count, i requires 0 <= i < count && Valid() reads this, slots => slots[Wrap(head + i, slots.Length)])
    }

    constructor (cap: nat)
      requires cap > 0
      ensures Valid() && View() == [] && slots.Length == cap && fresh(slots)
    {
      slots := new T[cap];
      head, count := 0, 0;
    }

    function At(i: nat): (k: nat)
      requires Valid() && i < 2 * slots.Length - head
      reads this
      ensures k == Wrap(head + i, slots.Length)
    {
      WrapIsModulo(head + i, slots.Length);
      (head + i) % slots.Length
    }

    method Get(i: nat) returns (x: T)
      requires Valid() && i < count
      ensures x == View()[i]
    {
      x := slots[At(i)];
    }

    method Set(i: nat, x: T)
      requires Valid() && i < count
      modifies slots
      ensures Valid() && View() == old(View())[i := x]
    {
      ghost var was := View();
      slots[At(i)] := x;
      forall j | 0 <= j < count
        ensures View()[j] == was[i := x][j]
      {
        assert was[j] == old(slots[Wrap(head + j, slots.Length)]);
      }
      assert View() == was[i := x];
    }

    method Push(x: T)
      requires Valid() && count < slots.Length
      modifies this, slots
      ensures Valid() && View() == old(View()) + [x]
    {
      ghost var was := View();
      slots[At(count)] := x;
      count := count + 1;
      forall j | 0 <= j < count
        ensures View()[j] == (was + [x])[j]
      {
        assert j < |was| ==> was[j] == old(slots[Wrap(head + j, slots.Length)]);
      }
      assert View() == was + [x];
    }

    /** Forgets the oldest element. */
    method Drop()
      requires Valid() && count > 0
      modifies this
      ensures Valid() && View() == old(View())[1..]
    {
      ghost var was := View();
      head := At(1);
      count := count - 1;
      forall j | 0 <= j < count
        ensures View()[j] == was[1..][j]
      {
        assert was[j + 1] == slots[Wrap(old(head) + (j + 1), slots.Length)];
        assert Wrap(head + j, slots.Length) == Wrap(old(head) + (j + 1), slots.Length);
      }
      assert View() == was[1..];
    }

    method Clear()
      requires Valid()
      modifies this
      ensures Valid() && View() == []
    {
      head, count := 0, 0;
    }

    /** Takes out element `i` by moving those before it up one slot, in place. */
    method RemoveAt(i: nat)
      requires Valid() && i < count
      modifies this, slots
      ensures Valid() && View() == Without(old(View()), i)
    {
      ghost var was := View();
      var k := i;
      while k > 0
        invariant 0 <= k <= i && head == old(head) && count == old(count)
        invariant forall j :: 0 <= j < k ==> View()[j] == was[j]
        invariant forall j :: k < j <= i ==> View()[j] == was[j - 1]
        invariant forall j :: i < j < count ==> View()[j] == was[j]
      {
        var before := Get(k - 1);
        Set(k, before);
        k := k - 1;
      }
      assert View()[1..] == Without(was, i);
      Drop();
    }

    /** Keeps the elements that satisfy `keep`, moving them down in place. */
    method Filter(keep: T -> bool)
      requires Valid()
      modifies this, slots
      ensures Valid() && View() == Kept(old(View()), keep)
    {
      hide Kept;
      ghost var was := View();
      var kept := 0;
      assert was[..0] == [] && Kept([], keep) == [] by { KeptNothing(keep); }
      for i := 0 to count
        invariant Valid() && head == old(head) && count == old(count) && kept <= i
        invariant View()[..kept] == Kept(was[..i], keep) && View()[i..] == was[i..]
      {
        var x := Get(i);
        assert x == was[i] by {
          assert View()[i..][0] == was[i..][0];
        }
        KeptSnoc(was, i, keep);
        if keep(x) {
          Keep(kept, i, x);
          kept := kept + 1;
        } else {
          assert View()[i + 1..] == View()[i..][1..];
        }
        assert was[i + 1..] == was[i..][1..];
      }
      assert was[..count] == was;
      Cut(kept);
    }

    /** Moves the element at `i` down to `to`. */
    method Keep(to: nat, i: nat, x: T)
      requires Valid() && to <= i < count && x == View()[i]
      modifies slots
      ensures Valid() && View()[..to + 1] == old(View())[..to] + [x] && View()[i + 1..] == old(View())[i..][1..]
    {
      ghost var was := View();
      if to != i {
        Set(to, x);
      }
      assert View() == was[to := x];
    }

    method Cut(kept: nat)
      requires Valid() && kept <= count
      modifies this
      ensures Valid() && View() == old(View())[..kept]
    {
      ghost var was := View();
      count := kept;
      assert View() == was[..kept];
    }
  }

  lemma KeptNothing<T>(keep: T -> bool)
    ensures Kept([], keep) == []
  {
  }

  lemma KeptSnoc<T>(s: seq<T>, i: nat, keep: T -> bool)
    requires i < |s|
    ensures Kept(s[..i + 1], keep) == if keep(s[i]) then Kept(s[..i], keep) + [s[i]] else Kept(s[..i], keep)
  {
    assert s[..i + 1][..i] == s[..i];
  }
}
