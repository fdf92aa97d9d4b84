/**
 * The redactor: overwrites the strings that stand behind a device id key, wherever a buffer has them.
 *
 * `Paint` says, for a whole buffer, which bytes are overwritten and with what. `Redactor` does
 * it chunk by chunk, keeping a value that straddles two chunks for the second.
 */
module Redact {
  import opened Bytes

  const MASK: seq<Byte> := Ascii("<redacted>")

  const KEY: seq<Byte> := Ascii("deviceid")

  /** A byte of the result, and whether it stands for a byte that was taken out. */
  datatype Cell = Cell(b: Byte, hidden: bool)

  function MaskByte(k: nat): Byte {
    MASK[k % |MASK|]
  }

  function Clear(s: seq<Byte>): (r: seq<Cell>)
    ensures |r| == |s|
    ensures forall k :: 0 <= k < |s| ==> r[k] == Cell(s[k], false)
  {
    seq(|s|, k requires 0 <= k < |s| => Cell(s[k], false))
  }

  function Hidden(n: nat): (r: seq<Cell>)
    ensures |r| == n
    ensures forall k :: 0 <= k < n ==> r[k] == Cell(MaskByte(k), true)
  {
    seq(n, k requires 0 <= k < n => Cell(MaskByte(k), true))
  }

  /** How many whitespace bytes `s` begins with. */
  function Spaces(s: seq<Byte>): (n: nat)
    ensures n <= |s|
    ensures n < |s| ==> !IsWs(s[n])
  {
    if s != [] && IsWs(s[0]) then 1 + Spaces(s[1..]) else 0
  }

  /** `"DeviceID"` stands at the head of `s`, in whatever case. */
  predicate KeyAtHead(s: seq<Byte>) {
    |s| >= 10 && s[0] == QUOTE && CiEqual(s[1..9], KEY) && s[9] == QUOTE
  }

  /** With a key at the head: where the content of its string value begins. */
  function ContentStart(s: seq<Byte>): (r: Option<nat>)
    ensures r.Some? ==> 0 < r.value <= |s|
  {
    if !KeyAtHead(s) then None
    else
      var colon := 10 + Spaces(s[10..]);
      if colon >= |s| || s[colon] != COLON then None
      else
        var quote := colon + 1 + Spaces(s[colon + 1..]);
        if quote >= |s| || s[quote] != QUOTE then None else Some(quote + 1)
  }

  /** How long a string's content is: up to its closing quote, or to the end if there is none. */
  function ContentLength(s: seq<Byte>): (n: nat)
    ensures n <= |s|
    ensures n < |s| ==> s[n] == QUOTE
    decreases |s|
  {
    if s == [] || s[0] == QUOTE then 0
    else if s[0] == BACKSLASH && |s| > 1 then 2 + ContentLength(s[2..])
    else 1 + ContentLength(s[1..])
  }

  function Paint(s: seq<Byte>): (r: seq<Cell>)
    ensures |r| == |s|
    decreases |s|
  {
    if s == [] then []
    else
      match ContentStart(s)
      case None => [Cell(s[0], false)] + Paint(s[1..])
      case Some(a) =>
        var n := ContentLength(s[a..]);
        Clear(s[..a]) + Hidden(n) + (if a + n < |s| then [Cell(s[a + n], false)] + Paint(s[a + n + 1..]) else [])
  }

  function CellBytes(cells: seq<Cell>): (r: seq<Byte>)
    ensures |r| == |cells|
    ensures forall k :: 0 <= k < |cells| ==> r[k] == cells[k].b
  {
    seq(|cells|, k requires 0 <= k < |cells| => cells[k].b)
  }

  predicate AnyHidden(cells: seq<Cell>) {
    exists k :: 0 <= k < |cells| && cells[k].hidden
  }

  /** The whole buffer, masked. */
  function Mask(s: seq<Byte>): (r: seq<Byte>)
    ensures |r| == |s|
  {
    CellBytes(Paint(s))
  }

  // --------------------------------------------------------------------------------------
  // The next value to mask
  // --------------------------------------------------------------------------------------

  /** The first value at or behind the head of `s`: where its content begins and ends. */
  function NextSpan(s: seq<Byte>): (r: Option<(nat, nat)>)
    ensures r.Some? ==> 0 < r.value.0 <= r.value.1 <= |s|
    decreases |s|
  {
    if s == [] then None
    else
      match ContentStart(s)
      case Some(a) => Some((a, a + ContentLength(s[a..])))
      case None =>
        match NextSpan(s[1..])
        case None => None
        case Some((a, e)) => Some((a + 1, e + 1))
  }

  /** The closing quote at `e`, if there is one, and what lies behind it. */
  function PaintBehind(s: seq<Byte>, e: nat): seq<Cell>
    requires e <= |s|
  {
    if e < |s| then [Cell(s[e], false)] + Paint(s[e + 1..]) else []
  }

  lemma PaintStep(s: seq<Byte>)
    requires s != []
    ensures match ContentStart(s)
            case None => Paint(s) == [Cell(s[0], false)] + Paint(s[1..])
            case Some(a) =>
              var n := ContentLength(s[a..]);
              Paint(s) == Clear(s[..a]) + Hidden(n) + PaintBehind(s, a + n)
  {
    hide ContentStart, ContentLength, MaskByte;
  }

  lemma OneEarlier(s: seq<Byte>, a: nat, e: nat)
    requires a <= e < |s|
    ensures [Cell(s[0], false)] + (Clear(s[1..][..a]) + Hidden(e - a) + PaintBehind(s[1..], e))
         == Clear(s[..a + 1]) + Hidden(e - a) + PaintBehind(s, e + 1)
  {
    hide Paint, MaskByte;
    var h, c, d, p := [Cell(s[0], false)], Clear(s[1..][..a]), Hidden(e - a), PaintBehind(s[1..], e);
    assert Clear(s[..a + 1]) == h + c;
    if e + 1 < |s| {
      assert s[1..][e + 1..] == s[e + 2..];
    }
    assert h + (c + d + p) == h + c + d + p;
  }

  /** Up to the next value nothing changes, and behind its closing quote painting starts afresh. */
  lemma {:induction false} PaintNextSpan(s: seq<Byte>)
    ensures match NextSpan(s)
            case None => Paint(s) == Clear(s)
            case Some((a, e)) => Paint(s) == Clear(s[..a]) + Hidden(e - a) + PaintBehind(s, e)
    decreases |s|
  {
    hide ContentStart, ContentLength, PaintBehind, Paint;
    if s == [] {
      assert Paint(s) == [];
    } else {
      PaintStep(s);
      if ContentStart(s) == None {
        PaintNextSpan(s[1..]);
        match NextSpan(s[1..]) {
          case None => assert Clear(s) == [Cell(s[0], false)] + Clear(s[1..]);
          case Some((a, e)) => OneEarlier(s, a, e);
        }
      }
    }
  }

  /** From `lo` to `hi` nothing of `buf` is masked. */
  ghost predicate Left(buf: seq<Byte>, lo: nat, hi: nat) {
    hi <= |buf| && forall k :: lo <= k < hi ==> Paint(buf)[k] == Cell(buf[k], false)
  }

  /** From `lo` to `hi` all of `buf` is masked, the mask beginning at `lo`. */
  ghost predicate Covered(buf: seq<Byte>, lo: nat, hi: nat) {
    hi <= |buf| && forall k :: lo <= k < hi ==> Paint(buf)[k] == Cell(MaskByte(k - lo), true)
  }

  /** What lies behind `i` has been painted without regard to what lies before it. */
  ghost predicate Split(buf: seq<Byte>, i: nat) {
    i <= |buf| && Paint(buf)[i..] == Paint(buf[i..])
  }

  lemma InParts(p: seq<Cell>, i: nat, x: seq<Cell>, y: seq<Cell>, z: seq<Cell>)
    requires i <= |p| && p[i..] == x + y + z
    ensures |p| == i + |x| + |y| + |z|
    ensures forall k :: i <= k < i + |x| ==> p[k] == x[k - i]
    ensures forall k :: i + |x| <= k < i + |x| + |y| ==> p[k] == y[k - i - |x|]
    ensures forall k :: i + |x| + |y| <= k < |p| ==> p[k] == z[k - i - |x| - |y|]
    ensures p[i + |x| + |y|..] == z
  {
    var t := x + y + z;
    assert |p| == i + |t|;
    assert forall k :: i <= k < |p| ==> p[k] == p[i..][k - i];
  }

  lemma SpanAt(buf: seq<Byte>, i: nat, a: nat, e: nat)
    requires Split(buf, i) && a <= e <= |buf| - i
    requires Paint(buf[i..]) == Clear(buf[i..][..a]) + Hidden(e - a) + PaintBehind(buf[i..], e)
    ensures Left(buf, i, i + a) && Covered(buf, i + a, i + e)
    ensures i + e < |buf| ==> Left(buf, i + e, i + e + 1) && Split(buf, i + e + 1)
  {
    hide Paint, MaskByte, PaintBehind, Left, Covered;
    var s, p := buf[i..], Paint(buf);
    var z := PaintBehind(s, e);
    InParts(p, i, Clear(s[..a]), Hidden(e - a), z);
    ClearPart(buf, i, a);
    HiddenPart(buf, i + a, i + e);
    if i + e < |buf| {
      BehindPart(buf, i, e);
    }
  }

  lemma ClearPart(buf: seq<Byte>, i: nat, a: nat)
    requires i + a <= |buf| && forall k :: i <= k < i + a ==> Paint(buf)[k] == Clear(buf[i..][..a])[k - i]
    ensures Left(buf, i, i + a)
  {
    hide Paint;
    forall k | i <= k < i + a
      ensures Paint(buf)[k] == Cell(buf[k], false)
    {
      assert buf[i..][..a][k - i] == buf[k];
    }
  }

  lemma HiddenPart(buf: seq<Byte>, lo: nat, hi: nat)
    requires lo <= hi <= |buf| && forall k :: lo <= k < hi ==> Paint(buf)[k] == Hidden(hi - lo)[k - lo]
    ensures Covered(buf, lo, hi)
  {
    hide Paint, MaskByte;
  }

  lemma BehindPart(buf: seq<Byte>, i: nat, e: nat)
    requires i + e < |buf| && Paint(buf)[i + e..] == PaintBehind(buf[i..], e)
    ensures Left(buf, i + e, i + e + 1) && Split(buf, i + e + 1)
  {
    hide Paint;
    var p := Paint(buf);
    assert buf[i..][e + 1..] == buf[i + e + 1..];
    assert p[i + e..][1..] == p[i + e + 1..];
    assert p[i + e] == p[i + e..][0];
  }

  lemma PaintAt(buf: seq<Byte>, i: nat)
    requires Split(buf, i)
    ensures match NextSpan(buf[i..])
            case None => Left(buf, i, |buf|)
            case Some((a, e)) =>
              Left(buf, i, i + a) && Covered(buf, i + a, i + e)
              && (i + e < |buf| ==> Left(buf, i + e, i + e + 1) && Split(buf, i + e + 1))
  {
    hide Paint, NextSpan, MaskByte;
    PaintNextSpan(buf[i..]);
    match NextSpan(buf[i..]) {
      case None =>
        forall k | i <= k < |buf|
          ensures Paint(buf)[k] == Cell(buf[k], false)
        {
          assert Paint(buf)[k] == Paint(buf)[i..][k - i];
        }
      case Some((a, e)) => SpanAt(buf, i, a, e);
    }
  }

  class Redactor {
    const buf: seq<Byte>
    var next: nat
    var start: nat
    var end: nat
    var have: bool

    constructor (buf: seq<Byte>)
      ensures this.buf == buf && Ready(0)
    {
      this.buf := buf;
      next, start, end, have := 0, 0, 0, false;
      new;
      assert this.buf[0..] == this.buf && Paint(this.buf)[0..] == Paint(this.buf);
    }

    /** Behind `next` nothing has been looked at yet; the current span is one that is masked. */
    ghost predicate Valid()
      reads this
    {
      && next <= |buf| && Split(buf, next)
      && (have ==> start <= end <= next && Covered(buf, start, end) && Left(buf, end, next))
    }

    /** The first position not known to be left alone. */
    ghost function Edge(): nat
      reads this
    {
      if have then start else next
    }

    /** Between chunks: from `off` on, nothing before the edge is masked. */
    ghost predicate Ready(off: nat)
      reads this
    {
      Valid() && Left(buf, off, Edge())
    }

    /** Advances to the next value. */
    method Next() returns (found: bool)
      requires Valid() && !have
      modifies this
      ensures Valid() && found == have
      ensures old(next) <= Edge() && Left(buf, old(next), Edge())
      ensures if found then next > old(next) else next == |buf|
    {
      hide Left, Covered, Split, Paint, MaskByte, NextSpan;
      PaintAt(buf, next);
      AtTheEnd(buf);
      var r := Seek(next);
      match r {
        case None =>
          next := |buf|;
          return false;
        case Some((j, v)) =>
          start, end, have := j, v, true;
          next := if v < |buf| then v + 1 else |buf|;
          return true;
      }
    }

    /** The first value from `from` on: where its content begins and ends. */
    method Seek(from: nat) returns (r: Option<(nat, nat)>)
      requires from <= |buf|
      ensures r == ShiftedSpan(NextSpan(buf[from..]), from)
      ensures r.Some? ==> from < r.value.0 <= r.value.1 <= |buf|
    {
      hide ContentStart, ContentLength, NextSpan, ShiftedSpan;
      var i := from;
      while i + 10 <= |buf|
        invariant from <= i <= |buf|
        invariant ShiftedSpan(NextSpan(buf[from..]), from) == ShiftedSpan(NextSpan(buf[i..]), i)
        decreases |buf| - i
      {
        var a := TryAt(i);
        SpanStep(buf, i);
        match a {
          case None => i := i + 1;
          case Some(j) =>
            var v := FindEnd(j);
            return Some((j, v));
        }
      }
      NoSpanInShort(buf[i..]);
      NoSpanShifted(i);
      return None;
    }

    /** A key at `i` whose value is a string: where the string's content begins. */
    method TryAt(i: nat) returns (a: Option<nat>)
      requires i + 10 <= |buf|
      ensures a == match ContentStart(buf[i..]) case None => None case Some(d) => Some(i + d)
    {
      assert buf[i..][1..9] == buf[i + 1..i + 9];
      if buf[i] != QUOTE || !CiEqual(buf[i + 1..i + 9], KEY) || buf[i + 9] != QUOTE {
        return None;
      }
      var j := SkipSpaces(i + 10);
      assert buf[i..][10..] == buf[i + 10..];
      if j >= |buf| || buf[j] != COLON {
        return None;
      }
      assert buf[i..][j - i + 1..] == buf[j + 1..];
      j := SkipSpaces(j + 1);
      if j >= |buf| || buf[j] != QUOTE {
        return None;
      }
      return Some(j + 1);
    }

    method SkipSpaces(from: nat) returns (j: nat)
      requires from <= |buf|
      ensures j == from + Spaces(buf[from..])
    {
      j := from;
      while j < |buf| && IsWs(buf[j])
        invariant from <= j <= |buf|
        invariant from + Spaces(buf[from..]) == j + Spaces(buf[j..])
      {
        assert buf[j..][1..] == buf[j + 1..];
        j := j + 1;
      }
    }

    method FindEnd(from: nat) returns (v: nat)
      requires from <= |buf|
      ensures v == from + ContentLength(buf[from..])
    {
      v := from;
      while v < |buf| && buf[v] != QUOTE
        invariant from <= v <= |buf|
        invariant from + ContentLength(buf[from..]) == v + ContentLength(buf[v..])
      {
        assert buf[v..][1..] == buf[v + 1..];
        if buf[v] == BACKSLASH && v + 1 < |buf| {
          assert buf[v..][2..] == buf[v + 2..];
          v := v + 1;
        }
        v := v + 1;
      }
    }

    /** What falls between `off` and `stop` is final before `edge` and untouched from there on. */
    ghost predicate Progress(dst: array<Byte>, off: nat, stop: nat, edge: nat, any: bool)
      reads dst
    {
      && off <= stop <= |buf| && stop - off <= dst.Length
      && (forall k :: off <= k < stop && k < edge ==> dst[k - off] == Paint(buf)[k].b)
      && (forall k :: off <= k < stop && edge <= k ==> dst[k - off] == buf[k])
      && (any <==> exists k :: off <= k < stop && k < edge && Paint(buf)[k].hidden)
    }

    /** Passing over what is left alone, or lies outside the chunk, changes nothing. */
    lemma PassOver(dst: array<Byte>, off: nat, stop: nat, edge: nat, further: nat, any: bool)
      requires Progress(dst, off, stop, edge, any) && edge <= further <= |buf|
      requires forall k :: off <= k < stop && edge <= k < further ==> Paint(buf)[k] == Cell(buf[k], false)
      ensures Progress(dst, off, stop, further, any)
    {
      hide Paint, MaskByte;
    }

    /** Overwrites the part of the current value inside the chunk. */
    method Overwrite(dst: array<Byte>, off: nat, stop: nat, ghost any: bool) returns (more: bool, ghost upTo: nat)
      requires Valid() && have && end > off && start < stop
      requires Progress(dst, off, stop, start, any)
      modifies dst
      ensures upTo == (if end < stop then end else stop)
      ensures Progress(dst, off, stop, upTo, any || more)
    {
      hide Paint, Split, MaskByte;
      var a := if start > off then start else off;
      var b := if end < stop then end else stop;
      upTo := b;
      for k := a to b
        invariant forall j :: off <= j < stop && j < k ==> dst[j - off] == Paint(buf)[j].b
        invariant forall j :: off <= j < stop && k <= j ==> dst[j - off] == buf[j]
      {
        assert Paint(buf)[k] == Cell(MaskByte(k - start), true);
        dst[k - off] := MaskByte(k - start);
      }
      more := b > a;
      if more {
        assert Paint(buf)[a].hidden;
      }
    }

    /** The chunk is final before the edge, and the way from its end to the edge is clear. */
    ghost predicate Working(dst: array<Byte>, off: nat, stop: nat, any: bool)
      reads this, dst
    {
      Valid() && Progress(dst, off, stop, Edge(), any) && Left(buf, stop, Edge())
    }

    /** One span: false when the chunk is finished. */
    method Span(dst: array<Byte>, off: nat, stop: nat, ghost any: bool) returns (again: bool, more: bool)
      requires Working(dst, off, stop, any) && have
      modifies this`have, dst
      ensures again ==> !have && Working(dst, off, stop, any || more)
      ensures !again ==> have && Ready(stop) && Progress(dst, off, stop, stop, any || more)
    {
      hide Paint, MaskByte, Split;
      more := false;
      if end <= off {
        PassOver(dst, off, stop, start, next, any);
        have := false;
        return true, false;
      }
      if start >= stop {
        return false, false;
      }
      ghost var upTo;
      more, upTo := Overwrite(dst, off, stop, any);
      if end > stop {
        return false, more;
      }
      PassOver(dst, off, stop, end, next, any || more);
      have := false;
      again := true;
    }

    /**
     * Overwrites the part of `dst` that is to be masked, given that `dst` stands for the `n` octets
     * from `off` on, and tells whether there was such a part.
     */
    method Apply(dst: array<Byte>, off: nat, n: nat) returns (any: bool)
      requires dst.Length >= n && off + n <= |buf| && dst[..n] == buf[off..off + n]
      requires Ready(off)
      modifies this, dst
      ensures Ready(off + n)
      ensures dst[..n] == CellBytes(Paint(buf)[off..off + n])
      ensures any <==> AnyHidden(Paint(buf)[off..off + n])
    {
      hide Paint, MaskByte, Split;
      var stop := off + n;
      any := false;
      assert forall k :: off <= k < stop ==> dst[k - off] == dst[..n][k - off] == buf[k];
      while true
        invariant Working(dst, off, stop, any)
        decreases |buf| - next, have
      {
        if !have {
          ghost var edge := next;
          var found := Next();
          PassOver(dst, off, stop, edge, Edge(), any);
          if !found {
            break;
          }
        }
        var again, more := Span(dst, off, stop, any);
        any := any || more;
        if !again {
          ChunkDone(dst, off, n, stop, any);
          return;
        }
      }
      ChunkDone(dst, off, n, next, any);
    }

    lemma ChunkDone(dst: array<Byte>, off: nat, n: nat, edge: nat, any: bool)
      requires Progress(dst, off, off + n, edge, any) && edge >= off + n
      ensures dst[..n] == CellBytes(Paint(buf)[off..off + n])
      ensures any <==> AnyHidden(Paint(buf)[off..off + n])
    {
      hide Paint, MaskByte;
      var c := Paint(buf)[off..off + n];
      assert forall k :: 0 <= k < n ==> c[k] == Paint(buf)[off + k] && dst[k] == dst[off + k - off];
      assert any ==> AnyHidden(c) by {
        if any {
          var k :| off <= k < off + n && Paint(buf)[k].hidden;
          assert c[k - off].hidden;
        }
      }
      assert AnyHidden(c) ==> any by {
        if AnyHidden(c) {
          var k :| 0 <= k < n && c[k].hidden;
          assert Paint(buf)[off + k].hidden;
        }
      }
    }
  }

  lemma AtTheEnd(buf: seq<Byte>)
    ensures Split(buf, |buf|) && Left(buf, |buf|, |buf|)
  {
    assert buf[|buf|..] == [] && Paint(buf)[|buf|..] == [];
  }

  lemma SpanStep(buf: seq<Byte>, i: nat)
    requires i + 10 <= |buf|
    ensures ShiftedSpan(NextSpan(buf[i..]), i)
         == match ContentStart(buf[i..])
            case None => ShiftedSpan(NextSpan(buf[i + 1..]), i + 1)
            case Some(d) => Some((i + d, i + d + ContentLength(buf[i + d..])))
  {
    hide ContentStart, ContentLength;
    assert buf[i..][1..] == buf[i + 1..];
    match ContentStart(buf[i..]) {
      case None =>
      case Some(d) => assert buf[i..][d..] == buf[i + d..];
    }
  }

  lemma NoSpanShifted(i: nat)
    ensures ShiftedSpan(None, i) == None
  {
  }

  function ShiftedSpan(r: Option<(nat, nat)>, shift: nat): Option<(nat, nat)> {
    match r
    case None => None
    case Some((a, e)) => Some((a + shift, e + shift))
  }

  lemma {:induction false} NoSpanInShort(s: seq<Byte>)
    requires |s| < 10
    ensures NextSpan(s) == None
    decreases |s|
  {
    if s != [] {
      NoSpanInShort(s[1..]);
    }
  }
}
