/** The record area of a `.gswire` capture: little-endian records, written whole and read back. */
module Record {
  import opened Bytes
  import opened Numbers

  const HEADER: nat := 24
  const PAYLOAD_MAX: nat := 512

  /** One chunk as it stands in a file. */
  datatype Record = Record(direction: Byte, flags: Byte, sequence: nat, conn: nat, at: int, data: seq<Byte>)

  /** What fits the fields' widths; the length is a field of its own in the source. */
  predicate Fits(r: Record) {
    && r.sequence < 0x1_0000_0000 && r.conn < 0x1_0000_0000 && INT64_MIN <= r.at <= INT64_MAX
    && |r.data| < 0x1_0000
  }

  predicate Writable(r: Record) {
    Fits(r) && |r.data| <= PAYLOAD_MAX
  }

  predicate AllWritable(rs: seq<Record>) {
    forall i :: 0 <= i < |rs| ==> Writable(rs[i])
  }

  // --------------------------------------------------------------------------------------
  // Little-endian
  // --------------------------------------------------------------------------------------

  function Power(n: nat): (p: nat)
    ensures p > 0
  {
    if n == 0 then 1 else 256 * Power(n - 1)
  }

  function Le(n: nat, v: nat): (s: seq<Byte>)
    ensures |s| == n
  {
    if n == 0 then [] else [v % 256] + Le(n - 1, v / 256)
  }

  function UnLe(s: seq<Byte>): nat {
    if s == [] then 0 else s[0] + 256 * UnLe(s[1..])
  }

  lemma QuotientBelow(v: nat, p: nat)
    requires v < 256 * p
    ensures v / 256 < p
  {
  }

  lemma {:induction false} LeReadsBack(n: nat, v: nat)
    requires v < Power(n)
    ensures UnLe(Le(n, v)) == v
    decreases n
  {
    if n > 0 {
      QuotientBelow(v, Power(n - 1));
      LeReadsBack(n - 1, v / 256);
      assert Le(n, v)[1..] == Le(n - 1, v / 256);
    }
  }

  lemma Powers()
    ensures Power(2) == 0x1_0000 && Power(4) == 0x1_0000_0000 && Power(8) == 0x1_0000_0000_0000_0000
  {
    assert Power(1) == 256 * Power(0);
    assert Power(2) == 256 * Power(1);
    assert Power(3) == 256 * Power(2);
    assert Power(4) == 256 * Power(3);
    assert Power(5) == 256 * Power(4);
    assert Power(6) == 256 * Power(5);
    assert Power(7) == 256 * Power(6);
  }

  const WRAP64: nat := 0x1_0000_0000_0000_0000

  /** A signed 64-bit value as the unsigned one with the same bits, and back. */
  function Unsigned(v: int): (u: nat)
    requires INT64_MIN <= v <= INT64_MAX
    ensures u < WRAP64
  {
    if v < 0 then v + WRAP64 else v
  }

  function Signed(u: nat): int {
    if u > INT64_MAX then u - WRAP64 else u
  }

  // --------------------------------------------------------------------------------------
  // Records
  // --------------------------------------------------------------------------------------

  function HeaderOf(r: Record): (s: seq<Byte>)
    requires Fits(r)
    ensures |s| == HEADER
  {
    Le(4, |r.data|) + [r.direction, r.flags] + Le(2, 0) + Le(4, r.sequence) + Le(4, r.conn) + Le(8, Unsigned(r.at))
  }

  function Encode(r: Record): (s: seq<Byte>)
    requires Fits(r)
    ensures |s| == HEADER + |r.data|
  {
    HeaderOf(r) + r.data
  }

  function EncodeAll(rs: seq<Record>): seq<Byte>
    requires AllWritable(rs)
  {
    if rs == [] then [] else Encode(rs[0]) + EncodeAll(rs[1..])
  }

  /** What the reader is told: go on, the clean end, the file cut short, or a record that cannot be. */
  datatype Ending = Readable | AtEnd | CutShort | Corrupt

  datatype Next = Got(record: Record, rest: seq<Byte>) | Stopped(why: Ending)

  /** One record from the front of `s`. */
  function ReadOne(s: seq<Byte>): (n: Next)
    ensures n.Got? ==> |n.rest| < |s|
  {
    if s == [] then Stopped(AtEnd)
    else if |s| < HEADER then Stopped(CutShort)
    else
      var length := UnLe(s[..4]);
      if length > PAYLOAD_MAX then Stopped(Corrupt)
      else if |s| < HEADER + length then Stopped(CutShort)
      else
        Got(Record(s[4], s[5], UnLe(s[8..12]), UnLe(s[12..16]), Signed(UnLe(s[16..24])), s[HEADER..HEADER + length]),
            s[HEADER + length..])
  }

  /** Up to `max` records, what is left, and how the reader stands. */
  datatype Batch = Batch(records: seq<Record>, rest: seq<Byte>, status: Ending)

  function ReadUpTo(s: seq<Byte>, max: nat): Batch
    decreases max
  {
    if max == 0 then Batch([], s, Readable)
    else
      match ReadOne(s)
      case Stopped(why) => Batch([], s, why)
      case Got(r, rest) =>
        var b := ReadUpTo(rest, max - 1);
        Batch([r] + b.records, b.rest, b.status)
  }

  /** The whole area. */
  function ReadAll(s: seq<Byte>): (seq<Record>, Ending)
    decreases |s|
  {
    match ReadOne(s)
    case Stopped(why) => ([], why)
    case Got(r, rest) => var (rs, why) := ReadAll(rest); ([r] + rs, why)
  }

  /** Reading in batches of any size is reading the whole area. */
  lemma {:induction false} BatchesAreWhole(s: seq<Byte>, max: nat)
    ensures var b := ReadUpTo(s, max);
            if b.status == Readable
            then |b.records| == max && ReadAll(s) == (b.records + ReadAll(b.rest).0, ReadAll(b.rest).1)
            else ReadAll(s) == (b.records, b.status)
    decreases max
  {
    if max == 0 {
      assert [] + ReadAll(s).0 == ReadAll(s).0;
    } else if ReadOne(s).Got? {
      var Got(r, rest) := ReadOne(s);
      BatchesAreWhole(rest, max - 1);
      var b := ReadUpTo(rest, max - 1);
      assert [r] + (b.records + ReadAll(b.rest).0) == [r] + b.records + ReadAll(b.rest).0;
    }
  }

  lemma HeaderParts(r: Record)
    requires Fits(r)
    ensures var h := HeaderOf(r);
            && h[..4] == Le(4, |r.data|) && h[4] == r.direction && h[5] == r.flags && h[6..8] == Le(2, 0)
            && h[8..12] == Le(4, r.sequence) && h[12..16] == Le(4, r.conn) && h[16..24] == Le(8, Unsigned(r.at))
  {
    hide Le;
  }

  /** A record written is the record read, whatever follows it. */
  lemma RecordReadsBack(r: Record, more: seq<Byte>)
    requires Writable(r)
    ensures ReadOne(Encode(r) + more) == Got(r, more)
  {
    hide Le, UnLe, Power, HeaderOf;
    HeaderParts(r);
    Powers();
    LeReadsBack(4, |r.data|);
    LeReadsBack(4, r.sequence);
    LeReadsBack(4, r.conn);
    LeReadsBack(8, Unsigned(r.at));
    var h, s := HeaderOf(r), Encode(r) + more;
    assert s[..4] == h[..4] && s[8..12] == h[8..12] && s[12..16] == h[12..16] && s[16..24] == h[16..24];
    assert s[4] == h[4] && s[5] == h[5];
    assert s[HEADER..HEADER + |r.data|] == r.data && s[HEADER + |r.data|..] == more;
  }

  /** Every list of chunks is read back whole, and the end is a clean one. */
  lemma {:induction false} AllReadBack(rs: seq<Record>)
    requires AllWritable(rs)
    ensures ReadAll(EncodeAll(rs)) == (rs, AtEnd)
    decreases |rs|
  {
    hide ReadOne, Encode;
    if rs == [] {
      assert ReadOne([]) == Stopped(AtEnd) by { EmptyIsEnd(); }
    } else {
      RecordReadsBack(rs[0], EncodeAll(rs[1..]));
      AllReadBack(rs[1..]);
      assert [rs[0]] + rs[1..] == rs;
    }
  }

  lemma EmptyIsEnd()
    ensures ReadOne([]) == Stopped(AtEnd)
  {
  }

  /** A record of which something is missing is not read, and the reader says so. */
  lemma {:induction false} LeWritesBack(s: seq<Byte>)
    ensures UnLe(s) < Power(|s|) && Le(|s|, UnLe(s)) == s
  {
    if s != [] {
      LeWritesBack(s[1..]);
      assert UnLe(s) % 256 == s[0] && UnLe(s) / 256 == UnLe(s[1..]);
      assert s == [s[0]] + s[1..];
    }
  }

  /** The length a record claims: its first four octets, least significant first. */
  function Claimed(s: seq<Byte>): int
    requires |s| >= 4
  {
    var a: int, b: int, c: int, d: int := s[0], s[1], s[2], s[3];
    a + 256 * b + 65536 * c + 16777216 * d
  }

  lemma LengthIs(s: seq<Byte>)
    requires |s| >= 4
    ensures UnLe(s[..4]) == Claimed(s)
  {
    assert s[..4][1..] == s[1..4] && s[1..4][1..] == s[2..4] && s[2..4][1..] == s[3..4] && s[3..4][1..] == [];
    assert UnLe(s[3..4]) == s[3] + 256 * UnLe([]);
    assert UnLe(s[2..4]) == s[2] + 256 * UnLe(s[3..4]);
    assert UnLe(s[1..4]) == s[1] + 256 * UnLe(s[2..4]);
    assert UnLe(s[..4]) == s[0] + 256 * UnLe(s[1..4]);
  }

  /** Where the fields of a header stand. */
  lemma HeaderIs(s: seq<Byte>, r: Record)
    requires |s| >= HEADER && |r.data| == UnLe(s[..4]) && r.direction == s[4] && r.flags == s[5]
    requires r.sequence == UnLe(s[8..12]) && r.conn == UnLe(s[12..16]) && r.at == Signed(UnLe(s[16..24]))
    ensures Fits(r) || |r.data| >= 0x1_0000
    ensures Fits(r) ==> HeaderOf(r) == s[..6] + [0, 0] + s[8..24]
  {
    hide Le, UnLe, Power;
    Powers();
    LeWritesBack(s[..4]);
    LeWritesBack(s[8..12]);
    LeWritesBack(s[12..16]);
    LeWritesBack(s[16..24]);
    assert Le(2, 0) == [0, 0] by { NoOctets(); }
    if Fits(r) {
      assert s[..4] + [s[4], s[5]] + [0, 0] + s[8..12] + s[12..16] + s[16..24] == s[..6] + [0, 0] + s[8..24];
    }
  }

  lemma NoOctets()
    ensures Le(2, 0) == [0, 0]
  {
    assert Le(1, 0) == [0] + Le(0, 0);
    assert Le(2, 0) == [0] + Le(1, 0);
  }

  /**
   * What the reader makes of any octets: nothing is the clean end; a record that claims more than 512
   * is refused; one that is not all there is cut short; and what is read is what writing it gives,
   * but for two octets of the header that say nothing.
   */
  lemma ReadExactly(s: seq<Byte>)
    ensures ReadOne(s) == Stopped(AtEnd) <==> s == []
    ensures ReadOne(s) == Stopped(Corrupt) <==> |s| >= 24 && Claimed(s) > 512
    ensures ReadOne(s) == Stopped(CutShort) <==>
              s != [] && (|s| < 24 || |s| < 24 + Claimed(s) <= 536)
    ensures ReadOne(s).Got? ==>
              && Writable(ReadOne(s).record) && |s| >= 24
              && s[..6] + [0, 0] + s[8..] == Encode(ReadOne(s).record) + ReadOne(s).rest
  {
    hide Le, UnLe, Power, HeaderOf, Fits;
    if |s| >= HEADER {
      LengthIs(s);
      if ReadOne(s).Got? {
        var r, rest := ReadOne(s).record, ReadOne(s).rest;
        HeaderIs(s, r);
        assert s[8..] == s[8..24] + r.data + rest;
        assert s[..6] + [0, 0] + (s[8..24] + r.data + rest) == (s[..6] + [0, 0] + s[8..24]) + r.data + rest;
      }
    }
  }

  lemma PartialRecord(r: Record, k: nat)
    requires Writable(r) && k < HEADER + |r.data|
    ensures ReadOne(Encode(r)[..k]) == Stopped(if k == 0 then AtEnd else CutShort)
  {
    hide Le, UnLe, Power, HeaderOf;
    if k >= HEADER {
      HeaderParts(r);
      Powers();
      LeReadsBack(4, |r.data|);
      var s := Encode(r)[..k];
      assert s[..4] == HeaderOf(r)[..4];
    }
  }

  /** How many of `rs` lie wholly within the first `k` octets of their encoding. */
  function Complete(rs: seq<Record>, k: nat): (n: nat)
    requires AllWritable(rs)
    ensures n <= |rs|
  {
    if rs == [] || k < HEADER + |rs[0].data| then 0 else 1 + Complete(rs[1..], k - (HEADER + |rs[0].data|))
  }

  /**
   * A file cut anywhere gives exactly the records complete in it, with the clean end exactly if
   * the cut is between records.
   */
  lemma {:induction false} AnyPrefixReads(rs: seq<Record>, k: nat)
    requires AllWritable(rs) && k <= |EncodeAll(rs)|
    ensures var n := Complete(rs, k);
            && |EncodeAll(rs[..n])| <= k
            && ReadAll(EncodeAll(rs)[..k]) == (rs[..n], if k == |EncodeAll(rs[..n])| then AtEnd else CutShort)
    decreases |rs|
  {
    hide ReadOne, Encode;
    var s := EncodeAll(rs)[..k];
    if rs == [] {
      EmptyIsEnd();
    } else {
      var r := rs[0];
      var size := HEADER + |r.data|;
      assert |Encode(r)| == size;
      if k < size {
        assert s == Encode(r)[..k];
        PartialRecord(r, k);
        assert rs[..0] == [];
      } else {
        var n := Complete(rs[1..], k - size);
        assert s == Encode(r) + EncodeAll(rs[1..])[..k - size];
        RecordReadsBack(r, EncodeAll(rs[1..])[..k - size]);
        AnyPrefixReads(rs[1..], k - size);
        assert rs[..n + 1] == [r] + rs[1..][..n];
        assert rs[..n + 1][1..] == rs[1..][..n];
      }
    }
  }

  lemma NothingEncoded()
    ensures EncodeAll([]) == []
  {
  }

  lemma {:induction false} EncodeAllSnoc(rs: seq<Record>, i: nat)
    requires AllWritable(rs) && i < |rs|
    ensures EncodeAll(rs[..i + 1]) == EncodeAll(rs[..i]) + Encode(rs[i])
    decreases i
  {
    hide Encode;
    assert rs[..i + 1][0] == rs[0] && rs[..i + 1][1..] == rs[1..][..i];
    if i == 0 {
      NothingEncoded();
      assert rs[..0] == [] && rs[1..][..0] == [];
      assert Encode(rs[0]) + [] == [] + Encode(rs[0]);
    } else {
      EncodeAllSnoc(rs[1..], i - 1);
      assert rs[..i][1..] == rs[1..][..i - 1];
    }
  }

  // --------------------------------------------------------------------------------------
  // The recorder
  // --------------------------------------------------------------------------------------

  datatype WriteStatus = Written | Refused

  class Recorder {
    var file: seq<Byte>
    var chunks: nat
    var bytes: nat

    constructor ()
      ensures file == [] && chunks == 0 && bytes == 0
    {
      file, chunks, bytes := [], 0, 0;
    }

    /** All of a batch or none of it. */
    method Write(batch: seq<Record>) returns (status: WriteStatus)
      requires forall i :: 0 <= i < |batch| ==> Fits(batch[i])
      modifies this
      ensures status == Written <==> AllWritable(batch)
      ensures status == Written ==>
                && file == old(file) + EncodeAll(batch)
                && chunks == old(chunks) + |batch| && bytes == old(bytes) + |EncodeAll(batch)|
      ensures status == Refused ==> file == old(file) && chunks == old(chunks) && bytes == old(bytes)
    {
      for i := 0 to |batch|
        invariant forall j :: 0 <= j < i ==> Writable(batch[j])
      {
        if |batch[i].data| > PAYLOAD_MAX {
          return Refused;
        }
      }
      WriteAll(batch);
      return Written;
    }

    method WriteAll(batch: seq<Record>)
      requires AllWritable(batch)
      modifies this
      ensures file == old(file) + EncodeAll(batch)
      ensures chunks == old(chunks) + |batch| && bytes == old(bytes) + |EncodeAll(batch)|
    {
      hide Encode, EncodeAll;
      assert batch[..0] == [] && EncodeAll([]) == [] by { NothingEncoded(); }
      assert file + [] == file;
      for i := 0 to |batch|
        invariant file == old(file) + EncodeAll(batch[..i])
        invariant chunks == old(chunks) + i && bytes == old(bytes) + |EncodeAll(batch[..i])|
      {
        var record := WriteOne(batch[i]);
        EncodeAllSnoc(batch, i);
        assert old(file) + (EncodeAll(batch[..i]) + record) == old(file) + EncodeAll(batch[..i]) + record;
        file := file + record;
        chunks := chunks + 1;
        bytes := bytes + |record|;
      }
      assert batch[..|batch|] == batch;
    }

    static method WriteOne(r: Record) returns (s: seq<Byte>)
      requires Writable(r)
      ensures s == Encode(r)
    {
      hide Le;
      var head := new Byte[HEADER](_ => 0);
      PutLe(head, 0, 4, |r.data|);
      assert head[..4] == head[0..4];
      head[4] := r.direction;
      head[5] := r.flags;
      assert head[..6] == head[..4] + [head[4], head[5]];
      PutLe(head, 6, 2, 0);
      assert head[..8] == head[..6] + head[6..8];
      PutLe(head, 8, 4, r.sequence);
      assert head[..12] == head[..8] + head[8..12];
      PutLe(head, 12, 4, r.conn);
      assert head[..16] == head[..12] + head[12..16];
      PutLe(head, 16, 8, Unsigned(r.at));
      assert head[..] == head[..16] + head[16..24];
      s := head[..] + r.data;
    }

    /** The value's octets, least significant first, at `off`. */
    static method PutLe(p: array<Byte>, off: nat, n: nat, v: nat)
      requires off + n <= p.Length
      modifies p
      ensures p[off..off + n] == Le(n, v)
      ensures p[..off] == old(p[..off]) && p[off + n..] == old(p[off + n..])
    {
      var u := v;
      for i := 0 to n
        invariant p[..off] == old(p[..off]) && p[off + n..] == old(p[off + n..])
        invariant p[off..off + i] + Le(n - i, u) == Le(n, v)
      {
        ghost var done, tail := p[off..off + i], Le(n - i - 1, u / 256);
        assert Le(n - i, u) == [u % 256] + tail;
        p[off + i] := u % 256;
        assert p[off..off + i + 1] == done + [u % 256];
        assert done + ([u % 256] + tail) == done + [u % 256] + tail;
        u := u / 256;
      }
      assert p[off..off + n] + [] == p[off..off + n];
    }
  }

  // --------------------------------------------------------------------------------------
  // The reader
  // --------------------------------------------------------------------------------------

  class Reader {
    const file: seq<Byte>
    var pos: nat
    var status: Ending
    var chunks: nat

    ghost predicate Valid()
      reads this
    {
      pos <= |file|
    }

    ghost function Rest(): seq<Byte>
      requires Valid()
      reads this
    {
      file[pos..]
    }

    constructor (file: seq<Byte>)
      ensures Valid() && Rest() == file && this.file == file && status == Readable && chunks == 0
    {
      this.file := file;
      pos, status, chunks := 0, Readable, 0;
    }

    /** Once stopped a reader stays stopped, for the reason it stopped. */
    method Read(max: nat) returns (out: seq<Record>)
      requires Valid()
      modifies this
      ensures Valid() && chunks == old(chunks) + |out|
      ensures old(status) != Readable ==> out == [] && status == old(status) && Rest() == old(Rest())
      ensures old(status) == Readable ==> Batch(out, Rest(), status) == ReadUpTo(old(Rest()), max)
    {
      hide ReadOne;
      out := [];
      if status != Readable {
        return;
      }
      var more := true;
      assert forall b: Batch :: Batch([] + b.records, b.rest, b.status) == b by {
        forall b: Batch
          ensures Batch([] + b.records, b.rest, b.status) == b
        {
          assert [] + b.records == b.records;
        }
      }
      while more && |out| < max
        invariant Valid() && |out| <= max && chunks == old(chunks) + |out|
        invariant more ==> status == Readable
        invariant more ==>
                    var b := ReadUpTo(Rest(), max - |out|);
                    Batch(out + b.records, b.rest, b.status) == ReadUpTo(old(Rest()), max)
        invariant !more ==> Batch(out, Rest(), status) == ReadUpTo(old(Rest()), max)
        decreases more, max - |out|
      {
        ghost var b := ReadUpTo(Rest(), max - |out|);
        var next := ReadNext();
        match next {
          case Stopped(why) =>
            status := why;
            more := false;
            assert out + [] == out;
          case Got(r, _) =>
            ghost var c := ReadUpTo(Rest(), max - |out| - 1);
            assert out + ([r] + c.records) == out + [r] + c.records;
            out := out + [r];
            chunks := chunks + 1;
        }
      }
      if more {
        assert out + [] == out;
      }
    }

    method ReadNext() returns (next: Next)
      requires Valid()
      modifies this`pos
      ensures Valid() && next == ReadOne(old(Rest()))
      ensures Rest() == if next.Got? then next.rest else old(Rest())
    {
      hide UnLe;
      var left := |file| - pos;
      ghost var s := Rest();
      if left == 0 {
        return Stopped(AtEnd);
      }
      if left < HEADER {
        return Stopped(CutShort);
      }
      var head := file[pos..pos + HEADER];
      assert head == s[..HEADER];
      var length := GetLe(head[..4]);
      assert head[..4] == s[..4];
      if length > PAYLOAD_MAX {
        return Stopped(Corrupt);
      }
      if left < HEADER + length {
        return Stopped(CutShort);
      }
      var sequence := GetLe(head[8..12]);
      var conn := GetLe(head[12..16]);
      var time := GetLe(head[16..24]);
      assert head[8..12] == s[8..12] && head[12..16] == s[12..16] && head[16..24] == s[16..24];
      var data := file[pos + HEADER..pos + HEADER + length];
      assert data == s[HEADER..HEADER + length];
      pos := pos + HEADER + length;
      assert Rest() == s[HEADER + length..];
      return Got(Record(head[4], head[5], sequence, conn, Signed(time), data), file[pos..]);
    }

    /** Most significant octet first, shifting as it goes. */
    static method GetLe(s: seq<Byte>) returns (v: nat)
      ensures v == UnLe(s)
    {
      v := 0;
      for i := |s| downto 0
        invariant v == UnLe(s[i..])
      {
        assert s[i..][1..] == s[i + 1..];
        v := v * 256 + s[i];
      }
      assert s[0..] == s;
    }
  }
}
