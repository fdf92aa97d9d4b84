/**
 * C doubles, as far as the codec looks at them. The C library's `strtod` and `printf("%.*g")`
 * are parameters; `Sound` is all that is ever assumed of them.
 */
module Numbers {
  import opened Bytes
  import opened Json

  datatype Double = NaN | PosInf | NegInf | Finite(v: real)

  /** What `strtod` answers: the value, and how many octets of the text it used. */
  datatype Parsed = Parsed(value: Double, used: nat)

  datatype NumLib = NumLib(
    strtod: seq<Byte> -> Parsed,
    printg: (nat, real) -> seq<Byte>,
    isDouble: real -> bool)

  const INT64_MIN: int := -0x8000_0000_0000_0000
  const INT64_MAX: int := 0x7fff_ffff_ffff_ffff
  const INT32_MIN: int := -0x8000_0000
  const INT32_MAX: int := 0x7fff_ffff

  /** Rounding toward zero, as a cast to an integer type does. */
  function Trunc(r: real): int {
    if r >= 0.0 then r.Floor else -(-r).Floor
  }

  function ClampInt64(d: Double): int {
    match d
    case NaN => 0
    case NegInf => INT64_MIN
    case PosInf => INT64_MAX
    case Finite(v) =>
      if v <= INT64_MIN as real then INT64_MIN
      else if v >= INT64_MAX as real + 1.0 then INT64_MAX
      else Trunc(v)
  }

  /** A double as a 64-bit integer: cut toward zero, and to the range; no number at all is zero. */
  lemma ClampMeans(d: Double)
    ensures var n := ClampInt64(d);
            && -0x8000_0000_0000_0000 <= n <= 0x7fff_ffff_ffff_ffff
            && (d == NaN ==> n == 0)
            && (d == PosInf || (d.Finite? && d.v >= 9223372036854775808.0) ==> n == 0x7fff_ffff_ffff_ffff)
            && (d == NegInf || (d.Finite? && d.v <= -9223372036854775808.0) ==> n == -0x8000_0000_0000_0000)
            && (d.Finite? && 0.0 <= d.v < 9223372036854775808.0 ==> n as real <= d.v < n as real + 1.0)
            && (d.Finite? && -9223372036854775808.0 < d.v <= 0.0 ==> n as real - 1.0 < d.v <= n as real)
  {
    if d.Finite? {
      TruncMeans(d.v);
    }
  }

  lemma TruncMeans(r: real)
    ensures r >= 0.0 ==> Trunc(r) as real <= r < Trunc(r) as real + 1.0
    ensures r <= 0.0 ==> Trunc(r) as real - 1.0 < r <= Trunc(r) as real
  {
    assert r.Floor as real <= r < r.Floor as real + 1.0;
    assert (-r).Floor as real <= -r < (-r).Floor as real + 1.0;
  }

  /** `v == trunc(v)`, which no NaN satisfies and every infinity does. */
  predicate IsIntegral(d: Double) {
    match d
    case NaN => false
    case PosInf => true
    case NegInf => true
    case Finite(v) => v == Trunc(v) as real
  }

  const ZERO_DOUBLE: Double := Finite(0.0)

  // --------------------------------------------------------------------------------------
  // Printing
  // --------------------------------------------------------------------------------------

  /** A token `strtod` takes whole, short enough for the reader's bounded copy. */
  predicate Readable(lib: NumLib, text: seq<Byte>) {
    ValidNumber(text) && |text| < 64 && lib.strtod(text).used == |text|
  }

  /**
   * The one assumption about the C library: seventeen significant digits read back as the same
   * double, and whatever precision is asked for, the text is a number token of at most 24 octets
   * that `strtod` takes whole. The five response codes are read as the integers they spell.
   */
  ghost predicate Sound(lib: NumLib) {
    && (forall v: real | lib.isDouble(v) :: lib.strtod(lib.printg(17, v)).value == Finite(v))
    && (forall p: nat, v: real | lib.isDouble(v) && 15 <= p <= 17 ::
          Readable(lib, lib.printg(p, v)) && |lib.printg(p, v)| <= 24)
    && lib.strtod([ZERO]) == Parsed(Finite(0.0), 1)
    && (forall code: nat | 100 <= code < 1000 :: lib.strtod(Decimal3(code)) == Parsed(Finite(code as real), 3))
  }

  /** A number of three digits, most significant first. */
  function Decimal3(n: nat): (r: seq<Byte>)
    requires 100 <= n < 1000
    ensures ValidNumber(r)
  {
    [ZERO + n / 100, ZERO + n / 10 % 10, ZERO + n % 10]
  }

  /** The shortest of three precisions that reads back; a zero for what JSON cannot spell. */
  function FormatDouble(lib: NumLib, d: Double): seq<Byte> {
    if !d.Finite? then [ZERO]
    else if lib.strtod(lib.printg(15, d.v)).value == d then lib.printg(15, d.v)
    else if lib.strtod(lib.printg(16, d.v)).value == d then lib.printg(16, d.v)
    else lib.printg(17, d.v)
  }

  predicate Representable(lib: NumLib, d: Double) {
    d.Finite? ==> lib.isDouble(d.v)
  }

  /** A finite double survives being printed and read; anything else comes back as zero. */
  lemma FormatReadsBack(lib: NumLib, d: Double)
    requires Sound(lib) && Representable(lib, d)
    ensures Readable(lib, FormatDouble(lib, d)) && |FormatDouble(lib, d)| <= 24
    ensures lib.strtod(FormatDouble(lib, d)).value == (if d.Finite? then d else ZERO_DOUBLE)
  {
    if d.Finite? {
      assert Readable(lib, lib.printg(15, d.v)) && Readable(lib, lib.printg(16, d.v));
      assert Readable(lib, lib.printg(17, d.v));
    }
  }
}
