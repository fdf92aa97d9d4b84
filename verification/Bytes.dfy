/** Octets, the ASCII characters the protocol cares about, and C strings. */
module Bytes {

  type Byte = b: int | 0 <= b < 256

  const NUL: Byte := 0
  const BACKSPACE: Byte := 8
  const TAB: Byte := 9
  const LF: Byte := 10
  const FF: Byte := 12
  const CR: Byte := 13
  const SPACE: Byte := 32
  const QUOTE: Byte := 34
  const PLUS: Byte := 43
  const COMMA: Byte := 44
  const MINUS: Byte := 45
  const DOT: Byte := 46
  const SLASH: Byte := 47
  const ZERO: Byte := 48
  const NINE: Byte := 57
  const COLON: Byte := 58
  const UPPER_A: Byte := 65
  const UPPER_E: Byte := 69
  const UPPER_F: Byte := 70
  const UPPER_Z: Byte := 90
  const LBRACKET: Byte := 91
  const BACKSLASH: Byte := 92
  const RBRACKET: Byte := 93
  const LOWER_A: Byte := 97
  const LOWER_B: Byte := 98
  const LOWER_E: Byte := 101
  const LOWER_F: Byte := 102
  const LOWER_N: Byte := 110
  const LOWER_R: Byte := 114
  const LOWER_T: Byte := 116
  const LOWER_U: Byte := 117
  const LBRACE: Byte := 123
  const RBRACE: Byte := 125

  datatype Option<+T> = None | Some(value: T)

  predicate IsWs(b: Byte) {
    b == SPACE || b == TAB || b == LF || b == CR
  }

  predicate AllWs(s: seq<Byte>) {
    forall i :: 0 <= i < |s| ==> IsWs(s[i])
  }

  function Lower(b: Byte): Byte {
    if UPPER_A <= b <= UPPER_Z then b + 32 else b
  }

  /** Equality that ignores the case of ASCII letters and of nothing else. */
  predicate CiEqual(a: seq<Byte>, b: seq<Byte>) {
    |a| == |b| && forall i :: 0 <= i < |a| ==> Lower(a[i]) == Lower(b[i])
  }

  /** The octets of an ASCII string literal. */
  function Ascii(s: string): (r: seq<Byte>)
    ensures |r| == |s|
    ensures forall i :: 0 <= i < |s| && 0 < s[i] as int < 256 ==> r[i] == s[i] as int
    ensures NUL !in r
  {
    seq(|s|, i requires 0 <= i < |s| => if 0 < s[i] as int < 256 then s[i] as int else 63)
  }

  /** What a NUL-terminated array holds when it is read as a C string. */
  function CStr(s: seq<Byte>): (r: seq<Byte>)
    ensures NUL !in r
    ensures r <= s
    ensures NUL !in s ==> r == s
    ensures |r| < |s| ==> s[|r|] == NUL
  {
    if s == [] || s[0] == NUL then [] else [s[0]] + CStr(s[1..])
  }

  /** What survives of `s` in a C array of `size` octets: all but the terminator's place. */
  function Field(size: nat, s: seq<Byte>): (r: seq<Byte>)
    requires size > 0
    ensures r <= s
    ensures |r| < size
    ensures |s| < size ==> r == s
    ensures |s| >= size ==> |r| == size - 1
  {
    if |s| < size then s else s[..size - 1]
  }

  /** Reading up to the first NUL is not affected by what lies behind one. */
  lemma CStrStops(s: seq<Byte>, t: seq<Byte>)
    ensures CStr(s + [NUL] + t) == CStr(s)
  {
    if s == [] {
      assert s + [NUL] + t == [NUL] + t;
    } else {
      assert (s + [NUL] + t)[1..] == s[1..] + [NUL] + t;
      CStrStops(s[1..], t);
    }
  }
}
