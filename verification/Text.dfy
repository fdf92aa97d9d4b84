/** What a JSON string literal means: escapes, surrogate pairs and UTF-8 (RFC 8259 section 7, RFC 3629). */
module Text {
  import opened Bytes
  import opened Json

  function HexValue(b: Byte): (r: nat)
    requires IsHex(b)
    ensures r < 16
  {
    if IsDigit(b) then b - ZERO
    else if LOWER_A <= b then b - LOWER_A + 10
    else b - UPPER_A + 10
  }

  function Hex4(h: seq<Byte>): (r: nat)
    requires |h| == 4 && forall i :: 0 <= i < 4 ==> IsHex(h[i])
    ensures r < 0x10000
  {
    ((HexValue(h[0]) * 16 + HexValue(h[1])) * 16 + HexValue(h[2])) * 16 + HexValue(h[3])
  }

  predicate IsHigh(cp: nat) {
    0xd800 <= cp <= 0xdbff
  }

  predicate IsLow(cp: nat) {
    0xdc00 <= cp <= 0xdfff
  }

  function Combine(high: nat, low: nat): (r: nat)
    requires IsHigh(high) && IsLow(low)
    ensures 0x10000 <= r < 0x110000
  {
    0x10000 + (high - 0xd800) * 0x400 + (low - 0xdc00)
  }

  /** Shifting right by 6, 12 and 18 is dividing by 64 once, twice and three times. */
  function Utf8(cp: nat): seq<Byte>
    requires cp < 0x110000
  {
    var q1: nat := cp / 64;
    var q2: nat := q1 / 64;
    var q3: nat := q2 / 64;
    if cp < 0x80 then [cp]
    else if cp < 0x800 then [0xc0 + q1, 0x80 + cp % 64]
    else if cp < 0x10000 then [0xe0 + q2, 0x80 + q1 % 64, 0x80 + cp % 64]
    else [0xf0 + q3, 0x80 + q2 % 64, 0x80 + q1 % 64, 0x80 + cp % 64]
  }

  /** The octet that a backslash and `c` stand for. */
  function Unescape(c: Byte): Option<Byte> {
    if c == QUOTE || c == BACKSLASH || c == SLASH then Some(c)
    else if c == LOWER_B then Some(BACKSPACE)
    else if c == LOWER_F then Some(FF)
    else if c == LOWER_N then Some(LF)
    else if c == LOWER_R then Some(CR)
    else if c == LOWER_T then Some(TAB)
    else None
  }

  predicate IsPair(items: seq<Item>)
    requires ValidItems(items)
  {
    && |items| >= 2 && items[0].Unicode? && items[1].Unicode?
    && IsHigh(Hex4(items[0].hex)) && IsLow(Hex4(items[1].hex))
  }

  /** The octets a string literal stands for. */
  function Meaning(items: seq<Item>): seq<Byte>
    requires ValidItems(items)
  {
    if items == [] then []
    else if IsPair(items) then
      Utf8(Combine(Hex4(items[0].hex), Hex4(items[1].hex))) + Meaning(items[2..])
    else
      match items[0]
      case Plain(b) => [b] + Meaning(items[1..])
      case Escape(c) => [Unescape(c).value] + Meaning(items[1..])
      case Unicode(hex) => Utf8(Hex4(hex)) + Meaning(items[1..])
  }

  /** A string spelled without escapes. */
  function PlainItems(s: seq<Byte>): (items: seq<Item>)
    ensures |items| == |s| && forall i :: 0 <= i < |s| ==> items[i] == Plain(s[i])
  {
    seq(|s|, i requires 0 <= i < |s| => Plain(s[i]))
  }

  lemma {:induction false} PlainItemsPrint(s: seq<Byte>)
    ensures PrintItems(PlainItems(s)) == s
  {
    if s != [] {
      assert PlainItems(s)[1..] == PlainItems(s[1..]);
      PlainItemsPrint(s[1..]);
    }
  }

  lemma {:induction false} PlainItemsMean(s: seq<Byte>)
    requires forall i :: 0 <= i < |s| ==> s[i] != QUOTE && s[i] != BACKSLASH
    ensures ValidItems(PlainItems(s)) && Meaning(PlainItems(s)) == s
  {
    if s != [] {
      assert PlainItems(s)[1..] == PlainItems(s[1..]);
      PlainItemsMean(s[1..]);
    }
  }

  // --------------------------------------------------------------------------------------
  // Unicode scalar values, escaped
  // --------------------------------------------------------------------------------------

  predicate IsScalar(cp: nat) {
    cp < 0xd800 || 0xe000 <= cp < 0x110000
  }

  function HexDigit(d: nat): (r: Byte)
    requires d < 16
    ensures IsHex(r) && HexValue(r) == d
  {
    if d < 10 then ZERO + d else LOWER_A + (d - 10)
  }

  function ToHex4(v: nat): (h: seq<Byte>)
    requires v < 0x10000
    ensures |h| == 4 && forall i :: 0 <= i < 4 ==> IsHex(h[i])
    ensures Hex4(h) == v
  {
    var q1: nat := v / 16;
    var q2: nat := q1 / 16;
    var q3: nat := q2 / 16;
    [HexDigit(q3), HexDigit(q2 % 16), HexDigit(q1 % 16), HexDigit(v % 16)]
  }

  /** One scalar value as `\u` escapes: a surrogate pair above the basic plane. */
  function EscapeScalar(cp: nat): (items: seq<Item>)
    requires IsScalar(cp)
    ensures ValidItems(items)
  {
    if cp < 0x10000 then [Unicode(ToHex4(cp))]
    else [Unicode(ToHex4(0xd800 + (cp - 0x10000) / 0x400)), Unicode(ToHex4(0xdc00 + (cp - 0x10000) % 0x400))]
  }

  function EscapeScalars(cps: seq<nat>): (items: seq<Item>)
    requires forall i :: 0 <= i < |cps| ==> IsScalar(cps[i])
    ensures ValidItems(items)
  {
    if cps == [] then [] else EscapeScalar(cps[0]) + EscapeScalars(cps[1..])
  }

  function Utf8Text(cps: seq<nat>): seq<Byte>
    requires forall i :: 0 <= i < |cps| ==> IsScalar(cps[i])
  {
    if cps == [] then [] else assert IsScalar(cps[0]); Utf8(cps[0]) + Utf8Text(cps[1..])
  }

  lemma EscapedScalarMeans(cp: nat, rest: seq<Item>)
    requires IsScalar(cp) && ValidItems(rest)
    ensures ValidItems(EscapeScalar(cp) + rest)
    ensures Meaning(EscapeScalar(cp) + rest) == Utf8(cp) + Meaning(rest)
  {
    hide Utf8, ToHex4;
    var items := EscapeScalar(cp) + rest;
    if cp < 0x10000 {
      assert items[0] == Unicode(ToHex4(cp)) && items[1..] == rest;
      assert !IsHigh(cp);
    } else {
      var v := cp - 0x10000;
      var high, low := 0xd800 + v / 0x400, 0xdc00 + v % 0x400;
      assert items[0] == Unicode(ToHex4(high)) && items[1] == Unicode(ToHex4(low)) && items[2..] == rest;
      assert IsHigh(high) && IsLow(low) && Combine(high, low) == cp;
    }
  }

  /** Reading escaped scalar values yields their UTF-8 encoding. */
  lemma {:induction false} EscapedScalarsMean(cps: seq<nat>)
    requires forall i :: 0 <= i < |cps| ==> IsScalar(cps[i])
    ensures Meaning(EscapeScalars(cps)) == Utf8Text(cps)
  {
    if cps != [] {
      EscapedScalarMeans(cps[0], EscapeScalars(cps[1..]));
      EscapedScalarsMean(cps[1..]);
    }
  }

  // --------------------------------------------------------------------------------------
  // The encoding is RFC 3629's: a decoder written from its table reads it back
  // --------------------------------------------------------------------------------------

  predicate IsTail(b: Byte) {
    0x80 <= b < 0xc0
  }

  /** The first character of `s` by the table in section 3 of RFC 3629, and its length in octets. */
  function Utf8Head(s: seq<Byte>): Option<(int, nat)> {
    var a: int := if |s| >= 1 then s[0] else 0;
    var b: int := if |s| >= 2 && IsTail(s[1]) then s[1] - 0x80 else -1;
    var c: int := if |s| >= 3 && IsTail(s[2]) then s[2] - 0x80 else -1;
    var d: int := if |s| >= 4 && IsTail(s[3]) then s[3] - 0x80 else -1;
    if s == [] then None
    else if a < 0x80 then Some((a, 1))
    else if 0xc2 <= a < 0xe0 && b >= 0 then Some(((a - 0xc0) * 0x40 + b, 2))
    else if 0xe0 <= a < 0xf0 && b >= 0 && c >= 0 && (a == 0xe0 ==> b >= 0x20) && (a == 0xed ==> b < 0x20) then
      Some((((a - 0xe0) * 0x40 + b) * 0x40 + c, 3))
    else if 0xf0 <= a < 0xf5 && b >= 0 && c >= 0 && d >= 0 && (a == 0xf0 ==> b >= 0x10) && (a == 0xf4 ==> b < 0x10) then
      Some(((((a - 0xf0) * 0x40 + b) * 0x40 + c) * 0x40 + d, 4))
    else None
  }

  lemma Utf8ReadsBack(cp: nat, rest: seq<Byte>)
    requires IsScalar(cp)
    ensures Utf8Head(Utf8(cp) + rest) == Some((cp, |Utf8(cp)|))
  {
    var u, s := Utf8(cp), Utf8(cp) + rest;
    assert s[0] == u[0];
    if cp >= 0x80 {
      assert s[1] == u[1];
    }
    if cp >= 0x800 {
      assert s[2] == u[2];
    }
    if cp >= 0x10000 {
      assert s[3] == u[3];
    }
  }
}
