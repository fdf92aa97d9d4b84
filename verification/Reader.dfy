/**
 * The bounded JSON cursor reader.
 *
 * Each reading routine is a function from the unread bytes to what it yields and what is left;
 * the class `Cursor` runs the same routine in place over `pos` and is proved to agree.
 */
module Reader {
  import opened Bytes
  import opened Json
  import opened Text
  import opened Numbers

  /** The longest number token accepted, its terminator included. */
  const NUMBER_MAX: nat := 64

  const DEPTH_MAX: nat := 32

  datatype Kind = NoValue | ObjectKind | ArrayKind | StringKind | NumberKind | TrueKind | FalseKind | NullKind

  function SkipWs(s: seq<Byte>): (r: seq<Byte>)
    ensures |r| <= |s|
    ensures r == [] || !IsWs(r[0])
    ensures s != [] && !IsWs(s[0]) ==> r == s
  {
    if s != [] && IsWs(s[0]) then SkipWs(s[1..]) else s
  }

  function KindOf(s: seq<Byte>): Kind {
    var t := SkipWs(s);
    if t == [] then NoValue
    else if t[0] == LBRACE then ObjectKind
    else if t[0] == LBRACKET then ArrayKind
    else if t[0] == QUOTE then StringKind
    else if t[0] == LOWER_T then TrueKind
    else if t[0] == LOWER_F then FalseKind
    else if t[0] == LOWER_N then NullKind
    else if StartsNumber(t[0]) then NumberKind
    else NoValue
  }

  function Accept(s: seq<Byte>, c: Byte): (r: Option<seq<Byte>>)
    ensures r.Some? ==> |r.value| < |s|
  {
    var t := SkipWs(s);
    if t != [] && t[0] == c then Some(t[1..]) else None
  }

  function ReadHex4(s: seq<Byte>): (r: Option<(nat, seq<Byte>)>)
    ensures r.Some? ==> r.value.0 < 0x10000 && |r.value.1| == |s| - 4
  {
    if |s| >= 4 && IsHex(s[0]) && IsHex(s[1]) && IsHex(s[2]) && IsHex(s[3]) then
      Some((Hex4(s[..4]), s[4..]))
    else None
  }

  /** After a high surrogate: the low one, if the next escape is one. */
  function ReadLow(s: seq<Byte>): (r: Option<(nat, seq<Byte>)>)
    ensures r.Some? ==> IsLow(r.value.0) && |r.value.1| < |s|
  {
    if |s| >= 6 && s[0] == BACKSLASH && s[1] == LOWER_U then
      match ReadHex4(s[2..])
      case Some((low, rest)) => if IsLow(low) then Some((low, rest)) else None
      case None => None
    else None
  }

  /** From behind `\u`: one code point, a surrogate pair counting as one. */
  function ReadUnicode(s: seq<Byte>): (r: Option<(nat, seq<Byte>)>)
    ensures r.Some? ==> r.value.0 < 0x110000 && |r.value.1| < |s|
  {
    match ReadHex4(s)
    case None => None
    case Some((cp, t)) =>
      match if IsHigh(cp) then ReadLow(t) else None
      case Some((low, u)) => Some((Combine(cp, low), u))
      case None => Some((cp, t))
  }

  function Push(prefix: seq<Byte>, r: Option<(seq<Byte>, seq<Byte>)>): Option<(seq<Byte>, seq<Byte>)> {
    match r
    case None => None
    case Some((text, rest)) => Some((prefix + text, rest))
  }

  /** From behind the opening quote: the octets the literal stands for, and what follows it. */
  function StringBody(s: seq<Byte>): (r: Option<(seq<Byte>, seq<Byte>)>)
    ensures r.Some? ==> |r.value.1| < |s|
    decreases |s|
  {
    if s == [] then None
    else if s[0] == QUOTE then Some(([], s[1..]))
    else if s[0] != BACKSLASH then Push([s[0]], StringBody(s[1..]))
    else if |s| < 2 then None
    else if s[1] == LOWER_U then
      match ReadUnicode(s[2..])
      case None => None
      case Some((cp, t)) => Push(Utf8(cp), StringBody(t))
    else
      match Unescape(s[1])
      case None => None
      case Some(b) => Push([b], StringBody(s[2..]))
  }

  function ReadString(s: seq<Byte>): (r: Option<(seq<Byte>, seq<Byte>)>)
    ensures r.Some? ==> |r.value.1| < |s|
  {
    var t := SkipWs(s);
    if t == [] || t[0] != QUOTE then None else StringBody(t[1..])
  }

  function TokenLength(s: seq<Byte>): (n: nat)
    ensures n <= |s|
  {
    if s != [] && IsNumberByte(s[0]) then 1 + TokenLength(s[1..]) else 0
  }

  function ReadNumber(lib: NumLib, s: seq<Byte>): (r: Option<(Double, seq<Byte>)>)
    ensures r.Some? ==> |r.value.1| < |s|
  {
    var t := SkipWs(s);
    var n := TokenLength(t);
    if n == 0 || n >= NUMBER_MAX || lib.strtod(t[..n]).used != n then None
    else Some((lib.strtod(t[..n]).value, t[n..]))
  }

  function Word(kind: Kind): Option<seq<Byte>> {
    match kind
    case TrueKind => Some(TRUE_TEXT)
    case FalseKind => Some(FALSE_TEXT)
    case NullKind => Some(NULL_TEXT)
    case _ => None
  }

  function ReadLiteral(s: seq<Byte>, kind: Kind): (r: Option<seq<Byte>>)
    ensures r.Some? ==> |r.value| < |s|
  {
    var t := SkipWs(s);
    match Word(kind)
    case None => None
    case Some(word) => if word <= t then Some(t[|word|..]) else None
  }

  /** Where the skipper of a nested structure stands. */
  datatype Skipper = Skipper(depth: nat, inString: bool, escape: bool)

  datatype SkipStep = SkipOn(next: Skipper) | SkipDone | SkipFail

  function SkipByte(k: Skipper, c: Byte): SkipStep {
    if k.inString then
      if k.escape then SkipOn(k.(escape := false))
      else if c == BACKSLASH then SkipOn(k.(escape := true))
      else if c == QUOTE then SkipOn(k.(inString := false))
      else SkipOn(k)
    else if c == QUOTE then SkipOn(k.(inString := true))
    else if c == LBRACE || c == LBRACKET then
      if k.depth + 1 > DEPTH_MAX then SkipFail else SkipOn(k.(depth := k.depth + 1))
    else if c == RBRACE || c == RBRACKET then
      if k.depth == 0 then SkipFail
      else if k.depth == 1 then SkipDone
      else SkipOn(k.(depth := k.depth - 1))
    else SkipOn(k)
  }

  function SkipFrom(s: seq<Byte>, k: Skipper): (r: Option<seq<Byte>>)
    ensures r.Some? ==> |r.value| < |s|
    decreases s
  {
    if s == [] then None
    else
      match SkipByte(k, s[0])
      case SkipFail => None
      case SkipDone => Some(s[1..])
      case SkipOn(next) => SkipFrom(s[1..], next)
  }

  const SKIP_START: Skipper := Skipper(0, false, false)

  function SkipValue(lib: NumLib, s: seq<Byte>): (r: Option<seq<Byte>>)
    ensures r.Some? ==> |r.value| < |s|
  {
    match KindOf(s)
    case ObjectKind => SkipFrom(SkipWs(s), SKIP_START)
    case ArrayKind => SkipFrom(SkipWs(s), SKIP_START)
    case StringKind => (match ReadString(s) case Some((_, rest)) => Some(rest) case None => None)
    case NumberKind => (match ReadNumber(lib, s) case Some((_, rest)) => Some(rest) case None => None)
    case NoValue => None
    case kind => ReadLiteral(s, kind)
  }

  /** What stands next in an object: a key, the colon behind it read as well; the closing brace; or neither. */
  datatype Next = End(rest: seq<Byte>) | Named(key: seq<Byte>, rest: seq<Byte>) | BadMember

  const KEY_MAX: nat := 64

  function NextMember(s: seq<Byte>, first: bool): (r: Next)
    ensures !r.BadMember? ==> |r.rest| < |s|
  {
    match Accept(s, RBRACE)
    case Some(rest) => End(rest)
    case None =>
      match if first then Some(s) else Accept(s, COMMA)
      case None => BadMember
      case Some(t) =>
        match ReadString(t)
        case None => BadMember
        case Some((key, u)) =>
          match Accept(u, COLON)
          case None => BadMember
          case Some(rest) => Named(CStr(Field(KEY_MAX, key)), rest)
  }

  // --------------------------------------------------------------------------------------
  // The cursor
  // --------------------------------------------------------------------------------------

  /** A C array of `out.Length` octets into which the octets `acc` have been put so far. */
  ghost predicate Stored(out: array?<Byte>, used: nat, truncated: bool, acc: seq<Byte>)
    reads out
  {
    if out == null || out.Length == 0 then used == 0 && !truncated
    else
      && used == |Field(out.Length, acc)|
      && out[..used] == Field(out.Length, acc)
      && (truncated <==> |acc| >= out.Length)
  }

  /** `c` stored behind the `used` octets before it while a terminator still fits; otherwise the text counts as cut. */
  method Put(out: array?<Byte>, used: nat, truncated: bool, c: Byte, ghost acc: seq<Byte>)
    returns (used': nat, truncated': bool)
    requires Stored(out, used, truncated, acc)
    modifies out
    ensures Stored(out, used', truncated', acc + [c])
  {
    used', truncated' := used, truncated;
    if out == null || out.Length == 0 {
      return;
    }
    if used + 1 < out.Length {
      out[used] := c;
      used' := used + 1;
      assert out[..used'] == out[..used] + [c];
      return;
    }
    truncated' := true;
    assert Field(out.Length, acc) == Field(out.Length, acc + [c]);
  }

  method PutUtf8(out: array?<Byte>, used: nat, truncated: bool, cp: nat, ghost acc: seq<Byte>)
    returns (used': nat, truncated': bool)
    requires cp < 0x110000
    requires Stored(out, used, truncated, acc)
    modifies out
    ensures Stored(out, used', truncated', acc + Utf8(cp))
  {
    hide Stored;
    ghost var a := acc;
    used', truncated' := used, truncated;
    var q1: nat := cp / 64;
    var q2: nat := q1 / 64;
    var q3: nat := q2 / 64;
    if cp < 0x80 {
      used', truncated' := Put(out, used', truncated', cp, a);
    } else if cp < 0x800 {
      used', truncated' := Put(out, used', truncated', 0xc0 + q1, a);
      a := a + [0xc0 + q1];
      used', truncated' := Put(out, used', truncated', 0x80 + cp % 64, a);
      assert a + [0x80 + cp % 64] == acc + Utf8(cp);
    } else if cp < 0x10000 {
      used', truncated' := Put(out, used', truncated', 0xe0 + q2, a);
      a := a + [0xe0 + q2];
      used', truncated' := Put(out, used', truncated', 0x80 + q1 % 64, a);
      a := a + [0x80 + q1 % 64];
      used', truncated' := Put(out, used', truncated', 0x80 + cp % 64, a);
      assert a + [0x80 + cp % 64] == acc + Utf8(cp);
    } else {
      used', truncated' := Put(out, used', truncated', 0xf0 + q3, a);
      a := a + [0xf0 + q3];
      used', truncated' := Put(out, used', truncated', 0x80 + q2 % 64, a);
      a := a + [0x80 + q2 % 64];
      used', truncated' := Put(out, used', truncated', 0x80 + q1 % 64, a);
      a := a + [0x80 + q1 % 64];
      used', truncated' := Put(out, used', truncated', 0x80 + cp % 64, a);
      assert a + [0x80 + cp % 64] == acc + Utf8(cp);
    }
  }

  method Terminate(out: array?<Byte>, used: nat, truncated: bool, ghost acc: seq<Byte>)
    requires Stored(out, used, truncated, acc)
    modifies out
    ensures Landed(out, truncated, acc)
  {
    if out != null && out.Length > 0 {
      out[used] := NUL;
      ghost var f := Field(out.Length, acc);
      assert out[..] == f + [NUL] + out[used + 1..];
      CStrStops(f, out[used + 1..]);
    }
  }

  /** `text` has been read into `out`, which as a C string now holds what fits of it. */
  ghost predicate Landed(out: array?<Byte>, truncated: bool, text: seq<Byte>)
    reads out
  {
    if out == null || out.Length == 0 then !truncated
    else
      && (truncated <==> |text| >= out.Length)
      && Field(out.Length, text) + [NUL] <= out[..]
      && CStr(out[..]) == CStr(Field(out.Length, text))
  }

  class Cursor {
    const buf: seq<Byte>
    var pos: nat

    ghost predicate Valid()
      reads this
    {
      pos <= |buf|
    }

    /** The bytes not yet read. */
    ghost function Rest(): seq<Byte>
      requires Valid()
      reads this
    {
      buf[pos..]
    }

    constructor (buf: seq<Byte>)
      ensures Valid() && Rest() == buf && this.buf == buf
    {
      this.buf := buf;
      pos := 0;
    }

    method SkipSpace()
      requires Valid()
      modifies this
      ensures Valid() && Rest() == SkipWs(old(Rest()))
    {
      while pos < |buf| && IsWs(buf[pos])
        invariant Valid()
        invariant SkipWs(Rest()) == SkipWs(old(Rest()))
      {
        assert Rest()[1..] == buf[pos + 1..];
        pos := pos + 1;
      }
    }

    method AtEnd() returns (end: bool)
      requires Valid()
      modifies this
      ensures Valid() && Rest() == SkipWs(old(Rest()))
      ensures end <==> Rest() == []
    {
      SkipSpace();
      end := pos >= |buf|;
    }

    method Peek() returns (kind: Kind)
      requires Valid()
      modifies this
      ensures Valid() && Rest() == SkipWs(old(Rest()))
      ensures kind == KindOf(old(Rest()))
    {
      SkipSpace();
      if pos >= |buf| {
        return NoValue;
      }
      var c := buf[pos];
      if c == LBRACE {
        return ObjectKind;
      }
      if c == LBRACKET {
        return ArrayKind;
      }
      if c == QUOTE {
        return StringKind;
      }
      if c == LOWER_T {
        return TrueKind;
      }
      if c == LOWER_F {
        return FalseKind;
      }
      if c == LOWER_N {
        return NullKind;
      }
      if c == MINUS || c == PLUS || c == DOT || IsDigit(c) {
        return NumberKind;
      }
      return NoValue;
    }

    method AcceptByte(c: Byte) returns (ok: bool)
      requires Valid()
      modifies this
      ensures Valid()
      ensures match Accept(old(Rest()), c)
              case Some(rest) => ok && Rest() == rest
              case None => !ok && Rest() == SkipWs(old(Rest()))
    {
      SkipSpace();
      if pos < |buf| && buf[pos] == c {
        assert Rest()[1..] == buf[pos + 1..];
        pos := pos + 1;
        return true;
      }
      return false;
    }

    /** Four hex digits at `pos`, or no move at all. */
    method TakeHex4() returns (ok: bool, value: nat)
      requires Valid()
      modifies this
      ensures Valid()
      ensures match ReadHex4(old(Rest()))
              case Some((v, rest)) => ok && value == v && Rest() == rest
              case None => !ok && pos == old(pos)
    {
      value := 0;
      if pos + 4 > |buf| {
        return false, 0;
      }
      ghost var h := Rest()[..4];
      for i := 0 to 4
        invariant pos == old(pos)
        invariant forall k :: 0 <= k < i ==> IsHex(h[k])
        invariant value == (if i == 0 then 0
                            else if i == 1 then HexValue(h[0])
                            else if i == 2 then HexValue(h[0]) * 16 + HexValue(h[1])
                            else if i == 3 then (HexValue(h[0]) * 16 + HexValue(h[1])) * 16 + HexValue(h[2])
                            else Hex4(h))
      {
        var c := buf[pos + i];
        assert c == h[i] == Rest()[i];
        var d: nat;
        if ZERO <= c <= NINE {
          d := c - ZERO;
        } else if LOWER_A <= c <= LOWER_F {
          d := c - LOWER_A + 10;
        } else if UPPER_A <= c <= UPPER_F {
          d := c - UPPER_A + 10;
        } else {
          return false, 0;
        }
        value := value * 16 + d;
      }
      assert Rest()[4..] == buf[pos + 4..];
      pos := pos + 4;
      ok := true;
    }

    /** The low half of a surrogate pair, or no move at all. */
    method TakeLow() returns (ok: bool, low: nat)
      requires Valid()
      modifies this
      ensures Valid()
      ensures match ReadLow(old(Rest()))
              case Some((v, rest)) => ok && low == v && Rest() == rest
              case None => !ok && pos == old(pos)
    {
      low := 0;
      ok := false;
      if pos + 6 <= |buf| && buf[pos] == BACKSLASH && buf[pos + 1] == LOWER_U {
        var save := pos;
        assert Rest()[2..] == buf[pos + 2..];
        pos := pos + 2;
        ok, low := TakeHex4();
        if ok && !(0xdc00 <= low <= 0xdfff) {
          ok := false;
        }
        if !ok {
          pos := save;
        }
      }
    }

    method TakeUnicode() returns (ok: bool, cp: nat)
      requires Valid()
      modifies this
      ensures Valid()
      ensures match ReadUnicode(old(Rest()))
              case Some((v, rest)) => ok && cp == v && Rest() == rest
              case None => !ok
    {
      ok, cp := TakeHex4();
      if ok && 0xd800 <= cp <= 0xdbff {
        var paired, low := TakeLow();
        if paired {
          cp := 0x10000 + (cp - 0xd800) * 0x400 + (low - 0xdc00);
        }
      }
    }

    /** One character of a literal, plain or escaped, goes into `out` as the octets `more`. */
    method TakeChar(out: array?<Byte>, used: nat, truncated: bool, ghost acc: seq<Byte>)
      returns (ok: bool, used': nat, truncated': bool, ghost more: seq<Byte>)
      requires Valid() && pos < |buf| && buf[pos] != QUOTE
      requires Stored(out, used, truncated, acc)
      modifies this, out
      ensures Valid()
      ensures if ok then pos > old(pos) && Stored(out, used', truncated', acc + more)
                         && StringBody(old(Rest())) == Push(more, StringBody(Rest()))
              else StringBody(old(Rest())) == None
    {
      hide Utf8, Stored;
      used', truncated', more := used, truncated, [];
      ghost var here := Rest();
      var c := buf[pos];
      assert here[1..] == buf[pos + 1..];
      pos := pos + 1;
      if c != BACKSLASH {
        more := [c];
        used', truncated' := Put(out, used, truncated, c, acc);
        return true, used', truncated', more;
      }
      if pos >= |buf| {
        return false, used', truncated', more;
      }
      c := buf[pos];
      assert here[2..] == buf[pos + 1..];
      pos := pos + 1;
      if c == LOWER_U {
        var cp;
        ok, cp := TakeUnicode();
        if ok {
          more := Utf8(cp);
          used', truncated' := PutUtf8(out, used, truncated, cp, acc);
        }
      } else {
        var d: Byte := NUL;
        ok := true;
        if c == QUOTE || c == BACKSLASH || c == SLASH {
          d := c;
        } else if c == LOWER_B {
          d := BACKSPACE;
        } else if c == LOWER_F {
          d := FF;
        } else if c == LOWER_N {
          d := LF;
        } else if c == LOWER_R {
          d := CR;
        } else if c == LOWER_T {
          d := TAB;
        } else {
          ok := false;
        }
        if ok {
          more := [d];
          used', truncated' := Put(out, used, truncated, d, acc);
        }
      }
    }

    /**
     * Reads a string literal into `out`, which afterwards holds, as a C string, what fits of the
     * octets the literal stands for; `truncated` says that some did not.
     */
    method TakeString(out: array?<Byte>) returns (ok: bool, truncated: bool)
      requires Valid()
      modifies this, out
      ensures Valid()
      ensures match ReadString(old(Rest()))
              case None => !ok
              case Some((text, rest)) =>
                ok && Rest() == rest && Landed(out, truncated, text)
    {
      hide SkipWs, Utf8, Unescape, ReadUnicode, Field, CStr;
      var used: nat := 0;
      truncated := false;
      SkipSpace();
      if pos >= |buf| || buf[pos] != QUOTE {
        return false, false;
      }
      assert Rest()[1..] == buf[pos + 1..];
      pos := pos + 1;
      if out != null && out.Length > 0 {
        out[0] := NUL;
      }
      ghost var start := Rest();
      ghost var acc: seq<Byte> := [];
      PushNothing(StringBody(start));
      while pos < |buf|
        invariant Valid()
        invariant Stored(out, used, truncated, acc)
        invariant StringBody(start) == Push(acc, StringBody(Rest()))
        decreases |buf| - pos
      {
        if buf[pos] == QUOTE {
          assert Rest()[1..] == buf[pos + 1..];
          pos := pos + 1;
          Terminate(out, used, truncated, acc);
          assert acc + [] == acc;
          return true, truncated;
        }
        ghost var more;
        ok, used, truncated, more := TakeChar(out, used, truncated, acc);
        if !ok {
          return false, truncated;
        }
        PushPush(acc, more, StringBody(Rest()));
        acc := acc + more;
      }
      return false, truncated;
    }

    /** Reads a number: the token copied out, and taken only if `strtod` uses all of the copy. */
    method TakeNumber(lib: NumLib) returns (ok: bool, value: Double)
      requires Valid()
      modifies this
      ensures Valid()
      ensures match ReadNumber(lib, old(Rest()))
              case None => !ok
              case Some((v, rest)) => ok && value == v && Rest() == rest
    {
      hide SkipWs;
      value := ZERO_DOUBLE;
      var tmp: seq<Byte> := [];
      SkipSpace();
      ghost var base := pos;
      while pos < |buf|
        invariant base <= pos <= |buf|
        invariant tmp == buf[base..pos] && |tmp| < NUMBER_MAX
        invariant TokenLength(buf[base..]) == |tmp| + TokenLength(buf[pos..])
        decreases |buf| - pos
      {
        var c := buf[pos];
        assert buf[pos..][1..] == buf[pos + 1..];
        if !IsNumberByte(c) {
          break;
        }
        if |tmp| + 1 >= NUMBER_MAX {
          return false, value;
        }
        tmp := tmp + [c];
        pos := pos + 1;
      }
      assert TokenLength(buf[pos..]) == 0;
      assert buf[base..][..|tmp|] == tmp && buf[base..][|tmp|..] == buf[pos..];
      if |tmp| == 0 {
        return false, value;
      }
      var parsed := lib.strtod(tmp);
      if parsed.used != |tmp| {
        return false, value;
      }
      return true, parsed.value;
    }

    /** Consumes the word `kind` begins with; true only for `true`. */
    method TakeLiteral(kind: Kind) returns (ok: bool, value: bool)
      requires Valid()
      modifies this
      ensures Valid()
      ensures match ReadLiteral(old(Rest()), kind)
              case None => !ok
              case Some(rest) => ok && value == kind.TrueKind? && Rest() == rest
    {
      value := kind.TrueKind?;
      var word := Word(kind);
      if word.None? {
        return false, value;
      }
      SkipSpace();
      var n := |word.value|;
      if pos + n > |buf| {
        return false, value;
      }
      assert Rest()[..n] == buf[pos..pos + n] && Rest()[n..] == buf[pos + n..];
      if buf[pos..pos + n] != word.value {
        return false, value;
      }
      pos := pos + n;
      ok := true;
    }

    method SkipStructure() returns (ok: bool)
      requires Valid()
      modifies this
      ensures Valid()
      ensures match SkipFrom(old(Rest()), SKIP_START)
              case None => !ok
              case Some(rest) => ok && Rest() == rest
    {
      var depth: nat := 0;
      var inString, escape := false, false;
      while pos < |buf|
        invariant Valid()
        invariant SkipFrom(old(Rest()), SKIP_START) == SkipFrom(Rest(), Skipper(depth, inString, escape))
        decreases |buf| - pos
      {
        var c := buf[pos];
        assert Rest()[1..] == buf[pos + 1..];
        pos := pos + 1;
        if inString {
          if escape {
            escape := false;
          } else if c == BACKSLASH {
            escape := true;
          } else if c == QUOTE {
            inString := false;
          }
          continue;
        }
        if c == QUOTE {
          inString := true;
        } else if c == LBRACE || c == LBRACKET {
          depth := depth + 1;
          if depth > DEPTH_MAX {
            return false;
          }
        } else if c == RBRACE || c == RBRACKET {
          if depth == 0 {
            return false;
          }
          depth := depth - 1;
          if depth == 0 {
            return true;
          }
        }
      }
      return false;
    }

    /** Moves past the value that stands next, everything nested in it included. */
    method SkipAny(lib: NumLib) returns (ok: bool)
      requires Valid()
      modifies this
      ensures Valid()
      ensures match SkipValue(lib, old(Rest()))
              case None => !ok
              case Some(rest) => ok && Rest() == rest
    {
      var kind := Peek();
      match kind {
        case ObjectKind => ok := SkipStructure();
        case ArrayKind => ok := SkipStructure();
        case StringKind =>
          var truncated;
          ok, truncated := TakeString(null);
        case NumberKind =>
          var d;
          ok, d := TakeNumber(lib);
        case NoValue => ok := false;
        case _ =>
          var v;
          ok, v := TakeLiteral(kind);
      }
    }

    /** One step along an object's members, the key landing in `key` as a C string. */
    method TakeMember(first: bool, key: array<Byte>) returns (r: Next)
      requires Valid() && key.Length == KEY_MAX
      modifies this, key
      ensures Valid()
      ensures r == NextMember(old(Rest()), first)
      ensures !r.BadMember? ==> Rest() == r.rest
    {
      hide StringBody;
      var closed := AcceptByte(RBRACE);
      if closed {
        return End(buf[pos..]);
      }
      if !first {
        var comma := AcceptByte(COMMA);
        if !comma {
          return BadMember;
        }
      }
      var ok, truncated := TakeString(key);
      if !ok {
        return BadMember;
      }
      var name := CStr(key[..]);
      var colon := AcceptByte(COLON);
      if !colon {
        return BadMember;
      }
      return Named(name, buf[pos..]);
    }
  }

  lemma PushNothing(r: Option<(seq<Byte>, seq<Byte>)>)
    ensures Push([], r) == r
  {
    if r.Some? {
      assert [] + r.value.0 == r.value.0;
    }
  }

  lemma PushPush(a: seq<Byte>, b: seq<Byte>, r: Option<(seq<Byte>, seq<Byte>)>)
    ensures Push(a, Push(b, r)) == Push(a + b, r)
  {
    if r.Some? {
      assert a + (b + r.value.0) == a + b + r.value.0;
    }
  }

  /** Whitespace before a value is read over by every routine alike. */
  lemma SpaceIgnored(lib: NumLib, s: seq<Byte>)
    ensures KindOf(SkipWs(s)) == KindOf(s)
    ensures Accept(SkipWs(s), LBRACE) == Accept(s, LBRACE)
    ensures SkipValue(lib, SkipWs(s)) == SkipValue(lib, s)
  {
    assert SkipWs(SkipWs(s)) == SkipWs(s);
  }
}
