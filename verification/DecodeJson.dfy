/**
 * Decoding well-formed JSON: what `gsp_message_decode` and `gsp_response_decode` make of a printed
 * object is exactly the fold of its members, whatever the whitespace, and they refuse exactly the
 * objects with a value they cannot read.
 */
module DecodeJson {
  import opened Bytes
  import opened Json
  import opened Text
  import opened Numbers
  import opened Message
  import opened Reader
  import opened Decode
  import SkipJson

  // --------------------------------------------------------------------------------------
  // Tokens
  // --------------------------------------------------------------------------------------

  lemma {:induction false} SkipWsOver(w: seq<Byte>, s: seq<Byte>)
    requires AllWs(w)
    ensures SkipWs(w + s) == SkipWs(s)
  {
    if w == [] {
      assert w + s == s;
    } else {
      assert (w + s)[1..] == w[1..] + s;
      SkipWsOver(w[1..], s);
    }
  }

  lemma SkipWsTo(w: seq<Byte>, s: seq<Byte>)
    requires AllWs(w) && s != [] && !IsWs(s[0])
    ensures SkipWs(w + s) == s
  {
    SkipWsOver(w, s);
  }

  lemma ReadHex4Printed(hex: seq<Byte>, more: seq<Byte>)
    requires ValidItem(Unicode(hex))
    ensures ReadHex4(hex + more) == Some((Hex4(hex), more))
  {
    assert (hex + more)[..4] == hex && (hex + more)[4..] == more;
  }

  lemma EscapeSplits(hex: seq<Byte>, more: seq<Byte>)
    requires ValidItem(Unicode(hex))
    ensures var t := PrintItem(Unicode(hex)) + more;
            |t| >= 6 && t[0] == BACKSLASH && t[1] == LOWER_U && t[2..] == hex + more
  {
  }

  lemma ReadLowPrinted(hex: seq<Byte>, more: seq<Byte>)
    requires ValidItem(Unicode(hex))
    ensures ReadLow(PrintItem(Unicode(hex)) + more)
         == if IsLow(Hex4(hex)) then Some((Hex4(hex), more)) else None
  {
    hide Hex4, ReadHex4, PrintItem;
    EscapeSplits(hex, more);
    ReadHex4Printed(hex, more);
  }

  lemma NoLow(t: seq<Byte>)
    requires |t| >= 1 && (t[0] != BACKSLASH || (|t| >= 2 && t[1] != LOWER_U))
    ensures ReadLow(t) == None
  {
  }

  /** The low half of a pair, if the items go on with one. */
  function LowAhead(items: seq<Item>): Option<nat>
    requires ValidItems(items)
  {
    if items != [] && items[0].Unicode? && IsLow(Hex4(items[0].hex)) then Some(Hex4(items[0].hex)) else None
  }

  /** A high surrogate is followed by a low one in the text exactly when it is among the items. */
  lemma LowFollows(items: seq<Item>, rest: seq<Byte>)
    requires ValidItems(items)
    ensures ReadLow(PrintItems(items) + ([QUOTE] + rest))
         == match LowAhead(items)
            case Some(low) => Some((low, PrintItems(items[1..]) + ([QUOTE] + rest)))
            case None => None
  {
    hide Hex4, ReadLow, IsLow, PrintItems;
    if items == [] {
      assert PrintItems(items) == [] by { NoItems(); }
      assert [] + ([QUOTE] + rest) == [QUOTE] + rest;
      NoLow([QUOTE] + rest);
    } else {
      PrintItemsSplit(items, rest);
      LowAtItem(items[0], PrintItems(items[1..]) + ([QUOTE] + rest));
    }
  }

  lemma NoItems()
    ensures PrintItems([]) == []
  {
  }

  lemma LowAtItem(it: Item, more: seq<Byte>)
    requires ValidItem(it)
    ensures ReadLow(PrintItem(it) + more)
         == if it.Unicode? && IsLow(Hex4(it.hex)) then Some((Hex4(it.hex), more)) else None
  {
    hide Hex4, ReadLow, IsLow;
    var t := PrintItem(it) + more;
    match it {
      case Plain(b) => assert t[0] == b; NoLow(t);
      case Escape(c) => assert t[1] == c; NoLow(t);
      case Unicode(hex) => ReadLowPrinted(hex, more);
    }
  }

  lemma {:induction false} StringBodyPrinted(items: seq<Item>, rest: seq<Byte>)
    requires ValidItems(items)
    ensures StringBody(PrintItems(items) + ([QUOTE] + rest)) == Some((Meaning(items), rest))
    decreases |items|
  {
    hide Utf8, Hex4, ReadHex4, ReadLow;
    var t := PrintItems(items) + ([QUOTE] + rest);
    if items == [] {
      assert t == [QUOTE] + rest && t[1..] == rest;
    } else {
      var more := PrintItems(items[1..]) + ([QUOTE] + rest);
      assert t == PrintItem(items[0]) + more;
      StringBodyPrinted(items[1..], rest);
      match items[0] {
        case Plain(b) => assert t == [b] + more && t[1..] == more;
        case Escape(c) => assert t[0] == BACKSLASH && t[1] == c && t[2..] == more;
        case Unicode(hex) => UnicodePrinted(items, rest);
      }
    }
  }

  lemma {:induction false} UnicodePrinted(items: seq<Item>, rest: seq<Byte>)
    requires ValidItems(items) && items != [] && items[0].Unicode?
    requires StringBody(PrintItems(items[1..]) + ([QUOTE] + rest)) == Some((Meaning(items[1..]), rest))
    ensures StringBody(PrintItems(items) + ([QUOTE] + rest)) == Some((Meaning(items), rest))
    decreases |items|, 0
  {
    hide Utf8, Hex4, ReadHex4, ReadLow, PrintItem, PrintItems;
    var hex := items[0].hex;
    var more := PrintItems(items[1..]) + ([QUOTE] + rest);
    var t := PrintItem(items[0]) + more;
    PrintItemsSplit(items, rest);
    EscapeSplits(hex, more);
    ReadHex4Printed(hex, more);
    LowFollows(items[1..], rest);
    if IsPair(items) {
      assert items[1..][1..] == items[2..];
      StringBodyPrinted(items[2..], rest);
      assert StringBody(t) == Push(Utf8(Combine(Hex4(hex), Hex4(items[1].hex))),
                                   StringBody(PrintItems(items[2..]) + ([QUOTE] + rest)));
    } else {
      assert StringBody(t) == Push(Utf8(Hex4(hex)), StringBody(more));
    }
  }

  lemma PrintItemsSplit(items: seq<Item>, rest: seq<Byte>)
    requires items != []
    ensures PrintItems(items) + ([QUOTE] + rest)
         == PrintItem(items[0]) + (PrintItems(items[1..]) + ([QUOTE] + rest))
  {
  }

  lemma ReadStringPrinted(w: seq<Byte>, items: seq<Item>, rest: seq<Byte>)
    requires AllWs(w) && ValidItems(items)
    ensures ReadString(w + (PrintString(items) + rest)) == Some((Meaning(items), rest))
  {
    var t := PrintString(items) + rest;
    SkipWsTo(w, t);
    assert t[1..] == PrintItems(items) + ([QUOTE] + rest);
    StringBodyPrinted(items, rest);
  }

  /** What may follow a number: anything that does not go on with it. */
  predicate Boundary(tail: seq<Byte>) {
    tail != [] && !IsNumberByte(tail[0])
  }

  lemma {:induction false} TokenLengthPrinted(text: seq<Byte>, tail: seq<Byte>)
    requires forall i :: 0 <= i < |text| ==> IsNumberByte(text[i])
    requires Boundary(tail)
    ensures TokenLength(text + tail) == |text|
  {
    if text == [] {
      assert text + tail == tail;
    } else {
      assert (text + tail)[1..] == text[1..] + tail;
      TokenLengthPrinted(text[1..], tail);
    }
  }

  lemma ReadNumberPrinted(lib: NumLib, w: seq<Byte>, text: seq<Byte>, tail: seq<Byte>)
    requires AllWs(w) && ValidNumber(text) && Boundary(tail)
    ensures ReadNumber(lib, w + (text + tail))
         == if Readable(lib, text) then Some((lib.strtod(text).value, tail)) else None
  {
    SkipWsTo(w, text + tail);
    TokenLengthPrinted(text, tail);
    assert (text + tail)[..|text|] == text && (text + tail)[|text|..] == tail;
  }

  lemma ReadLiteralPrinted(w: seq<Byte>, kind: Kind, tail: seq<Byte>)
    requires AllWs(w) && kind in {TrueKind, FalseKind, NullKind}
    ensures ReadLiteral(w + (Word(kind).value + tail), kind) == Some(tail)
  {
    var word := Word(kind).value;
    SkipWsTo(w, word + tail);
    assert (word + tail)[|word|..] == tail;
  }

  lemma AcceptPrinted(w: seq<Byte>, c: Byte, rest: seq<Byte>)
    requires AllWs(w) && !IsWs(c)
    ensures Accept(w + ([c] + rest), c) == Some(rest)
  {
    SkipWsTo(w, [c] + rest);
    assert ([c] + rest)[1..] == rest;
  }

  lemma AcceptOther(w: seq<Byte>, s: seq<Byte>, c: Byte)
    requires AllWs(w) && s != [] && !IsWs(s[0]) && s[0] != c
    ensures Accept(w + s, c) == None
  {
    SkipWsTo(w, s);
  }

  function ValueKind(v: Value): Kind {
    match v
    case Null => NullKind
    case True => TrueKind
    case False => FalseKind
    case Number(_) => NumberKind
    case Text(_) => StringKind
    case Array(_, _) => ArrayKind
    case Object(_, _) => ObjectKind
  }

  /** The first byte of a printed value tells what it is. */
  lemma FirstByte(v: Value)
    requires Valid(v)
    ensures Print(v) != []
    ensures var b := Print(v)[0];
            match v
            case Null => b == LOWER_N
            case True => b == LOWER_T
            case False => b == LOWER_F
            case Number(_) => StartsNumber(b)
            case Text(_) => b == QUOTE
            case Array(_, _) => b == LBRACKET
            case Object(_, _) => b == LBRACE
  {
  }

  lemma KindPrinted(w: seq<Byte>, v: Value, tail: seq<Byte>)
    requires AllWs(w) && Valid(v)
    ensures KindOf(w + (Print(v) + tail)) == ValueKind(v)
  {
    FirstByte(v);
    assert (Print(v) + tail)[0] == Print(v)[0];
    SkipWsTo(w, Print(v) + tail);
  }

  // --------------------------------------------------------------------------------------
  // Values
  // --------------------------------------------------------------------------------------

  /** The values the reader can get past: number tokens it can read, nesting it can skip. */
  predicate Acceptable(lib: NumLib, v: Value) {
    match v
    case Number(text) => Readable(lib, text)
    case Array(_, _) => Height(v) <= DEPTH_MAX
    case Object(_, _) => Height(v) <= DEPTH_MAX
    case _ => true
  }

  lemma SkipValuePrinted(lib: NumLib, w: seq<Byte>, v: Value, tail: seq<Byte>)
    requires AllWs(w) && Valid(v) && Boundary(tail)
    ensures SkipValue(lib, w + (Print(v) + tail)) == if Acceptable(lib, v) then Some(tail) else None
  {
    KindPrinted(w, v, tail);
    match v {
      case Null => ReadLiteralPrinted(w, NullKind, tail);
      case True => ReadLiteralPrinted(w, TrueKind, tail);
      case False => ReadLiteralPrinted(w, FalseKind, tail);
      case Number(text) => ReadNumberPrinted(lib, w, text, tail);
      case Text(items) => ReadStringPrinted(w, items, tail);
      case _ =>
        FirstByte(v);
        assert (Print(v) + tail)[0] == Print(v)[0];
        SkipWsTo(w, Print(v) + tail);
        SkipJson.StructureSkipped(v, tail);
    }
  }

  /** A value without the text behind it: read, with a note or not, or absent. */
  function Yield<T>(value: Option<T>, noted: bool): Got<T> {
    if value.Some? then Read(value.value, noted, []) else Absent([])
  }

  function Leaving<T>(g: Got<T>, rest: seq<Byte>): Got<T> {
    match g
    case Malformed => Malformed
    case Absent(_) => Absent(rest)
    case Read(v, noted, _) => Read(v, noted, rest)
  }

  /** The number a value is, or spells in a string. */
  function NumberIn(lib: NumLib, v: Value): (g: Got<Double>)
    requires Valid(v)
    ensures !g.Malformed?
  {
    match v
    case Number(text) => Yield(Some(lib.strtod(text).value), false)
    case Text(items) =>
      var t := CStr(Field(NUMBER_MAX, Meaning(items)));
      Yield(if t != [] && lib.strtod(t).used == |t| then Some(lib.strtod(t).value) else None, true)
    case _ => Absent([])
  }

  /** The truth value a value is, spells in a string, or is as a number. */
  function BoolIn(lib: NumLib, v: Value): (g: Got<bool>)
    requires Valid(v)
    ensures !g.Malformed?
  {
    match v
    case True => Yield(Some(true), false)
    case False => Yield(Some(false), false)
    case Number(text) => Yield(Some(lib.strtod(text).value != ZERO_DOUBLE), true)
    case Text(items) =>
      var t := CStr(Field(BOOL_TEXT_MAX, Meaning(items)));
      Yield(if CiEqual(t, Ascii("true")) then Some(true)
            else if CiEqual(t, Ascii("false")) then Some(false)
            else None, true)
    case _ => Absent([])
  }

  /** The string a value is, as much of it as the field holds. */
  function StringIn(v: Value, size: nat): (g: Got<seq<Byte>>)
    requires Valid(v) && size > 0
    ensures !g.Malformed?
  {
    match v
    case Text(items) => Yield(Some(CStr(Field(size, Meaning(items)))), |Meaning(items)| >= size)
    case _ => Absent([])
  }

  lemma NumberMemberPrinted(lib: NumLib, w: seq<Byte>, v: Value, tail: seq<Byte>)
    requires AllWs(w) && Valid(v) && Boundary(tail)
    ensures NumberMember(lib, w + (Print(v) + tail))
         == if Acceptable(lib, v) then Leaving(NumberIn(lib, v), tail) else Malformed
  {
    hide CStr, Field, SkipValue, ReadLiteral, ReadString, ReadNumber, Meaning;
    KindPrinted(w, v, tail);
    SkipValuePrinted(lib, w, v, tail);
    match v {
      case Number(text) => ReadNumberPrinted(lib, w, text, tail);
      case Text(items) => ReadStringPrinted(w, items, tail);
      case Null => ReadLiteralPrinted(w, NullKind, tail);
      case _ =>
    }
  }

  lemma BoolMemberPrinted(lib: NumLib, w: seq<Byte>, v: Value, tail: seq<Byte>)
    requires AllWs(w) && Valid(v) && Boundary(tail)
    ensures BoolMember(lib, w + (Print(v) + tail))
         == if Acceptable(lib, v) then Leaving(BoolIn(lib, v), tail) else Malformed
  {
    hide CStr, Field, SkipValue, ReadLiteral, ReadString, ReadNumber, Meaning, CiEqual, Ascii;
    KindPrinted(w, v, tail);
    SkipValuePrinted(lib, w, v, tail);
    match v {
      case Number(text) => ReadNumberPrinted(lib, w, text, tail);
      case Text(items) => ReadStringPrinted(w, items, tail);
      case Null => ReadLiteralPrinted(w, NullKind, tail);
      case True => ReadLiteralPrinted(w, TrueKind, tail);
      case False => ReadLiteralPrinted(w, FalseKind, tail);
      case _ =>
    }
  }

  lemma StringMemberPrinted(lib: NumLib, w: seq<Byte>, v: Value, tail: seq<Byte>, size: nat)
    requires AllWs(w) && Valid(v) && Boundary(tail) && size > 0
    ensures StringMember(lib, w + (Print(v) + tail), size)
         == if Acceptable(lib, v) then Leaving(StringIn(v, size), tail) else Malformed
  {
    hide CStr, Field, SkipValue, ReadLiteral, ReadString, Meaning;
    KindPrinted(w, v, tail);
    SkipValuePrinted(lib, w, v, tail);
    match v {
      case Text(items) => ReadStringPrinted(w, items, tail);
      case Null => ReadLiteralPrinted(w, NullKind, tail);
      case _ =>
    }
  }

  // --------------------------------------------------------------------------------------
  // Members
  // --------------------------------------------------------------------------------------

  /** A key as the reader holds it. */
  function KeyText(m: Member): seq<Byte>
    requires ValidItems(m.key)
  {
    CStr(Field(KEY_MAX, Meaning(m.key)))
  }

  /** What is printed behind the value of `ms[0]`. */
  function Behind(ms: seq<Member>, tail: seq<Byte>): seq<Byte>
    requires ms != []
  {
    ms[0].after + (PrintMembers(ms[1..], false) + ([RBRACE] + tail))
  }

  lemma BehindIsBoundary(ms: seq<Member>, tail: seq<Byte>)
    requires ms != [] && ValidMembers(ms)
    ensures Boundary(Behind(ms, tail))
  {
    var rest := PrintMembers(ms[1..], false) + ([RBRACE] + tail);
    if ms[0].after == [] {
      assert Behind(ms, tail) == rest;
      if ms[1..] == [] {
        assert rest == [RBRACE] + tail;
      } else {
        assert rest[0] == COMMA;
      }
    } else {
      assert Behind(ms, tail)[0] == ms[0].after[0];
    }
  }

  lemma NextEnd(w: seq<Byte>, first: bool, tail: seq<Byte>)
    requires AllWs(w)
    ensures NextMember(w + (PrintMembers([], first) + ([RBRACE] + tail)), first) == End(tail)
  {
    assert PrintMembers([], first) + ([RBRACE] + tail) == [RBRACE] + tail;
    AcceptPrinted(w, RBRACE, tail);
  }

  lemma NextKey(w: seq<Byte>, m: Member, rest: seq<Byte>)
    requires AllWs(w) && ValidMember(m)
    ensures Accept(w + (PrintMember(m) + rest), RBRACE) == None
    ensures ReadString(w + (PrintMember(m) + rest))
         == Some((Meaning(m.key), m.afterKey + ([COLON] + (m.beforeValue + (Print(m.value) + (m.after + rest))))))
  {
    var t := m.afterKey + ([COLON] + (m.beforeValue + (Print(m.value) + (m.after + rest))));
    var u := PrintString(m.key) + t;
    assert PrintMember(m) + rest == m.before + u;
    assert w + (m.before + u) == (w + m.before) + u;
    SkipWsTo(w + m.before, u);
    ReadStringPrinted(w + m.before, m.key, t);
  }

  /** One step along printed members: the key, and the value still to be read. */
  lemma NextNamed(w: seq<Byte>, ms: seq<Member>, first: bool, tail: seq<Byte>)
    requires AllWs(w) && ms != [] && ValidMembers(ms)
    ensures NextMember(w + (PrintMembers(ms, first) + ([RBRACE] + tail)), first)
         == Named(KeyText(ms[0]), ms[0].beforeValue + (Print(ms[0].value) + Behind(ms, tail)))
  {
    hide CStr, Field, Meaning, ReadString, SkipWs, PrintString, Print, Accept;
    var m := ms[0];
    var rest := PrintMembers(ms[1..], false) + ([RBRACE] + tail);
    var value := m.beforeValue + (Print(m.value) + (m.after + rest));
    AcceptPrinted(m.afterKey, COLON, value);
    if first {
      assert PrintMembers(ms, first) + ([RBRACE] + tail) == PrintMember(m) + rest;
      NextKey(w, m, rest);
    } else {
      var t := [COMMA] + (PrintMember(m) + rest);
      assert PrintMembers(ms, first) + ([RBRACE] + tail) == t;
      AcceptOther(w, t, RBRACE);
      AcceptPrinted(w, COMMA, PrintMember(m) + rest);
      NextKey([], m, rest);
      assert [] + (PrintMember(m) + rest) == PrintMember(m) + rest;
    }
  }

  predicate AllAcceptable(lib: NumLib, ms: seq<Member>) {
    ms == [] || (Acceptable(lib, ms[0].value) && AllAcceptable(lib, ms[1..]))
  }

  // --------------------------------------------------------------------------------------
  // Sections
  // --------------------------------------------------------------------------------------

  /** The fold of a numeric section's members. */
  function FoldNumbers<F>(lib: NumLib, tab: seq<Key<F>>, ms: seq<Member>, t: Tally<F, Double>): Tally<F, Double>
    requires ValidMembers(ms)
    decreases ms
  {
    if ms == [] then t
    else
      match Lookup(tab, KeyText(ms[0]))
      case None => FoldNumbers(lib, tab, ms[1..], t.(unknown := CountUnknown(t.unknown)))
      case Some((id, mismatch)) =>
        FoldNumbers(lib, tab, ms[1..], Enter(t, id, mismatch, NumberIn(lib, ms[0].value)))
  }

  lemma {:induction false} NumericMembersPrinted<F>(lib: NumLib, tab: seq<Key<F>>, w: seq<Byte>, ms: seq<Member>,
                                                     first: bool, tail: seq<Byte>, t: Tally<F, Double>)
    requires AllWs(w) && ValidMembers(ms)
    ensures NumericMembers(lib, tab, w + (PrintMembers(ms, first) + ([RBRACE] + tail)), first, t)
         == if AllAcceptable(lib, ms) then Some((FoldNumbers(lib, tab, ms, t), tail)) else None
    decreases ms
  {
    hide NextMember, SkipValue, NumberMember, NumberIn, Acceptable, Lookup, KeyText;
    if ms == [] {
      NextEnd(w, first, tail);
    } else {
      NextNamed(w, ms, first, tail);
      BehindIsBoundary(ms, tail);
      var m := ms[0];
      SkipValuePrinted(lib, m.beforeValue, m.value, Behind(ms, tail));
      NumberMemberPrinted(lib, m.beforeValue, m.value, Behind(ms, tail));
      match Lookup(tab, KeyText(m)) {
        case None => NumericMembersPrinted(lib, tab, m.after, ms[1..], false, tail, t.(unknown := CountUnknown(t.unknown)));
        case Some((id, mismatch)) =>
          NumericMembersPrinted(lib, tab, m.after, ms[1..], false, tail, Enter(t, id, mismatch, NumberIn(lib, m.value)));
      }
    }
  }

  function FoldOptions(lib: NumLib, ms: seq<Member>, t: Tally<OptionField, bool>): Tally<OptionField, bool>
    requires ValidMembers(ms)
    decreases ms
  {
    if ms == [] then t
    else
      match Lookup(OPTION_KEYS, KeyText(ms[0]))
      case None => FoldOptions(lib, ms[1..], t.(unknown := CountUnknown(t.unknown)))
      case Some((id, mismatch)) => FoldOptions(lib, ms[1..], Enter(t, id, mismatch, BoolIn(lib, ms[0].value)))
  }

  lemma {:induction false} OptionMembersPrinted(lib: NumLib, w: seq<Byte>, ms: seq<Member>, first: bool,
                                                tail: seq<Byte>, t: Tally<OptionField, bool>)
    requires AllWs(w) && ValidMembers(ms)
    ensures OptionMembers(lib, w + (PrintMembers(ms, first) + ([RBRACE] + tail)), first, t)
         == if AllAcceptable(lib, ms) then Some((FoldOptions(lib, ms, t), tail)) else None
    decreases ms
  {
    hide NextMember, SkipValue, BoolMember, BoolIn, Acceptable, Lookup, KeyText;
    if ms == [] {
      NextEnd(w, first, tail);
    } else {
      NextNamed(w, ms, first, tail);
      BehindIsBoundary(ms, tail);
      var m := ms[0];
      SkipValuePrinted(lib, m.beforeValue, m.value, Behind(ms, tail));
      BoolMemberPrinted(lib, m.beforeValue, m.value, Behind(ms, tail));
      match Lookup(OPTION_KEYS, KeyText(m)) {
        case None => OptionMembersPrinted(lib, m.after, ms[1..], false, tail, t.(unknown := CountUnknown(t.unknown)));
        case Some((id, mismatch)) =>
          OptionMembersPrinted(lib, m.after, ms[1..], false, tail, Enter(t, id, mismatch, BoolIn(lib, m.value)));
      }
    }
  }

  // --------------------------------------------------------------------------------------
  // The message
  // --------------------------------------------------------------------------------------

  predicate IsSection(id: RootKey) {
    id == BallDataKey || id == ClubDataKey || id == OptionsKey
  }

  /** The root members the decoder can read: a section is looked into, anything else is one value. */
  predicate RootAcceptable(lib: NumLib, m: Member)
    requires ValidMember(m)
  {
    match Lookup(ROOT_KEYS, KeyText(m))
    case Some((id, _)) =>
      if IsSection(id) && m.value.Object? then AllAcceptable(lib, m.value.members) else Acceptable(lib, m.value)
    case None => Acceptable(lib, m.value)
  }

  predicate AllRootAcceptable(lib: NumLib, ms: seq<Member>)
    requires ValidMembers(ms)
  {
    ms == [] || (RootAcceptable(lib, ms[0]) && AllRootAcceptable(lib, ms[1..]))
  }

  /** What one known root member makes of the draft. */
  function RootIn(lib: NumLib, id: RootKey, v: Value, d: Draft): Draft
    requires Valid(v)
  {
    match id
    case DeviceIdKey => WithDeviceId(d, StringIn(v, DEVICE_ID_MAX))
    case UnitsKey => WithUnits(d, StringIn(v, UNITS_TEXT_MAX))
    case ApiVersionKey => WithApiVersion(d, StringIn(v, API_VERSION_MAX))
    case ShotNumberKey => WithShotNumber(d, NumberIn(lib, v))
    case BallDataKey =>
      if v.Object? then WithBall(d, FoldNumbers(lib, BALL_KEYS, v.members, Tally(d.ball, d.flags, d.unknown))) else d
    case ClubDataKey =>
      if v.Object? then WithClub(d, FoldNumbers(lib, CLUB_KEYS, v.members, Tally(d.club, d.flags, d.unknown))) else d
    case OptionsKey =>
      if v.Object? then WithOptions(d, FoldOptions(lib, v.members, Tally(d.options, d.flags, d.unknown))) else d
  }

  /** The fold of a message's members, in order: later members override earlier ones. */
  function FoldRoot(lib: NumLib, ms: seq<Member>, d: Draft): Draft
    requires ValidMembers(ms)
    decreases ms
  {
    if ms == [] then d
    else
      match Lookup(ROOT_KEYS, KeyText(ms[0]))
      case None => FoldRoot(lib, ms[1..], d.(unknown := CountUnknown(d.unknown)))
      case Some((id, mismatch)) =>
        FoldRoot(lib, ms[1..], RootIn(lib, id, ms[0].value, d.(flags := Noted(d.flags, mismatch, KeyCaseMismatch))))
  }

  lemma OpenSectionPrinted(w: seq<Byte>, v: Value, tail: seq<Byte>)
    requires AllWs(w) && Valid(v)
    ensures OpenSection(w + (Print(v) + tail))
         == if v.Object? then Some(v.blank + (PrintMembers(v.members, true) + ([RBRACE] + tail))) else None
  {
    KindPrinted(w, v, tail);
    if v.Object? {
      var body := v.blank + (PrintMembers(v.members, true) + ([RBRACE] + tail));
      assert Print(v) + tail == [LBRACE] + body;
      AcceptPrinted(w, LBRACE, body);
    }
  }

  lemma RootValuePrinted(lib: NumLib, id: RootKey, w: seq<Byte>, v: Value, tail: seq<Byte>, d: Draft)
    requires AllWs(w) && Valid(v) && Boundary(tail)
    ensures RootValue(lib, id, w + (Print(v) + tail), d)
         == if (if IsSection(id) && v.Object? then AllAcceptable(lib, v.members) else Acceptable(lib, v))
            then Some((RootIn(lib, id, v, d), tail)) else None
  {
    hide SkipValue, NumberMember, StringMember, OpenSection, Acceptable, NumberIn, StringIn, NumericMembers,
         OptionMembers, FoldNumbers, FoldOptions, AllAcceptable, KindOf;
    if IsSection(id) {
      OpenSectionPrinted(w, v, tail);
      SkipValuePrinted(lib, w, v, tail);
      if v.Object? {
        NumericMembersPrinted(lib, BALL_KEYS, v.blank, v.members, true, tail, Tally(d.ball, d.flags, d.unknown));
        NumericMembersPrinted(lib, CLUB_KEYS, v.blank, v.members, true, tail, Tally(d.club, d.flags, d.unknown));
        OptionMembersPrinted(lib, v.blank, v.members, true, tail, Tally(d.options, d.flags, d.unknown));
      }
    } else {
      NumberMemberPrinted(lib, w, v, tail);
      StringMemberPrinted(lib, w, v, tail, DEVICE_ID_MAX);
      StringMemberPrinted(lib, w, v, tail, UNITS_TEXT_MAX);
      StringMemberPrinted(lib, w, v, tail, API_VERSION_MAX);
    }
  }

  lemma {:induction false} RootMembersPrinted(lib: NumLib, w: seq<Byte>, ms: seq<Member>, first: bool,
                                              tail: seq<Byte>, d: Draft)
    requires AllWs(w) && ValidMembers(ms)
    ensures RootMembers(lib, w + (PrintMembers(ms, first) + ([RBRACE] + tail)), first, d)
         == if AllRootAcceptable(lib, ms) then Some((FoldRoot(lib, ms, d), tail)) else None
    decreases ms
  {
    hide NextMember, SkipValue, RootValue, RootIn, Acceptable, AllAcceptable, Lookup, KeyText;
    if ms == [] {
      NextEnd(w, first, tail);
    } else {
      NextNamed(w, ms, first, tail);
      BehindIsBoundary(ms, tail);
      var m := ms[0];
      match Lookup(ROOT_KEYS, KeyText(m)) {
        case None =>
          SkipValuePrinted(lib, m.beforeValue, m.value, Behind(ms, tail));
          RootMembersPrinted(lib, m.after, ms[1..], false, tail, d.(unknown := CountUnknown(d.unknown)));
        case Some((id, mismatch)) =>
          var e := d.(flags := Noted(d.flags, mismatch, KeyCaseMismatch));
          RootValuePrinted(lib, id, m.beforeValue, m.value, Behind(ms, tail), e);
          RootMembersPrinted(lib, m.after, ms[1..], false, tail, RootIn(lib, id, m.value, e));
      }
    }
  }

  /**
   * A printed JSON object, with whitespace before and behind, is decoded into the fold of its
   * members exactly when every value is one the reader can get past.
   */
  lemma MessagePrinted(lib: NumLib, before: seq<Byte>, v: Value, behind: seq<Byte>)
    requires v.Object? && Valid(v) && AllWs(before) && AllWs(behind)
    ensures DecodeMessage(lib, before + (Print(v) + behind))
         == if AllRootAcceptable(lib, v.members)
            then Some(Finish(FoldRoot(lib, v.members, BLANK), |before| + |Print(v)| + |behind|))
            else None
  {
    hide RootMembers, Finish, FoldRoot, AllRootAcceptable, ValidMembers;
    var body := v.blank + (PrintMembers(v.members, true) + ([RBRACE] + behind));
    assert Print(v) + behind == [LBRACE] + body;
    AcceptPrinted(before, LBRACE, body);
    assert ValidMembers(v.members);
    RootMembersPrinted(lib, v.blank, v.members, true, behind, BLANK);
    SkipWsOver(behind, []);
    assert behind + [] == behind;
  }

  // --------------------------------------------------------------------------------------
  // The response
  // --------------------------------------------------------------------------------------

  function PlayerIn(lib: NumLib, id: PlayerField, v: Value, p: PlayerInfo): PlayerInfo
    requires Valid(v)
  {
    match id
    case HandedKey =>
      var g := StringIn(v, CODE_TEXT_MAX); if g.Read? then p.(handed := HandedParse(g.value)) else p
    case ClubKey =>
      var g := StringIn(v, CODE_TEXT_MAX); if g.Read? then p.(club := ClubParse(g.value)) else p
    case DistanceKey =>
      var g := NumberIn(lib, v); if g.Read? then p.(distance := g.value, hasDistance := true) else p
    case SurfaceKey =>
      var g := StringIn(v, SURFACE_MAX); if g.Read? then p.(surface := g.value) else p
  }

  function FoldPlayer(lib: NumLib, ms: seq<Member>, p: PlayerInfo): PlayerInfo
    requires ValidMembers(ms)
    decreases ms
  {
    if ms == [] then p
    else
      match Lookup(PLAYER_KEYS, KeyText(ms[0]))
      case None => FoldPlayer(lib, ms[1..], p)
      case Some((id, _)) => FoldPlayer(lib, ms[1..], PlayerIn(lib, id, ms[0].value, p))
  }

  lemma PlayerValuePrinted(lib: NumLib, id: PlayerField, w: seq<Byte>, v: Value, tail: seq<Byte>, p: PlayerInfo)
    requires AllWs(w) && Valid(v) && Boundary(tail)
    ensures PlayerValue(lib, id, w + (Print(v) + tail), p)
         == if Acceptable(lib, v) then Some((PlayerIn(lib, id, v, p), tail)) else None
  {
    hide NumberMember, StringMember, Acceptable, NumberIn, StringIn, HandedParse, ClubParse;
    NumberMemberPrinted(lib, w, v, tail);
    StringMemberPrinted(lib, w, v, tail, CODE_TEXT_MAX);
    StringMemberPrinted(lib, w, v, tail, SURFACE_MAX);
  }

  lemma {:induction false} PlayerMembersPrinted(lib: NumLib, w: seq<Byte>, ms: seq<Member>, first: bool,
                                                tail: seq<Byte>, p: PlayerInfo)
    requires AllWs(w) && ValidMembers(ms)
    ensures PlayerMembers(lib, w + (PrintMembers(ms, first) + ([RBRACE] + tail)), first, p)
         == if AllAcceptable(lib, ms) then Some((FoldPlayer(lib, ms, p), tail)) else None
    decreases ms
  {
    hide NextMember, SkipValue, PlayerValue, PlayerIn, Acceptable, Lookup, KeyText;
    if ms == [] {
      NextEnd(w, first, tail);
    } else {
      NextNamed(w, ms, first, tail);
      BehindIsBoundary(ms, tail);
      var m := ms[0];
      match Lookup(PLAYER_KEYS, KeyText(m)) {
        case None =>
          SkipValuePrinted(lib, m.beforeValue, m.value, Behind(ms, tail));
          PlayerMembersPrinted(lib, m.after, ms[1..], false, tail, p);
        case Some((id, _)) =>
          PlayerValuePrinted(lib, id, m.beforeValue, m.value, Behind(ms, tail), p);
          PlayerMembersPrinted(lib, m.after, ms[1..], false, tail, PlayerIn(lib, id, m.value, p));
      }
    }
  }

  predicate ResponseAcceptable(lib: NumLib, m: Member)
    requires ValidMember(m)
  {
    match Lookup(RESPONSE_KEYS, KeyText(m))
    case Some((PlayerKey, _)) =>
      if m.value.Object? then AllAcceptable(lib, m.value.members) else Acceptable(lib, m.value)
    case _ => Acceptable(lib, m.value)
  }

  predicate AllResponseAcceptable(lib: NumLib, ms: seq<Member>)
    requires ValidMembers(ms)
  {
    ms == [] || (ResponseAcceptable(lib, ms[0]) && AllResponseAcceptable(lib, ms[1..]))
  }

  function ResponseIn(lib: NumLib, id: ResponseKey, v: Value, r: Response): Response
    requires Valid(v)
  {
    match id
    case CodeKey =>
      var g := NumberIn(lib, v); if g.Read? then r.(code := ClampInt32(g.value)) else r
    case MessageKey =>
      var g := StringIn(v, RESPONSE_TEXT_MAX); if g.Read? then r.(message := g.value, hasMessage := true) else r
    case PlayerKey =>
      if v.Object? then r.(player := FoldPlayer(lib, v.members, r.player), hasPlayer := true) else r
  }

  function FoldResponse(lib: NumLib, ms: seq<Member>, r: Response): Response
    requires ValidMembers(ms)
    decreases ms
  {
    if ms == [] then r
    else
      match Lookup(RESPONSE_KEYS, KeyText(ms[0]))
      case None => FoldResponse(lib, ms[1..], r)
      case Some((id, _)) => FoldResponse(lib, ms[1..], ResponseIn(lib, id, ms[0].value, r))
  }

  lemma ResponseValuePrinted(lib: NumLib, id: ResponseKey, w: seq<Byte>, v: Value, tail: seq<Byte>, r: Response)
    requires AllWs(w) && Valid(v) && Boundary(tail)
    ensures ResponseValue(lib, id, w + (Print(v) + tail), r)
         == if (if id == PlayerKey && v.Object? then AllAcceptable(lib, v.members) else Acceptable(lib, v))
            then Some((ResponseIn(lib, id, v, r), tail)) else None
  {
    hide SkipValue, NumberMember, StringMember, OpenSection, Acceptable, NumberIn, StringIn, PlayerMembers,
         FoldPlayer, AllAcceptable, KindOf, ClampInt32;
    if id == PlayerKey {
      OpenSectionPrinted(w, v, tail);
      SkipValuePrinted(lib, w, v, tail);
      if v.Object? {
        PlayerMembersPrinted(lib, v.blank, v.members, true, tail, r.player);
      }
    } else {
      NumberMemberPrinted(lib, w, v, tail);
      StringMemberPrinted(lib, w, v, tail, RESPONSE_TEXT_MAX);
    }
  }

  lemma {:induction false} ResponseMembersPrinted(lib: NumLib, w: seq<Byte>, ms: seq<Member>, first: bool,
                                                  tail: seq<Byte>, r: Response)
    requires AllWs(w) && ValidMembers(ms)
    ensures ResponseMembers(lib, w + (PrintMembers(ms, first) + ([RBRACE] + tail)), first, r)
         == if AllResponseAcceptable(lib, ms) then Some((FoldResponse(lib, ms, r), tail)) else None
    decreases ms
  {
    hide NextMember, SkipValue, ResponseValue, ResponseIn, Acceptable, AllAcceptable, Lookup, KeyText;
    if ms == [] {
      NextEnd(w, first, tail);
    } else {
      NextNamed(w, ms, first, tail);
      BehindIsBoundary(ms, tail);
      var m := ms[0];
      match Lookup(RESPONSE_KEYS, KeyText(m)) {
        case None =>
          SkipValuePrinted(lib, m.beforeValue, m.value, Behind(ms, tail));
          ResponseMembersPrinted(lib, m.after, ms[1..], false, tail, r);
        case Some((id, _)) =>
          ResponseValuePrinted(lib, id, m.beforeValue, m.value, Behind(ms, tail), r);
          ResponseMembersPrinted(lib, m.after, ms[1..], false, tail, ResponseIn(lib, id, m.value, r));
      }
    }
  }

  lemma ResponsePrinted(lib: NumLib, before: seq<Byte>, v: Value, behind: seq<Byte>)
    requires v.Object? && Valid(v) && AllWs(before) && AllWs(behind)
    ensures DecodeResponse(lib, before + (Print(v) + behind))
         == if AllResponseAcceptable(lib, v.members) then Some(FoldResponse(lib, v.members, NO_RESPONSE)) else None
  {
    hide ResponseMembers, FoldResponse, AllResponseAcceptable, ValidMembers;
    var body := v.blank + (PrintMembers(v.members, true) + ([RBRACE] + behind));
    assert Print(v) + behind == [LBRACE] + body;
    AcceptPrinted(before, LBRACE, body);
    assert ValidMembers(v.members);
    ResponseMembersPrinted(lib, v.blank, v.members, true, behind, NO_RESPONSE);
    SkipWsOver(behind, []);
    assert behind + [] == behind;
  }
}
