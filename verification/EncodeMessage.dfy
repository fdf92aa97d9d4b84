/** `gsp_message_encode`: the client's side of the wire, compact or indented, through the same writer. */
module EncodeMessage {
  import opened Bytes
  import opened Json
  import opened Numbers
  import opened Message
  import opened Decode
  import opened Protocol
  import opened Encode
  import opened RoundTrip

  // --------------------------------------------------------------------------------------
  // Integers
  // --------------------------------------------------------------------------------------

  function Digits(n: nat): (r: seq<Byte>)
    ensures r != [] && forall i :: 0 <= i < |r| ==> IsDigit(r[i])
  {
    if n < 10 then [ZERO + n] else Digits(n / 10) + [ZERO + n % 10]
  }

  /** `%lld`. */
  function IntText(n: int): (r: seq<Byte>)
    ensures ValidNumber(r)
  {
    if n < 0 then [MINUS] + Digits(-n) else Digits(n)
  }

  // --------------------------------------------------------------------------------------
  // The JSON that is written
  // --------------------------------------------------------------------------------------

  function Spaces(n: nat): seq<Byte> {
    seq(n, _ => SPACE)
  }

  /** A line's beginning in the indented form; nothing in the compact one. */
  function Break(indent: bool, depth: nat): seq<Byte> {
    if indent then [LF] + Spaces(depth * 2) else []
  }

  function Gap(indent: bool): seq<Byte> {
    if indent then [SPACE] else []
  }

  function Line(name: seq<Byte>, v: Value, indent: bool, depth: nat): Member {
    Member(Break(indent, depth), EscapeBytes(name), [], Gap(indent), v, [])
  }

  /** The last member with `w` behind it. */
  function Trailing(ms: seq<Member>, w: seq<Byte>): (r: seq<Member>)
    ensures |r| == |ms|
  {
    if ms == [] then []
    else if |ms| == 1 then [ms[0].(after := w)]
    else [ms[0]] + Trailing(ms[1..], w)
  }

  /** An object whose closing brace stands on a line of its own when it has members. */
  function Block(ms: seq<Member>, indent: bool, depth: nat): Value {
    Object([], Trailing(ms, Break(indent, depth)))
  }

  /** The fields that are present, in the table's order. */
  function NumberLines<F>(lib: NumLib, tab: seq<Key<F>>, values: map<F, Double>, indent: bool, depth: nat): seq<Member> {
    if tab == [] then []
    else
      (if tab[0].id in values
       then [Line(tab[0].name, Number(FormatDouble(lib, values[tab[0].id])), indent, depth)] else [])
      + NumberLines(lib, tab[1..], values, indent, depth)
  }

  function BoolValue(b: bool): Value {
    if b then True else False
  }

  const CONTAINS_BALL_NAME: seq<Byte> := Ascii("ContainsBallData")
  const CONTAINS_CLUB_NAME: seq<Byte> := Ascii("ContainsClubData")
  const READY_NAME: seq<Byte> := Ascii("LaunchMonitorIsReady")
  const BALL_DETECTED_NAME: seq<Byte> := Ascii("LaunchMonitorBallDetected")
  const HEARTBEAT_NAME: seq<Byte> := Ascii("IsHeartBeat")

  function OptionLine(options: map<OptionField, bool>, name: seq<Byte>, id: OptionField, indent: bool, depth: nat): seq<Member> {
    if id in options then [Line(name, BoolValue(options[id]), indent, depth)] else []
  }

  /** Two options always go out, the others when they are present. */
  function OptionLines(options: map<OptionField, bool>, indent: bool, depth: nat): seq<Member> {
    [Line(CONTAINS_BALL_NAME, BoolValue(Truth(options, ContainsBallData)), indent, depth)]
    + [Line(CONTAINS_CLUB_NAME, BoolValue(Truth(options, ContainsClubData)), indent, depth)]
    + OptionLine(options, READY_NAME, LaunchMonitorIsReady, indent, depth)
    + OptionLine(options, BALL_DETECTED_NAME, LaunchMonitorBallDetected, indent, depth)
    + OptionLine(options, HEARTBEAT_NAME, IsHeartBeat, indent, depth)
  }

  const DEVICE_ID_NAME: seq<Byte> := Ascii("DeviceID")
  const UNITS_NAME: seq<Byte> := Ascii("Units")
  const SHOT_NUMBER_NAME: seq<Byte> := Ascii("ShotNumber")
  const API_VERSION_NAME: seq<Byte> := Ascii("APIversion")
  const BALL_DATA_NAME: seq<Byte> := Ascii("BallData")
  const CLUB_DATA_NAME: seq<Byte> := Ascii("ClubData")
  const OPTIONS_NAME: seq<Byte> := Ascii("ShotDataOptions")

  function UnitsText(units: Units): seq<Byte> {
    match units
    case Yards => Ascii("Yards")
    case Meters => Ascii("Meters")
    case UnitsUnknown => []
  }

  /** The units as they arrived; failing that, the units by name. */
  function UnitsSent(m: Message): seq<Byte> {
    if CStr(m.unitsText) != [] then CStr(m.unitsText) else UnitsText(m.units)
  }

  function TextLine(name: seq<Byte>, text: seq<Byte>, indent: bool): seq<Member> {
    if text == [] then [] else [Line(name, StringValue(text), indent, 1)]
  }

  function SectionLine<F>(lib: NumLib, name: seq<Byte>, tab: seq<Key<F>>, values: map<F, Double>, indent: bool): seq<Member> {
    if values == map[] then []
    else [Line(name, Block(NumberLines(lib, tab, values, indent, 2), indent, 1), indent, 1)]
  }

  /** Who sent it, in which units, and what is asked of the shot number. */
  function HeadLines(m: Message, indent: bool): seq<Member> {
    TextLine(DEVICE_ID_NAME, CStr(m.deviceId), indent)
    + TextLine(UNITS_NAME, UnitsSent(m), indent)
    + [Line(SHOT_NUMBER_NAME, Number(IntText(m.shotNumber)), indent, 1)]
    + TextLine(API_VERSION_NAME, CStr(m.apiVersion), indent)
  }

  function BodyLines(lib: NumLib, m: Message, indent: bool): seq<Member> {
    SectionLine(lib, BALL_DATA_NAME, BALL_KEYS, m.ball, indent)
    + SectionLine(lib, CLUB_DATA_NAME, CLUB_KEYS, m.club, indent)
    + [Line(OPTIONS_NAME, Block(OptionLines(m.options, indent, 2), indent, 1), indent, 1)]
  }

  function MessageJson(lib: NumLib, m: Message, indent: bool): Value {
    Block(HeadLines(m, indent) + BodyLines(lib, m, indent), indent, 0)
  }

  function MessageText(lib: NumLib, m: Message, indent: bool): seq<Byte> {
    Print(MessageJson(lib, m, indent))
  }

  // --------------------------------------------------------------------------------------
  // How it prints
  // --------------------------------------------------------------------------------------

  lemma {:induction false} TrailingPrints(ms: seq<Member>, w: seq<Byte>, first: bool)
    requires ms != [] && ms[|ms| - 1].after == []
    ensures PrintMembers(Trailing(ms, w), first) == PrintMembers(ms, first) + w
    decreases ms
  {
    hide PrintMember, PrintMembers;
    var comma: seq<Byte> := if first then [] else [COMMA];
    if |ms| == 1 {
      assert ms == [ms[0]];
      AfterPrints(ms[0], w);
      OnePrints(ms[0], first);
      OnePrints(ms[0].(after := w), first);
    } else {
      var rest := Trailing(ms[1..], w);
      TrailingPrints(ms[1..], w, false);
      FirstPrints(ms[0], ms[1..], first);
      FirstPrints(ms[0], rest, first);
      assert ms == [ms[0]] + ms[1..];
      assert comma + (PrintMember(ms[0]) + (PrintMembers(ms[1..], false) + w))
          == comma + (PrintMember(ms[0]) + PrintMembers(ms[1..], false)) + w;
    }
  }

  lemma FirstPrints(m: Member, rest: seq<Member>, first: bool)
    ensures PrintMembers([m] + rest, first) == (if first then [] else [COMMA]) + (PrintMember(m) + PrintMembers(rest, false))
  {
    hide PrintMember;
    assert ([m] + rest)[1..] == rest;
  }

  lemma AfterPrints(m: Member, w: seq<Byte>)
    requires m.after == []
    ensures PrintMember(m.(after := w)) == PrintMember(m) + w
  {
    hide Print, PrintString;
    var v := Print(m.value);
    assert v + w == (v + []) + w;
    assert m.beforeValue + (v + w) == (m.beforeValue + (v + [])) + w;
  }

  /** `"name":` as `member()` writes it. */
  function NameOf(name: seq<Byte>, indent: bool, depth: nat, first: bool): seq<Byte> {
    (if first then [] else [COMMA]) + Break(indent, depth) + StringText(name) + [COLON] + Gap(indent)
  }

  lemma LinePrints(ms: seq<Member>, name: seq<Byte>, v: Value, indent: bool, depth: nat)
    ensures PrintMembers(ms + [Line(name, v, indent, depth)], true)
         == PrintMembers(ms, true) + NameOf(name, indent, depth, ms == []) + Print(v)
  {
    hide Print, PrintString, Break, Gap, PrintMembers;
    var line := Line(name, v, indent, depth);
    PrintMembersConcat(ms, [line], true);
    OnePrints(line, ms == []);
    var b, n, g, p := Break(indent, depth), StringText(name), Gap(indent), Print(v);
    assert PrintMember(line) == b + (n + ([] + ([COLON] + (g + (p + [])))));
    assert b + (n + ([] + ([COLON] + (g + (p + []))))) == b + n + [COLON] + g + p;
  }

  lemma OnePrints(m: Member, first: bool)
    ensures PrintMembers([m], first) == (if first then [] else [COMMA]) + PrintMember(m)
  {
    hide PrintMember;
    assert [m][1..] == [];
  }

  lemma NothingPrints(first: bool)
    ensures PrintMembers([], first) == []
  {
  }

  lemma BlockPrints(ms: seq<Member>, indent: bool, depth: nat)
    requires ms != [] ==> ms[|ms| - 1].after == []
    ensures Print(Block(ms, indent, depth))
         == [LBRACE] + PrintMembers(ms, true) + (if ms == [] then [] else Break(indent, depth)) + [RBRACE]
  {
    hide Break, PrintMembers, Trailing, Print, PrintMember;
    var w := Break(indent, depth);
    ObjectPrints(Trailing(ms, w));
    if ms == [] {
      NothingPrints(true);
    } else {
      TrailingPrints(ms, w, true);
      assert [LBRACE] + [] + (PrintMembers(ms, true) + w) == [LBRACE] + PrintMembers(ms, true) + w;
    }
  }

  // --------------------------------------------------------------------------------------
  // The writer
  // --------------------------------------------------------------------------------------

  method WriteBreak(o: Out, indent: bool, depth: nat)
    requires o.Valid()
    modifies o, o.buf
    ensures o.Valid() && o.text == old(o.text) + Break(indent, depth)
  {
    hide o.Valid;
    if !indent {
      return;
    }
    o.Char(LF);
    for i := 0 to depth * 2
      invariant o.Valid() && o.text == old(o.text) + ([LF] + Spaces(i))
    {
      o.Char(SPACE);
      assert Spaces(i + 1) == Spaces(i) + [SPACE];
    }
  }

  method WriteGap(o: Out, indent: bool)
    requires o.Valid()
    modifies o, o.buf
    ensures o.Valid() && o.text == old(o.text) + Gap(indent)
  {
    hide o.Valid;
    if indent {
      o.Char(SPACE);
    }
  }

  lemma Joined(t: seq<Byte>, comma: seq<Byte>, b: seq<Byte>, name: seq<Byte>, gap: seq<Byte>)
    ensures t + comma + b + name + [COLON] + gap == t + (comma + b + name + [COLON] + gap)
  {
  }

  /** An object while its members are being written; `done` are those written so far. */
  class Members {
    const o: Out
    const indent: bool
    const depth: nat
    var first: bool
    ghost var done: seq<Member>
    ghost const start: seq<Byte>

    ghost predicate Valid()
      reads this, o, o.buf
    {
      && o.Valid() && first == (done == []) && (done != [] ==> done[|done| - 1].after == [])
      && o.text == start + PrintMembers(done, true)
    }

    constructor (o: Out, indent: bool, depth: nat)
      requires o.Valid()
      ensures Valid() && done == [] && start == o.text
      ensures this.o == o && this.indent == indent && this.depth == depth
    {
      this.o := o;
      this.indent := indent;
      this.depth := depth;
      first := true;
      done := [];
      start := o.text;
    }

    method Name(name: seq<Byte>)
      requires Valid() && NUL !in name
      modifies this`first, o, o.buf
      ensures o.Valid() && !first
      ensures o.text == old(o.text) + NameOf(name, indent, depth, old(first))
    {
      hide o.Valid, StringText, Break, PrintMembers, Gap, CStr;
      ghost var comma: seq<Byte> := if first then [] else [COMMA];
      Joined(o.text, comma, Break(indent, depth), StringText(name), Gap(indent));
      if !first {
        o.Char(COMMA);
      }
      assert o.text == old(o.text) + comma;
      first := false;
      WriteBreak(o, indent, depth);
      o.JsonString(name);
      o.Char(COLON);
      WriteGap(o, indent);
    }

    /** The value of the last name has been written. */
    ghost method Wrote(name: seq<Byte>, v: Value)
      requires o.Valid() && !first
      requires o.text == start + PrintMembers(done, true) + NameOf(name, indent, depth, done == []) + Print(v)
      modifies this`done
      ensures Valid() && done == old(done) + [Line(name, v, indent, depth)]
    {
      hide o.Valid, NameOf, Print, PrintMembers;
      LinePrints(done, name, v, indent, depth);
      done := done + [Line(name, v, indent, depth)];
    }
  }

  /** `}`, on a line of its own if there are members. */
  method Close(c: Members, depth: nat, ghost before: seq<Byte>)
    requires c.Valid() && c.start == before + [LBRACE]
    modifies c.o, c.o.buf
    ensures c.o.Valid() && c.o.text == before + Print(Block(c.done, c.indent, depth))
  {
    hide c.o.Valid, Print, PrintMembers, Block, Break;
    BlockPrints(c.done, c.indent, depth);
    if !c.first {
      WriteBreak(c.o, c.indent, depth);
    }
    c.o.Char(RBRACE);
  }

  method WriteNumber(c: Members, lib: NumLib, name: seq<Byte>, d: Double)
    requires c.Valid() && NUL !in name
    modifies c, c.o, c.o.buf
    ensures c.Valid() && c.done == old(c.done) + [Line(name, Number(FormatDouble(lib, d)), c.indent, c.depth)]
  {
    hide c.o.Valid, NameOf, PrintMembers, FormatDouble, Line;
    c.Name(name);
    c.o.Double(lib, d);
    c.Wrote(name, Number(FormatDouble(lib, d)));
  }

  method WriteNumbers<F(==)>(o: Out, lib: NumLib, tab: seq<Key<F>>, values: map<F, Double>, indent: bool, depth: nat)
    requires o.Valid() && forall i :: 0 <= i < |tab| ==> NUL !in tab[i].name
    modifies o, o.buf
    ensures o.Valid()
    ensures o.text == old(o.text) + Print(Block(NumberLines(lib, tab, values, indent, depth + 1), indent, depth))
  {
    hide o.Valid, Print, PrintMembers, FormatDouble, Line, Block, Members.Valid;
    o.Char(LBRACE);
    var c := new Members(o, indent, depth + 1);
    ghost var lines := NumberLines(lib, tab, values, indent, depth + 1);
    for i := 0 to |tab|
      invariant c.Valid()
      invariant c.done + NumberLines(lib, tab[i..], values, indent, depth + 1) == lines
    {
      assert tab[i..][1..] == tab[i + 1..];
      if tab[i].id in values {
        WriteNumber(c, lib, tab[i].name, values[tab[i].id]);
      }
    }
    assert c.done == lines;
    Close(c, depth, old(o.text));
  }

  method WriteText(c: Members, name: seq<Byte>, s: seq<Byte>)
    requires c.Valid() && NUL !in name
    modifies c, c.o, c.o.buf
    ensures c.Valid() && c.done == old(c.done) + [Line(name, StringValue(CStr(s)), c.indent, c.depth)]
  {
    hide c.o.Valid, NameOf, PrintMembers, EscapeBytes, CStr, Line;
    c.Name(name);
    c.o.JsonString(s);
    c.Wrote(name, StringValue(CStr(s)));
  }

  method WriteBool(c: Members, name: seq<Byte>, b: bool)
    requires c.Valid() && NUL !in name
    modifies c, c.o, c.o.buf
    ensures c.Valid() && c.done == old(c.done) + [Line(name, BoolValue(b), c.indent, c.depth)]
  {
    hide c.o.Valid, NameOf, PrintMembers, Line;
    c.Name(name);
    c.o.Str(if b then TRUE_TEXT else FALSE_TEXT);
    c.Wrote(name, BoolValue(b));
  }

  /** The names on the wire are C strings. */
  lemma NamesAreStrings()
    ensures forall i :: 0 <= i < |BALL_KEYS| ==> NUL !in BALL_KEYS[i].name
    ensures forall i :: 0 <= i < |CLUB_KEYS| ==> NUL !in CLUB_KEYS[i].name
  {
  }

  method WriteOption(c: Members, options: map<OptionField, bool>, name: seq<Byte>, id: OptionField)
    requires c.Valid() && NUL !in name
    modifies c, c.o, c.o.buf
    ensures c.Valid() && c.done == old(c.done) + OptionLine(options, name, id, c.indent, c.depth)
  {
    hide c.o.Valid, PrintMembers, Line, c.Valid;
    if id in options {
      WriteBool(c, name, options[id]);
    }
  }

  method WriteOptions(o: Out, options: map<OptionField, bool>, indent: bool, depth: nat)
    requires o.Valid()
    modifies o, o.buf
    ensures o.Valid()
    ensures o.text == old(o.text) + Print(Block(OptionLines(options, indent, depth + 1), indent, depth))
  {
    hide o.Valid, Print, PrintMembers, Line, Block, Members.Valid, BoolValue, Truth, OptionLine;
    o.Char(LBRACE);
    var c := new Members(o, indent, depth + 1);
    WriteBool(c, CONTAINS_BALL_NAME, Truth(options, ContainsBallData));
    WriteBool(c, CONTAINS_CLUB_NAME, Truth(options, ContainsClubData));
    WriteOption(c, options, READY_NAME, LaunchMonitorIsReady);
    WriteOption(c, options, BALL_DETECTED_NAME, LaunchMonitorBallDetected);
    WriteOption(c, options, HEARTBEAT_NAME, IsHeartBeat);
    assert c.done == OptionLines(options, indent, depth + 1);
    Close(c, depth, old(o.text));
  }

  lemma StartOf(s: seq<Byte>)
    ensures CStr(s) == [] <==> s == [] || s[0] == NUL
  {
  }

  /** Nothing for an empty string. */
  method WriteTextIf(c: Members, name: seq<Byte>, s: seq<Byte>)
    requires c.Valid() && c.depth == 1 && NUL !in name
    modifies c, c.o, c.o.buf
    ensures c.Valid() && c.done == old(c.done) + TextLine(name, CStr(s), c.indent)
  {
    hide c.Valid, c.o.Valid, CStr, Line, EscapeBytes;
    StartOf(s);
    if s != [] && s[0] != NUL {
      WriteText(c, name, s);
    }
  }

  method UnitsToSend(m: Message) returns (units: seq<Byte>)
    ensures CStr(units) == UnitsSent(m)
  {
    hide CStr;
    StartOf(m.unitsText);
    units := if m.unitsText != [] && m.unitsText[0] != NUL then m.unitsText else UnitsText(m.units);
  }

  method WriteHead(c: Members, m: Message)
    requires c.Valid() && c.depth == 1 && c.done == []
    modifies c, c.o, c.o.buf
    ensures c.Valid() && c.done == HeadLines(m, c.indent)
  {
    hide c.Valid, c.o.Valid, CStr, Line, IntText, TextLine, UnitsSent;
    WriteTextIf(c, DEVICE_ID_NAME, m.deviceId);
    var units := UnitsToSend(m);
    WriteTextIf(c, UNITS_NAME, units);
    WriteInteger(c, SHOT_NUMBER_NAME, m.shotNumber);
    WriteTextIf(c, API_VERSION_NAME, m.apiVersion);
  }

  method WriteInteger(c: Members, name: seq<Byte>, n: int)
    requires c.Valid() && NUL !in name
    modifies c, c.o, c.o.buf
    ensures c.Valid() && c.done == old(c.done) + [Line(name, Number(IntText(n)), c.indent, c.depth)]
  {
    hide c.o.Valid, NameOf, PrintMembers, IntText, Line;
    c.Name(name);
    c.o.Str(IntText(n));
    c.Wrote(name, Number(IntText(n)));
  }

  method WriteSection<F(==)>(c: Members, lib: NumLib, name: seq<Byte>, tab: seq<Key<F>>, values: map<F, Double>)
    requires c.Valid() && c.depth == 1 && NUL !in name && forall i :: 0 <= i < |tab| ==> NUL !in tab[i].name
    modifies c, c.o, c.o.buf
    ensures c.Valid() && c.done == old(c.done) + SectionLine(lib, name, tab, values, c.indent)
  {
    hide c.o.Valid, NameOf, PrintMembers, Line, NumberLines, Block, Print;
    if values != map[] {
      c.Name(name);
      WriteNumbers(c.o, lib, tab, values, c.indent, 1);
      c.Wrote(name, Block(NumberLines(lib, tab, values, c.indent, 2), c.indent, 1));
    }
  }

  method WriteMessage(o: Out, lib: NumLib, m: Message, indent: bool)
    requires o.Valid()
    modifies o, o.buf
    ensures o.Valid() && o.text == old(o.text) + MessageText(lib, m, indent)
  {
    hide o.Valid, Members.Valid, HeadLines, SectionLine, Block, Print, Line, OptionLines;
    NamesAreStrings();
    o.Char(LBRACE);
    var c := new Members(o, indent, 1);
    WriteHead(c, m);
    WriteSection(c, lib, BALL_DATA_NAME, BALL_KEYS, m.ball);
    WriteSection(c, lib, CLUB_DATA_NAME, CLUB_KEYS, m.club);
    WriteOptionsMember(c, m.options);
    assert c.done == HeadLines(m, indent) + BodyLines(lib, m, indent);
    Close(c, 0, old(o.text));
  }

  method WriteOptionsMember(c: Members, options: map<OptionField, bool>)
    requires c.Valid() && c.depth == 1
    modifies c, c.o, c.o.buf
    ensures c.Valid()
    ensures c.done == old(c.done) + [Line(OPTIONS_NAME, Block(OptionLines(options, c.indent, 2), c.indent, 1), c.indent, 1)]
  {
    hide c.o.Valid, NameOf, PrintMembers, Line, OptionLines, Block, Print;
    c.Name(OPTIONS_NAME);
    WriteOptions(c.o, options, c.indent, 1);
    c.Wrote(OPTIONS_NAME, Block(OptionLines(options, c.indent, 2), c.indent, 1));
  }

  /** `t` and a terminator at the front of a buffer that held `was`. */
  predicate Stored(now: seq<Byte>, was: seq<Byte>, t: seq<Byte>) {
    |t| < |was| && now == t + [NUL] + was[|t| + 1..]
  }

  function MessageEncodeStatus(lib: NumLib, m: Message, indent: bool, room: nat): Status {
    if room == 0 then InvalidArg
    else if |MessageText(lib, m, indent)| + 1 > room then BufferTooSmall
    else Ok
  }

  method MeasureMessage(lib: NumLib, m: Message, indent: bool) returns (size: nat)
    ensures size == |MessageText(lib, m, indent)|
  {
    hide MessageText;
    var probe := new Out(null, 0);
    WriteMessage(probe, lib, m, indent);
    size := probe.used;
    assert probe.text == [] + MessageText(lib, m, indent);
  }

  method StoreMessage(lib: NumLib, m: Message, indent: bool, out: array<Byte>) returns (written: nat)
    requires |MessageText(lib, m, indent)| + 1 <= out.Length
    modifies out
    ensures written == |MessageText(lib, m, indent)|
    ensures Stored(out[..], old(out[..]), MessageText(lib, m, indent))
  {
    hide MessageText;
    var store := new Out(out, out.Length - 1);
    ghost var t := MessageText(lib, m, indent);
    WriteMessage(store, lib, m, indent);
    assert store.text == [] + t == t;
    written := store.used;
    out[written] := NUL;
    assert out[..written] == t;
    assert out[..] == out[..written] + [out[written]] + out[written + 1..];
  }

  /** Encodes into `out`, or leaves it untouched: the measuring pass decides which. */
  method MessageEncode(lib: NumLib, m: Message, indent: bool, out: array<Byte>) returns (status: Status, written: nat)
    modifies out
    ensures status == MessageEncodeStatus(lib, m, indent, out.Length)
    ensures status == Ok ==>
              && written == |MessageText(lib, m, indent)|
              && Stored(out[..], old(out[..]), MessageText(lib, m, indent))
    ensures status != Ok ==> out[..] == old(out[..])
  {
    hide MessageText;
    if out.Length == 0 {
      return InvalidArg, 0;
    }
    var size := MeasureMessage(lib, m, indent);
    if size + 1 > out.Length {
      return BufferTooSmall, 0;
    }
    written := StoreMessage(lib, m, indent, out);
    return Ok, written;
  }
}
