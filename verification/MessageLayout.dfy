/** How an encoded message looks, octet by octet: which members in which order, on one line or indented. */
module MessageLayout {
  import opened Bytes
  import opened Json
  import opened Numbers
  import opened Message
  import opened Encode
  import opened EncodeMessage
  import RoundTrip
  import opened Layouts

  /** A new line, two spaces deeper for each object around it; nothing in the compact form. */
  function Margin(indent: bool, depth: nat): seq<Byte>
    requires depth <= 2
  {
    if !indent then [] else if depth == 0 then [10] else if depth == 1 then [10, 32, 32] else [10, 32, 32, 32, 32]
  }

  /** A member: on a line of its own, the name in quotes, a colon and a space, the value. */
  function Entry(name: string, value: seq<Byte>, indent: bool, depth: nat): seq<Byte>
    requires depth <= 2
  {
    Margin(indent, depth) + Quoted(Ascii(name)) + [58] + (if indent then [32] else []) + value
  }

  /** An object of entries, its brace on a line of its own. */
  function Braced(entries: seq<seq<Byte>>, indent: bool, depth: nat): seq<Byte>
    requires depth <= 2
  {
    [123] + WithCommas(entries) + (if entries == [] then [] else Margin(indent, depth)) + [125]
  }

  /** The numbers that are there, in the order of the names. */
  function NumberEntries<F>(lib: NumLib, names: seq<(string, F)>, values: map<F, Double>, indent: bool): seq<seq<Byte>> {
    if names == [] then []
    else
      (if names[0].1 in values then [Entry(names[0].0, FormatDouble(lib, values[names[0].1]), indent, 2)] else [])
      + NumberEntries(lib, names[1..], values, indent)
  }

  const BALL_ORDER: seq<(string, BallField)> := [
    ("Speed", BallSpeed), ("SpinAxis", SpinAxis), ("TotalSpin", TotalSpin), ("BackSpin", BackSpin), ("SideSpin", SideSpin),
    ("HLA", Hla), ("VLA", Vla), ("CarryDistance", CarryDistance)]

  const CLUB_ORDER: seq<(string, ClubField)> := [
    ("Speed", ClubSpeed), ("AngleOfAttack", AngleOfAttack), ("FaceToTarget", FaceToTarget), ("Lie", Lie), ("Loft", Loft),
    ("Path", Path), ("SpeedAtImpact", SpeedAtImpact), ("VerticalFaceImpact", VerticalFaceImpact),
    ("HorizontalFaceImpact", HorizontalFaceImpact), ("ClosureRate", ClosureRate)]

  function OptionEntry(options: map<OptionField, bool>, name: string, f: OptionField, always: bool, indent: bool): seq<seq<Byte>> {
    if always || f in options
    then [Entry(name, if f in options && options[f] then Ascii("true") else Ascii("false"), indent, 2)] else []
  }

  function OptionEntries(options: map<OptionField, bool>, indent: bool): seq<seq<Byte>> {
    OptionEntry(options, "ContainsBallData", ContainsBallData, true, indent)
    + OptionEntry(options, "ContainsClubData", ContainsClubData, true, indent)
    + OptionEntry(options, "LaunchMonitorIsReady", LaunchMonitorIsReady, false, indent)
    + OptionEntry(options, "LaunchMonitorBallDetected", LaunchMonitorBallDetected, false, indent)
    + OptionEntry(options, "IsHeartBeat", IsHeartBeat, false, indent)
  }

  function TextEntry(name: string, text: seq<Byte>, indent: bool): seq<seq<Byte>> {
    if text != [] then [Entry(name, Quoted(text), indent, 1)] else []
  }

  function SectionEntry<F>(lib: NumLib, name: string, order: seq<(string, F)>, values: map<F, Double>, indent: bool): seq<seq<Byte>> {
    if values != map[] then [Entry(name, Braced(NumberEntries(lib, order, values, indent), indent, 1), indent, 1)] else []
  }

  /** The units as they arrived, else by their name. */
  function UnitsWritten(m: Message): seq<Byte> {
    if CStr(m.unitsText) != [] then CStr(m.unitsText)
    else if m.units == Yards then Ascii("Yards")
    else if m.units == Meters then Ascii("Meters")
    else []
  }

  /** A message's members in the order they are sent. */
  function MessageEntries(lib: NumLib, m: Message, indent: bool): seq<seq<Byte>> {
    TextEntry("DeviceID", CStr(m.deviceId), indent)
    + TextEntry("Units", UnitsWritten(m), indent)
    + [Entry("ShotNumber", IntText(m.shotNumber), indent, 1)]
    + TextEntry("APIversion", CStr(m.apiVersion), indent)
    + SectionEntry(lib, "BallData", BALL_ORDER, m.ball, indent)
    + SectionEntry(lib, "ClubData", CLUB_ORDER, m.club, indent)
    + [Entry("ShotDataOptions", Braced(OptionEntries(m.options, indent), indent, 1), indent, 1)]
  }

  // --------------------------------------------------------------------------------------
  // Line by line
  // --------------------------------------------------------------------------------------

  /** The members print as the entries, with commas between them. */
  predicate Written(ms: seq<Json.Member>, entries: seq<seq<Byte>>) {
    && PrintMembers(ms, true) == WithCommas(entries) && |ms| == |entries|
    && (ms != [] ==> ms[|ms| - 1].after == [])
  }

  lemma NoneWritten()
    ensures Written([], [])
  {
  }

  lemma BreakIsMargin(indent: bool, depth: nat)
    requires depth <= 2
    ensures Break(indent, depth) == Margin(indent, depth)
  {
    assert Spaces(0) == [] && Spaces(2) == [32, 32] && Spaces(4) == [32, 32, 32, 32];
  }

  lemma Regrouped(comma: seq<Byte>, a: seq<Byte>, b: seq<Byte>, c: seq<Byte>, d: seq<Byte>, e: seq<Byte>)
    ensures (comma + a + b + c + d) + e == comma + (a + b + c + d + e)
  {
  }

  lemma LineBehind(ms: seq<Json.Member>, entries: seq<seq<Byte>>, name: string, v: Value, value: seq<Byte>, indent: bool, depth: nat)
    requires Written(ms, entries) && Print(v) == value && depth <= 2
    ensures Written(ms + [Line(Ascii(name), v, indent, depth)], entries + [Entry(name, value, indent, depth)])
  {
    hide PrintMembers, WithCommas, Ascii, Break, Margin, EscapeBytes, PrintItems, Print;
    LinePrints(ms, Ascii(name), v, indent, depth);
    CommaBefore(entries, Entry(name, value, indent, depth));
    BreakIsMargin(indent, depth);
    var comma: seq<Byte> := if ms == [] then [] else [COMMA];
    Regrouped(comma, Margin(indent, depth), Quoted(Ascii(name)), [58], Gap(indent), value);
    assert PrintMembers(ms, true) + (comma + Margin(indent, depth) + Quoted(Ascii(name)) + [58] + Gap(indent)) + value
        == PrintMembers(ms, true) + ((comma + Margin(indent, depth) + Quoted(Ascii(name)) + [58] + Gap(indent)) + value);
    var entry := Entry(name, value, indent, depth);
    assert WithCommas(entries) + comma + entry == WithCommas(entries) + (comma + entry);
  }

  /** An object of lines is the entries in braces. */
  lemma BlockBraced(ms: seq<Json.Member>, entries: seq<seq<Byte>>, indent: bool, depth: nat)
    requires Written(ms, entries) && depth <= 2
    ensures Print(Block(ms, indent, depth)) == Braced(entries, indent, depth)
  {
    hide PrintMembers, WithCommas, Break, Margin, Print, Block;
    BlockPrints(ms, indent, depth);
    BreakIsMargin(indent, depth);
  }

  /** A table and an order name the same fields in the same way. */
  ghost predicate SameOrder<F>(tab: seq<Key<F>>, order: seq<(string, F)>) {
    |tab| == |order| && forall i :: 0 <= i < |tab| ==> tab[i].name == Ascii(order[i].0) && tab[i].id == order[i].1
  }

  lemma {:induction false} NumbersWritten<F>(lib: NumLib, tab: seq<Key<F>>, order: seq<(string, F)>, values: map<F, Double>,
                                             indent: bool, ms: seq<Json.Member>, entries: seq<seq<Byte>>)
    requires SameOrder(tab, order) && Written(ms, entries)
    ensures Written(ms + NumberLines(lib, tab, values, indent, 2), entries + NumberEntries(lib, order, values, indent))
    decreases |tab|
  {
    hide Written, FormatDouble, Ascii, Entry, Line;
    if tab == [] {
      assert ms + [] == ms && entries + [] == entries;
    } else {
      var line: seq<Json.Member>, entry := [], [];
      if tab[0].id in values {
        var text := FormatDouble(lib, values[tab[0].id]);
        line, entry := [Line(tab[0].name, Number(text), indent, 2)], [Entry(order[0].0, text, indent, 2)];
        LineBehind(ms, entries, order[0].0, Number(text), text, indent, 2);
      } else {
        assert ms + [] == ms && entries + [] == entries;
      }
      NumbersWritten(lib, tab[1..], order[1..], values, indent, ms + line, entries + entry);
      assert ms + line + NumberLines(lib, tab[1..], values, indent, 2) == ms + NumberLines(lib, tab, values, indent, 2);
      assert entries + entry + NumberEntries(lib, order[1..], values, indent) == entries + NumberEntries(lib, order, values, indent);
    }
  }

  lemma OptionWritten(options: map<OptionField, bool>, name: string, f: OptionField, always: bool, indent: bool,
                      line: seq<Json.Member>, ms: seq<Json.Member>, entries: seq<seq<Byte>>)
    requires Written(ms, entries)
    requires line == if always then [Line(Ascii(name), BoolValue(f in options && options[f]), indent, 2)]
                     else OptionLine(options, Ascii(name), f, indent, 2)
    ensures Written(ms + line, entries + OptionEntry(options, name, f, always, indent))
  {
    hide Written, Entry, Line;
    assert TRUE_TEXT == Ascii("true") && FALSE_TEXT == Ascii("false");
    hide Ascii;
    if always || f in options {
      var b := f in options && options[f];
      LineBehind(ms, entries, name, BoolValue(b), if b then Ascii("true") else Ascii("false"), indent, 2);
    } else {
      assert ms + [] == ms && entries + [] == entries;
    }
  }

  lemma OptionsWritten(options: map<OptionField, bool>, indent: bool)
    ensures Written(OptionLines(options, indent, 2), OptionEntries(options, indent))
  {
    hide Written, Entry, Line, OptionEntry, OptionLine, Ascii, BoolValue;
    NoneWritten();
    var b := [Line(Ascii("ContainsBallData"), BoolValue(ContainsBallData in options && options[ContainsBallData]), indent, 2)];
    var c := [Line(Ascii("ContainsClubData"), BoolValue(ContainsClubData in options && options[ContainsClubData]), indent, 2)];
    var r := OptionLine(options, Ascii("LaunchMonitorIsReady"), LaunchMonitorIsReady, indent, 2);
    var d := OptionLine(options, Ascii("LaunchMonitorBallDetected"), LaunchMonitorBallDetected, indent, 2);
    var h := OptionLine(options, Ascii("IsHeartBeat"), IsHeartBeat, indent, 2);
    var b1 := OptionEntry(options, "ContainsBallData", ContainsBallData, true, indent);
    var c1 := OptionEntry(options, "ContainsClubData", ContainsClubData, true, indent);
    var r1 := OptionEntry(options, "LaunchMonitorIsReady", LaunchMonitorIsReady, false, indent);
    var d1 := OptionEntry(options, "LaunchMonitorBallDetected", LaunchMonitorBallDetected, false, indent);
    OptionWritten(options, "ContainsBallData", ContainsBallData, true, indent, b, [], []);
    assert [] + b == b && [] + b1 == b1;
    OptionWritten(options, "ContainsClubData", ContainsClubData, true, indent, c, b, b1);
    OptionWritten(options, "LaunchMonitorIsReady", LaunchMonitorIsReady, false, indent, r, b + c, b1 + c1);
    OptionWritten(options, "LaunchMonitorBallDetected", LaunchMonitorBallDetected, false, indent, d, b + c + r, b1 + c1 + r1);
    OptionWritten(options, "IsHeartBeat", IsHeartBeat, false, indent, h, b + c + r + d, b1 + c1 + r1 + d1);
  }

  lemma TextWritten(name: string, text: seq<Byte>, indent: bool, ms: seq<Json.Member>, entries: seq<seq<Byte>>)
    requires Written(ms, entries)
    ensures Written(ms + TextLine(Ascii(name), text, indent), entries + TextEntry(name, text, indent))
  {
    hide Written, Entry, Line, Ascii, EscapeBytes, PrintItems;
    if text == [] {
      assert ms + [] == ms && entries + [] == entries;
    } else {
      LineBehind(ms, entries, name, RoundTrip.StringValue(text), Quoted(text), indent, 1);
    }
  }

  lemma SectionWritten<F>(lib: NumLib, name: string, tab: seq<Key<F>>, order: seq<(string, F)>, values: map<F, Double>, indent: bool,
                          ms: seq<Json.Member>, entries: seq<seq<Byte>>)
    requires SameOrder(tab, order) && Written(ms, entries)
    ensures Written(ms + SectionLine(lib, Ascii(name), tab, values, indent), entries + SectionEntry(lib, name, order, values, indent))
  {
    hide Written, Entry, Line, Ascii, NumberLines, NumberEntries, Block, Braced, SameOrder;
    if values == map[] {
      assert ms + [] == ms && entries + [] == entries;
    } else {
      NoneWritten();
      NumbersWritten(lib, tab, order, values, indent, [], []);
      var ls, es := NumberLines(lib, tab, values, indent, 2), NumberEntries(lib, order, values, indent);
      assert [] + ls == ls && [] + es == es;
      BlockBraced(ls, es, indent, 1);
      LineBehind(ms, entries, name, Block(ls, indent, 1), Braced(es, indent, 1), indent, 1);
    }
  }

  lemma OrdersAgree()
    ensures SameOrder(BALL_KEYS, BALL_ORDER) && SameOrder(CLUB_KEYS, CLUB_ORDER)
  {
    hide Ascii;
  }

  lemma HeadWritten(m: Message, indent: bool)
    ensures Written(HeadLines(m, indent),
                    TextEntry("DeviceID", CStr(m.deviceId), indent) + TextEntry("Units", UnitsWritten(m), indent)
                    + [Entry("ShotNumber", IntText(m.shotNumber), indent, 1)] + TextEntry("APIversion", CStr(m.apiVersion), indent))
  {
    hide Written, Entry, Line, Ascii, TextLine, TextEntry, CStr, IntText;
    NoneWritten();
    var d, u := TextLine(DEVICE_ID_NAME, CStr(m.deviceId), indent), TextLine(UNITS_NAME, UnitsSent(m), indent);
    var n := [Line(SHOT_NUMBER_NAME, Number(IntText(m.shotNumber)), indent, 1)];
    var d1, u1 := TextEntry("DeviceID", CStr(m.deviceId), indent), TextEntry("Units", UnitsWritten(m), indent);
    var n1 := [Entry("ShotNumber", IntText(m.shotNumber), indent, 1)];
    TextWritten("DeviceID", CStr(m.deviceId), indent, [], []);
    assert [] + d == d && [] + d1 == d1;
    TextWritten("Units", UnitsSent(m), indent, d, d1);
    LineBehind(d + u, d1 + u1, "ShotNumber", Number(IntText(m.shotNumber)), IntText(m.shotNumber), indent, 1);
    TextWritten("APIversion", CStr(m.apiVersion), indent, d + u + n, d1 + u1 + n1);
  }

  lemma BodyWritten(lib: NumLib, m: Message, indent: bool, ms: seq<Json.Member>, entries: seq<seq<Byte>>)
    requires Written(ms, entries)
    ensures Written(ms + BodyLines(lib, m, indent),
                    entries + SectionEntry(lib, "BallData", BALL_ORDER, m.ball, indent)
                    + SectionEntry(lib, "ClubData", CLUB_ORDER, m.club, indent)
                    + [Entry("ShotDataOptions", Braced(OptionEntries(m.options, indent), indent, 1), indent, 1)])
  {
    hide Written, Entry, Line, Ascii, SectionLine, SectionEntry, OptionLines, OptionEntries, Block, Braced, SameOrder;
    OrdersAgree();
    OptionsWritten(m.options, indent);
    var b := SectionLine(lib, BALL_DATA_NAME, BALL_KEYS, m.ball, indent);
    var c := SectionLine(lib, CLUB_DATA_NAME, CLUB_KEYS, m.club, indent);
    var b1 := SectionEntry(lib, "BallData", BALL_ORDER, m.ball, indent);
    var c1 := SectionEntry(lib, "ClubData", CLUB_ORDER, m.club, indent);
    var o := Block(OptionLines(m.options, indent, 2), indent, 1);
    var o1 := Braced(OptionEntries(m.options, indent), indent, 1);
    BlockBraced(OptionLines(m.options, indent, 2), OptionEntries(m.options, indent), indent, 1);
    SectionWritten(lib, "BallData", BALL_KEYS, BALL_ORDER, m.ball, indent, ms, entries);
    SectionWritten(lib, "ClubData", CLUB_KEYS, CLUB_ORDER, m.club, indent, ms + b, entries + b1);
    LineBehind(ms + b + c, entries + b1 + c1, "ShotDataOptions", o, o1, indent, 1);
    assert ms + b + c + [Line(OPTIONS_NAME, o, indent, 1)] == ms + (b + c + [Line(OPTIONS_NAME, o, indent, 1)]);
  }

  /**
   * An encoded message as it is spelled: what says something of device id, units, shot number,
   * version, ball and club, and always the options, in this order; compact, or a line to each.
   */
  lemma MessageSpelled(lib: NumLib, m: Message, indent: bool)
    ensures MessageText(lib, m, indent) == Braced(MessageEntries(lib, m, indent), indent, 0)
  {
    hide Written, Entry, TextEntry, SectionEntry, HeadLines, BodyLines, Block, Braced, Print, Ascii, CStr, IntText;
    HeadWritten(m, indent);
    var h := HeadLines(m, indent);
    var h1 := TextEntry("DeviceID", CStr(m.deviceId), indent) + TextEntry("Units", UnitsWritten(m), indent)
              + [Entry("ShotNumber", IntText(m.shotNumber), indent, 1)] + TextEntry("APIversion", CStr(m.apiVersion), indent);
    BodyWritten(lib, m, indent, h, h1);
    BlockBraced(h + BodyLines(lib, m, indent), MessageEntries(lib, m, indent), indent, 0);
  }
}
