/**
 * What `gsp_message_encode` writes, `gsp_message_decode` reads back: in either form the same message,
 * cut to the decoder's fields, with the numbers JSON can spell.
 */
module MessageRoundTrip {
  import opened Bytes
  import opened Json
  import opened Text
  import opened Numbers
  import opened Message
  import opened Reader
  import opened Decode
  import opened DecodeJson
  import opened Encode
  import opened RoundTrip
  import opened EncodeMessage
  import Frame
  import FrameJson

  // --------------------------------------------------------------------------------------
  // Integers
  // --------------------------------------------------------------------------------------

  predicate IsInt64(n: int) {
    INT64_MIN <= n <= INT64_MAX
  }

  /** How `strtod` reads the integer `n`: whole, as an integral double, and as `n` if that is a double. */
  predicate ReadsInteger(lib: NumLib, n: int) {
    var r := lib.strtod(IntText(n));
    && r.used == |IntText(n)| && r.value.Finite? && lib.isDouble(r.value.v) && IsIntegral(r.value)
    && (lib.isDouble(n as real) ==> r.value.v == n as real)
  }

  /**
   * What is assumed of `strtod` on the integers of 64 bits, the smallest of which is a double and
   * the largest of which rounds up.
   */
  ghost predicate RoundsIntegers(lib: NumLib) {
    && (forall n :: IsInt64(n) ==> ReadsInteger(lib, n))
    && lib.isDouble(INT64_MIN as real)
    && lib.strtod(IntText(INT64_MAX)).value == Finite(INT64_MAX as real + 1.0)
  }

  function Power10(k: nat): nat {
    if k == 0 then 1 else 10 * Power10(k - 1)
  }

  lemma {:induction false} DigitsShort(n: nat, k: nat)
    requires k > 0 && n < Power10(k)
    ensures |Digits(n)| <= k
    decreases k
  {
    if n >= 10 {
      DigitsShort(n / 10, k - 1);
    }
  }

  lemma TwentyDigits()
    ensures Power10(20) == 100000000000000000000
  {
    assert Power10(4) == 10000;
    assert Power10(8) == 100000000;
    assert Power10(12) == 1000000000000;
    assert Power10(16) == 10000000000000000;
  }

  lemma IntTextReadable(lib: NumLib, n: int)
    requires IsInt64(n) && RoundsIntegers(lib)
    ensures Readable(lib, IntText(n))
  {
    hide Digits;
    assert ReadsInteger(lib, n);
    TwentyDigits();
    DigitsShort(if n < 0 then -n else n, 20);
  }

  /** The shot number that comes back is the one that went out exactly when it is a double, or the largest of all. */
  lemma ShotNumberReadsBack(lib: NumLib, n: int)
    requires IsInt64(n) && RoundsIntegers(lib)
    ensures ClampInt64(lib.strtod(IntText(n)).value) == n <==> lib.isDouble(n as real) || n == INT64_MAX
  {
    hide IntText;
    assert ReadsInteger(lib, n);
    assert ReadsInteger(lib, INT64_MIN);
  }

  // --------------------------------------------------------------------------------------
  // What comes back
  // --------------------------------------------------------------------------------------

  function NumberBack(d: Double): Double {
    if d.Finite? then d else ZERO_DOUBLE
  }

  function NumbersBack<F>(values: map<F, Double>): map<F, Double> {
    map id | id in values :: NumberBack(values[id])
  }

  function OptionsBack(options: map<OptionField, bool>): map<OptionField, bool> {
    options[ContainsBallData := Truth(options, ContainsBallData)][ContainsClubData := Truth(options, ContainsClubData)]
  }

  predicate Cut(m: Message) {
    |CStr(m.deviceId)| >= DEVICE_ID_MAX || |UnitsSent(m)| >= UNITS_TEXT_MAX || |CStr(m.apiVersion)| >= API_VERSION_MAX
  }

  function HaveBack(m: Message): set<RootKey> {
    {ShotNumberKey, OptionsKey}
    + (if CStr(m.deviceId) == [] then {} else {DeviceIdKey})
    + (if UnitsSent(m) == [] then {} else {UnitsKey})
    + (if CStr(m.apiVersion) == [] then {} else {ApiVersionKey})
    + (if m.ball == map[] then {} else {BallDataKey})
    + (if m.club == map[] then {} else {ClubDataKey})
  }

  function DraftBack(lib: NumLib, m: Message): Draft {
    Draft(Field(DEVICE_ID_MAX, CStr(m.deviceId)), Field(UNITS_TEXT_MAX, UnitsSent(m)),
          Field(API_VERSION_MAX, CStr(m.apiVersion)), ClampInt64(lib.strtod(IntText(m.shotNumber)).value),
          NumbersBack(m.ball), NumbersBack(m.club), OptionsBack(m.options), HaveBack(m),
          if Cut(m) then {StringTruncated} else {}, 0)
  }

  /** The numbers a C message holds: 64-bit integers and doubles. */
  ghost predicate Numeric(lib: NumLib, m: Message) {
    && IsInt64(m.shotNumber)
    && (forall id | id in m.ball :: Representable(lib, m.ball[id]))
    && (forall id | id in m.club :: Representable(lib, m.club[id]))
  }

  // --------------------------------------------------------------------------------------
  // Keys
  // --------------------------------------------------------------------------------------

  predicate Distinct<T>(tab: seq<Key<T>>) {
    forall i, j :: 0 <= i < j < |tab| ==> tab[i].name != tab[j].name
  }

  lemma {:induction false} FindOwn<T>(tab: seq<Key<T>>, i: nat)
    requires Distinct(tab) && i < |tab|
    ensures FindKey(tab, tab[i].name, true) == Some(tab[i].id)
    decreases |tab|
  {
    if i > 0 {
      assert tab[1..][i - 1] == tab[i];
      FindOwn(tab[1..], i - 1);
    }
  }

  /** The entries of `tab` are found in `whole` under their own names. */
  predicate Keyed<T(==)>(whole: seq<Key<T>>, tab: seq<Key<T>>) {
    forall i :: 0 <= i < |tab| ==> IsName(tab[i].name) && Lookup(whole, tab[i].name) == Some((tab[i].id, false))
  }

  lemma AllKeyed<T>(tab: seq<Key<T>>)
    requires Distinct(tab) && forall i :: 0 <= i < |tab| ==> IsName(tab[i].name)
    ensures Keyed(tab, tab)
  {
    hide IsName;
    forall i | 0 <= i < |tab|
      ensures Lookup(tab, tab[i].name) == Some((tab[i].id, false))
    {
      FindOwn(tab, i);
    }
  }

  /** Length and two octets of a name, enough to tell the names of each table apart. */
  function Sign(name: seq<Byte>): int
    requires |name| > 1
  {
    var a: int, b: int := name[0], if |name| > 8 then name[8] else name[1];
    |name| * 65536 + a * 256 + b
  }

  lemma SignsTell<T>(tab: seq<Key<T>>, signs: seq<int>)
    requires |signs| == |tab| && forall i :: 0 <= i < |tab| ==> Signed(tab[i].name, signs[i])
    requires forall i, j :: 0 <= i < j < |signs| ==> signs[i] != signs[j]
    ensures Keyed(tab, tab)
  {
    hide IsName, Sign, Keyed;
    forall i, j | 0 <= i < j < |tab|
      ensures tab[i].name != tab[j].name
    {
      assert Signed(tab[i].name, signs[i]) && Signed(tab[j].name, signs[j]);
    }
    forall i | 0 <= i < |tab|
      ensures IsName(tab[i].name)
    {
      assert Signed(tab[i].name, signs[i]);
    }
    AllKeyed(tab);
  }

  predicate Signed(name: seq<Byte>, sign: int) {
    IsName(name) && |name| > 1 && Sign(name) == sign
  }

  /** A word of ASCII letters is a name. */
  lemma WordIsName(s: string, sign: int)
    requires 1 < |s| < KEY_MAX && forall i :: 0 <= i < |s| ==> 'A' <= s[i] <= 'Z' || 'a' <= s[i] <= 'z'
    requires sign == |s| * 65536 + s[0] as int * 256 + (if |s| > 8 then s[8] else s[1]) as int
    ensures Signed(Ascii(s), sign)
  {
  }

  lemma BallKeyed()
    ensures Keyed(BALL_KEYS, BALL_KEYS)
  {
    hide Keyed, Signed, Ascii;
    WordIsName("Speed", 349040);
    WordIsName("SpinAxis", 545648);
    WordIsName("TotalSpin", 611438);
    WordIsName("BackSpin", 541281);
    WordIsName("SideSpin", 545641);
    WordIsName("HLA", 215116);
    WordIsName("VLA", 218700);
    WordIsName("CarryDistance", 869236);
    SignsTell(BALL_KEYS, [349040, 545648, 611438, 541281, 545641, 215116, 218700, 869236]);
  }

  lemma ClubWords()
    ensures Signed(Ascii("Speed"), 349040)
    ensures Signed(Ascii("AngleOfAttack"), 868724)
    ensures Signed(Ascii("FaceToTarget"), 804466)
    ensures Signed(Ascii("Lie"), 216169)
    ensures Signed(Ascii("Loft"), 281711)
    ensures Signed(Ascii("Path"), 282721)
  {
    hide Signed, Ascii;
    WordIsName("Speed", 349040);
    WordIsName("AngleOfAttack", 868724);
    WordIsName("FaceToTarget", 804466);
    WordIsName("Lie", 216169);
    WordIsName("Loft", 281711);
    WordIsName("Path", 282721);
  }

  lemma ImpactWords()
    ensures Signed(Ascii("SpeedAtImpact"), 873325)
    ensures Signed(Ascii("VerticalFaceImpact"), 1201734)
    ensures Signed(Ascii("HorizontalFaceImpact"), 1329249)
    ensures Signed(Ascii("ClosureRate"), 738145)
  {
    hide Signed, Ascii;
    WordIsName("SpeedAtImpact", 873325);
    WordIsName("VerticalFaceImpact", 1201734);
    WordIsName("HorizontalFaceImpact", 1329249);
    WordIsName("ClosureRate", 738145);
  }

  lemma ClubKeyed()
    ensures Keyed(CLUB_KEYS, CLUB_KEYS)
  {
    hide Keyed, Signed, Ascii;
    ClubWords();
    ImpactWords();
    SignsTell(CLUB_KEYS, [349040, 868724, 804466, 216169, 281711, 282721, 873325, 1201734, 1329249, 738145]);
  }

  lemma OptionsKeyed()
    ensures Keyed(OPTION_KEYS, OPTION_KEYS)
  {
    hide Keyed, Signed, Ascii;
    WordIsName("ContainsBallData", 1065794);
    WordIsName("ContainsClubData", 1065795);
    WordIsName("LaunchMonitorIsReady", 1330286);
    WordIsName("LaunchMonitorBallDetected", 1657966);
    WordIsName("IsHeartBeat", 739685);
    SignsTell(OPTION_KEYS, [1065794, 1065795, 1330286, 1657966, 739685]);
  }

  lemma RootKeyed()
    ensures Keyed(ROOT_KEYS, ROOT_KEYS)
  {
    hide Keyed, Signed, Ascii;
    WordIsName("DeviceID", 541797);
    WordIsName("Units", 349550);
    WordIsName("ShotNumber", 676709);
    WordIsName("APIversion", 672111);
    WordIsName("BallData", 541281);
    WordIsName("ClubData", 541548);
    WordIsName("ShotDataOptions", 1004367);
    SignsTell(ROOT_KEYS, [541797, 349550, 676709, 672111, 541281, 541548, 1004367]);
  }

  lemma LineIsValid(name: seq<Byte>, v: Value, indent: bool, depth: nat)
    requires IsName(name) && Valid(v)
    ensures ValidMember(Line(name, v, indent, depth)) && KeyText(Line(name, v, indent, depth)) == name
  {
    EscapeBytesMean(name);
  }

  // --------------------------------------------------------------------------------------
  // Whitespace behind the last member changes nothing
  // --------------------------------------------------------------------------------------

  lemma {:induction false} TrailingValid(lib: NumLib, ms: seq<Member>, w: seq<Byte>)
    requires ValidMembers(ms) && AllWs(w)
    ensures ValidMembers(Trailing(ms, w))
    ensures AllAcceptable(lib, Trailing(ms, w)) == AllAcceptable(lib, ms)
    decreases ms
  {
    hide Acceptable;
    if |ms| > 1 {
      assert Trailing(ms, w)[1..] == Trailing(ms[1..], w);
      TrailingValid(lib, ms[1..], w);
    } else if |ms| == 1 {
      assert Trailing(ms, w)[1..] == [] == ms[1..];
    }
  }

  lemma {:induction false} TrailingNumbers<F>(lib: NumLib, tab: seq<Key<F>>, ms: seq<Member>, w: seq<Byte>, t: Tally<F, Double>)
    requires ValidMembers(ms) && ValidMembers(Trailing(ms, w))
    ensures FoldNumbers(lib, tab, Trailing(ms, w), t) == FoldNumbers(lib, tab, ms, t)
    decreases ms
  {
    hide Lookup, KeyText, NumberIn;
    if ms != [] {
      var u := match Lookup(tab, KeyText(ms[0]))
               case None => t.(unknown := CountUnknown(t.unknown))
               case Some((id, mismatch)) => Enter(t, id, mismatch, NumberIn(lib, ms[0].value));
      assert KeyText(Trailing(ms, w)[0]) == KeyText(ms[0]) by { SameKey(Trailing(ms, w)[0], ms[0]); }
      if |ms| > 1 {
        assert Trailing(ms, w)[1..] == Trailing(ms[1..], w);
        TrailingNumbers(lib, tab, ms[1..], w, u);
      } else {
        assert Trailing(ms, w)[1..] == [] == ms[1..];
      }
    }
  }

  lemma SameKey(a: Member, b: Member)
    requires ValidItems(a.key) && a.key == b.key
    ensures KeyText(a) == KeyText(b)
  {
  }

  lemma {:induction false} TrailingOptions(lib: NumLib, ms: seq<Member>, w: seq<Byte>, t: Tally<OptionField, bool>)
    requires ValidMembers(ms) && ValidMembers(Trailing(ms, w))
    ensures FoldOptions(lib, Trailing(ms, w), t) == FoldOptions(lib, ms, t)
    decreases ms
  {
    hide Lookup, KeyText, BoolIn;
    if ms != [] {
      var u := match Lookup(OPTION_KEYS, KeyText(ms[0]))
               case None => t.(unknown := CountUnknown(t.unknown))
               case Some((id, mismatch)) => Enter(t, id, mismatch, BoolIn(lib, ms[0].value));
      assert KeyText(Trailing(ms, w)[0]) == KeyText(ms[0]) by { SameKey(Trailing(ms, w)[0], ms[0]); }
      if |ms| > 1 {
        assert Trailing(ms, w)[1..] == Trailing(ms[1..], w);
        TrailingOptions(lib, ms[1..], w, u);
      } else {
        assert Trailing(ms, w)[1..] == [] == ms[1..];
      }
    }
  }

  lemma {:induction false} TrailingRoot(lib: NumLib, ms: seq<Member>, w: seq<Byte>, d: Draft)
    requires ValidMembers(ms) && ValidMembers(Trailing(ms, w))
    ensures FoldRoot(lib, Trailing(ms, w), d) == FoldRoot(lib, ms, d)
    ensures AllRootAcceptable(lib, Trailing(ms, w)) == AllRootAcceptable(lib, ms)
    decreases ms
  {
    hide Lookup, KeyText, RootIn, Acceptable, AllAcceptable;
    if ms != [] {
      var e := match Lookup(ROOT_KEYS, KeyText(ms[0]))
               case None => d.(unknown := CountUnknown(d.unknown))
               case Some((id, mismatch)) =>
                 RootIn(lib, id, ms[0].value, d.(flags := Noted(d.flags, mismatch, KeyCaseMismatch)));
      assert KeyText(Trailing(ms, w)[0]) == KeyText(ms[0]) by { SameKey(Trailing(ms, w)[0], ms[0]); }
      if |ms| > 1 {
        assert Trailing(ms, w)[1..] == Trailing(ms[1..], w);
        TrailingRoot(lib, ms[1..], w, e);
      } else {
        assert Trailing(ms, w)[1..] == [] == ms[1..];
      }
    }
  }

  lemma BreakIsWs(indent: bool, depth: nat)
    ensures AllWs(Break(indent, depth)) && AllWs(Gap(indent))
  {
  }

  // --------------------------------------------------------------------------------------
  // Sections
  // --------------------------------------------------------------------------------------

  /** `base` with the values of the fields in `tab` that are present put in. */
  function Overlaid<F>(tab: seq<Key<F>>, values: map<F, Double>, base: map<F, Double>): map<F, Double> {
    if tab == [] then base
    else
      Overlaid(tab[1..], values, if tab[0].id in values then base[tab[0].id := NumberBack(values[tab[0].id])] else base)
  }

  predicate Listed<F(==)>(tab: seq<Key<F>>, id: F) {
    exists i :: 0 <= i < |tab| && tab[i].id == id
  }

  lemma {:induction false} OverlaidAt<F>(tab: seq<Key<F>>, values: map<F, Double>, base: map<F, Double>, id: F)
    ensures var r := Overlaid(tab, values, base);
            && (id in r <==> (Listed(tab, id) && id in values) || id in base)
            && (id in r ==> r[id] == if Listed(tab, id) && id in values then NumberBack(values[id]) else base[id])
    decreases |tab|
  {
    hide NumberBack;
    if tab != [] {
      OverlaidAt(tab[1..], values, if tab[0].id in values then base[tab[0].id := NumberBack(values[tab[0].id])] else base, id);
      if Listed(tab, id) && tab[0].id != id {
        var i :| 0 <= i < |tab| && tab[i].id == id;
        assert tab[1..][i - 1].id == id;
      }
      if Listed(tab[1..], id) {
        var i :| 0 <= i < |tab[1..]| && tab[1..][i].id == id;
        assert tab[i + 1].id == id;
      }
    }
  }

  lemma OverlaidAll<F(!new)>(tab: seq<Key<F>>, values: map<F, Double>)
    requires forall id | id in values :: Listed(tab, id)
    ensures Overlaid(tab, values, map[]) == NumbersBack(values)
  {
    hide Listed, NumberBack, Overlaid;
    var r, b := Overlaid(tab, values, map[]), NumbersBack(values);
    forall id
      ensures id in r <==> id in b
      ensures id in r ==> r[id] == b[id]
    {
      OverlaidAt(tab, values, map[], id);
    }
    assert r == b;
  }

  lemma EveryBallListed()
    ensures forall id: BallField :: Listed(BALL_KEYS, id)
  {
    forall id: BallField
      ensures Listed(BALL_KEYS, id)
    {
      var i := match id
        case BallSpeed => 0 case SpinAxis => 1 case TotalSpin => 2 case BackSpin => 3
        case SideSpin => 4 case Hla => 5 case Vla => 6 case CarryDistance => 7;
      assert BALL_KEYS[i].id == id;
    }
  }

  lemma EveryClubListed()
    ensures forall id: ClubField :: Listed(CLUB_KEYS, id)
  {
    forall id: ClubField
      ensures Listed(CLUB_KEYS, id)
    {
      var i := match id
        case ClubSpeed => 0 case AngleOfAttack => 1 case FaceToTarget => 2 case Lie => 3 case Loft => 4
        case Path => 5 case SpeedAtImpact => 6 case VerticalFaceImpact => 7 case HorizontalFaceImpact => 8
        case ClosureRate => 9;
      assert CLUB_KEYS[i].id == id;
    }
  }

  lemma {:induction false} NumberLinesFold<F>(lib: NumLib, whole: seq<Key<F>>, tab: seq<Key<F>>, values: map<F, Double>,
                                              indent: bool, depth: nat, t: Tally<F, Double>)
    requires Sound(lib) && Keyed(whole, tab) && forall id | id in values :: Representable(lib, values[id])
    ensures var ms := NumberLines(lib, tab, values, indent, depth);
            && ValidMembers(ms) && AllAcceptable(lib, ms)
            && FoldNumbers(lib, whole, ms, t) == t.(values := Overlaid(tab, values, t.values))
    decreases |tab|
  {
    hide Lookup, IsName, FormatDouble, Line, KeyText, Sound, Readable, Representable;
    if tab != [] {
      var ms := NumberLines(lib, tab, values, indent, depth);
      var rest := NumberLines(lib, tab[1..], values, indent, depth);
      assert Keyed(whole, tab[1..]);
      var id := tab[0].id;
      if id in values {
        NumberLineReads(lib, tab[0].name, values[id], indent, depth);
        assert ms[1..] == rest;
        NumberLinesFold(lib, whole, tab[1..], values, indent, depth, t.(values := t.values[id := NumberBack(values[id])]));
      } else {
        assert ms == rest;
        NumberLinesFold(lib, whole, tab[1..], values, indent, depth, t);
      }
    }
  }

  lemma NumberLineReads(lib: NumLib, name: seq<Byte>, d: Double, indent: bool, depth: nat)
    requires Sound(lib) && IsName(name) && Representable(lib, d)
    ensures var m := Line(name, Number(FormatDouble(lib, d)), indent, depth);
            && ValidMember(m) && KeyText(m) == name && Acceptable(lib, m.value)
            && NumberIn(lib, m.value) == Read(NumberBack(d), false, [])
  {
    hide IsName;
    FormatReadsBack(lib, d);
    LineIsValid(name, Number(FormatDouble(lib, d)), indent, depth);
  }

  /** A written section, opened and read. */
  lemma NumbersRead<F(!new)>(lib: NumLib, tab: seq<Key<F>>, values: map<F, Double>, indent: bool, flags: set<Flag>, unknown: nat)
    requires Sound(lib) && Keyed(tab, tab) && forall id | id in values :: Representable(lib, values[id]) && Listed(tab, id)
    ensures var v := Block(NumberLines(lib, tab, values, indent, 2), indent, 1);
            && Valid(v) && AllAcceptable(lib, v.members)
            && FoldNumbers(lib, tab, v.members, Tally(map[], flags, unknown)) == Tally(NumbersBack(values), flags, unknown)
  {
    hide NumberLines, Keyed, Representable, Listed, Overlaid, FoldNumbers, AllAcceptable, Break, Trailing;
    var ms, w := NumberLines(lib, tab, values, indent, 2), Break(indent, 1);
    NumberLinesFold(lib, tab, tab, values, indent, 2, Tally(map[], flags, unknown));
    OverlaidAll(tab, values);
    BreakIsWs(indent, 1);
    TrailingValid(lib, ms, w);
    TrailingNumbers(lib, tab, ms, w, Tally(map[], flags, unknown));
  }

  lemma {:induction false} FoldOptionsConcat(lib: NumLib, a: seq<Member>, b: seq<Member>, t: Tally<OptionField, bool>)
    requires ValidMembers(a) && ValidMembers(b)
    ensures ValidMembers(a + b)
    ensures FoldOptions(lib, a + b, t) == FoldOptions(lib, b, FoldOptions(lib, a, t))
    ensures AllAcceptable(lib, a) && AllAcceptable(lib, b) ==> AllAcceptable(lib, a + b)
    decreases a
  {
    hide Lookup, KeyText, BoolIn, Acceptable;
    ValidConcat(a, b);
    if a == [] {
      assert a + b == b;
    } else {
      assert (a + b)[1..] == a[1..] + b;
      FoldOptionsConcat(lib, a[1..], b, match Lookup(OPTION_KEYS, KeyText(a[0]))
                                        case None => t.(unknown := CountUnknown(t.unknown))
                                        case Some((id, mismatch)) => Enter(t, id, mismatch, BoolIn(lib, a[0].value)));
    }
  }

  /** Reading `ms` turns `t` into `u`. */
  ghost predicate OptionsGive(lib: NumLib, ms: seq<Member>, t: Tally<OptionField, bool>, u: Tally<OptionField, bool>) {
    ValidMembers(ms) && AllAcceptable(lib, ms) && FoldOptions(lib, ms, t) == u
  }

  lemma OptionsGiveBoth(lib: NumLib, a: seq<Member>, b: seq<Member>, t: Tally<OptionField, bool>,
                        u: Tally<OptionField, bool>, x: Tally<OptionField, bool>)
    requires OptionsGive(lib, a, t, u) && OptionsGive(lib, b, u, x)
    ensures OptionsGive(lib, a + b, t, x)
  {
    hide FoldOptions, ValidMembers, AllAcceptable;
    FoldOptionsConcat(lib, a, b, t);
  }

  lemma BoolLineReads(lib: NumLib, name: seq<Byte>, id: OptionField, b: bool, indent: bool, t: Tally<OptionField, bool>)
    requires IsName(name) && Lookup(OPTION_KEYS, name) == Some((id, false))
    ensures OptionsGive(lib, [Line(name, BoolValue(b), indent, 2)], t, t.(values := t.values[id := b]))
  {
    hide IsName, Lookup, KeyText;
    var m := Line(name, BoolValue(b), indent, 2);
    LineIsValid(name, BoolValue(b), indent, 2);
    assert [m][1..] == [];
    assert AllAcceptable(lib, [m][1..]);
    assert BoolIn(lib, m.value) == Read(b, false, []);
    assert FoldOptions(lib, [m], t) == FoldOptions(lib, [m][1..], Enter(t, id, false, BoolIn(lib, m.value)));
    assert Noted(Noted(t.flags, false, KeyCaseMismatch), false, TypeCoerced) == t.flags;
  }

  lemma OptionLineReads(lib: NumLib, options: map<OptionField, bool>, name: seq<Byte>, id: OptionField, indent: bool,
                        t: Tally<OptionField, bool>)
    requires IsName(name) && Lookup(OPTION_KEYS, name) == Some((id, false))
    ensures OptionsGive(lib, OptionLine(options, name, id, indent, 2), t,
                        if id in options then t.(values := t.values[id := options[id]]) else t)
  {
    hide IsName, Lookup, Line;
    if id in options {
      BoolLineReads(lib, name, id, options[id], indent, t);
    }
  }

  lemma OptionNames()
    ensures IsName(CONTAINS_BALL_NAME) && Lookup(OPTION_KEYS, CONTAINS_BALL_NAME) == Some((ContainsBallData, false))
    ensures IsName(CONTAINS_CLUB_NAME) && Lookup(OPTION_KEYS, CONTAINS_CLUB_NAME) == Some((ContainsClubData, false))
    ensures IsName(READY_NAME) && Lookup(OPTION_KEYS, READY_NAME) == Some((LaunchMonitorIsReady, false))
    ensures IsName(BALL_DETECTED_NAME) && Lookup(OPTION_KEYS, BALL_DETECTED_NAME) == Some((LaunchMonitorBallDetected, false))
    ensures IsName(HEARTBEAT_NAME) && Lookup(OPTION_KEYS, HEARTBEAT_NAME) == Some((IsHeartBeat, false))
  {
    hide IsName, Lookup, Ascii;
    OptionsKeyed();
    assert OPTION_KEYS[0].name == CONTAINS_BALL_NAME && OPTION_KEYS[1].name == CONTAINS_CLUB_NAME;
    assert OPTION_KEYS[2].name == READY_NAME && OPTION_KEYS[3].name == BALL_DETECTED_NAME;
    assert OPTION_KEYS[4].name == HEARTBEAT_NAME;
  }

  function With(options: map<OptionField, bool>, id: OptionField, base: map<OptionField, bool>): map<OptionField, bool> {
    if id in options then base[id := options[id]] else base
  }

  lemma OptionLinesRead(lib: NumLib, options: map<OptionField, bool>, indent: bool, flags: set<Flag>, unknown: nat)
    ensures OptionsGive(lib, OptionLines(options, indent, 2), Tally(map[], flags, unknown), Tally(OptionsBack(options), flags, unknown))
  {
    hide OptionsGive, Line, BoolValue, OptionLine, IsName, Lookup, OptionsBack, Truth;
    OptionNames();
    var a, b := Truth(options, ContainsBallData), Truth(options, ContainsClubData);
    var t := Tally(map[], flags, unknown);
    var m1 := map[ContainsBallData := a];
    var m2 := m1[ContainsClubData := b];
    var m3 := With(options, LaunchMonitorIsReady, m2);
    var m4 := With(options, LaunchMonitorBallDetected, m3);
    var m5 := With(options, IsHeartBeat, m4);
    var l1 := [Line(CONTAINS_BALL_NAME, BoolValue(a), indent, 2)];
    var l2 := [Line(CONTAINS_CLUB_NAME, BoolValue(b), indent, 2)];
    var l3 := OptionLine(options, READY_NAME, LaunchMonitorIsReady, indent, 2);
    var l4 := OptionLine(options, BALL_DETECTED_NAME, LaunchMonitorBallDetected, indent, 2);
    var l5 := OptionLine(options, HEARTBEAT_NAME, IsHeartBeat, indent, 2);
    BoolLineReads(lib, CONTAINS_BALL_NAME, ContainsBallData, a, indent, t);
    assert t.values[ContainsBallData := a] == m1;
    BoolLineReads(lib, CONTAINS_CLUB_NAME, ContainsClubData, b, indent, t.(values := m1));
    OptionsGiveBoth(lib, l1, l2, t, t.(values := m1), t.(values := m2));
    OptionLineReads(lib, options, READY_NAME, LaunchMonitorIsReady, indent, t.(values := m2));
    OptionsGiveBoth(lib, l1 + l2, l3, t, t.(values := m2), t.(values := m3));
    OptionLineReads(lib, options, BALL_DETECTED_NAME, LaunchMonitorBallDetected, indent, t.(values := m3));
    OptionsGiveBoth(lib, l1 + l2 + l3, l4, t, t.(values := m3), t.(values := m4));
    OptionLineReads(lib, options, HEARTBEAT_NAME, IsHeartBeat, indent, t.(values := m4));
    OptionsGiveBoth(lib, l1 + l2 + l3 + l4, l5, t, t.(values := m4), t.(values := m5));
    FiveOptions(options, m5);
  }

  lemma FiveOptions(options: map<OptionField, bool>, m5: map<OptionField, bool>)
    requires m5 == With(options, IsHeartBeat, With(options, LaunchMonitorBallDetected, With(options, LaunchMonitorIsReady,
                     map[ContainsBallData := Truth(options, ContainsBallData)][ContainsClubData := Truth(options, ContainsClubData)])))
    ensures m5 == OptionsBack(options)
  {
    var b := OptionsBack(options);
    forall id: OptionField
      ensures id in m5 <==> id in b
      ensures id in m5 ==> m5[id] == b[id]
    {
      match id
      case ContainsBallData =>
      case ContainsClubData =>
      case LaunchMonitorIsReady =>
      case LaunchMonitorBallDetected =>
      case IsHeartBeat =>
    }
    assert m5 == b;
  }

  lemma OptionsRead(lib: NumLib, options: map<OptionField, bool>, indent: bool, flags: set<Flag>, unknown: nat)
    ensures OptionsGive(lib, Trailing(OptionLines(options, indent, 2), Break(indent, 1)),
                        Tally(map[], flags, unknown), Tally(OptionsBack(options), flags, unknown))
  {
    hide OptionLines, FoldOptions, AllAcceptable, Break, Trailing, OptionsBack;
    var ms, w := OptionLines(options, indent, 2), Break(indent, 1);
    OptionLinesRead(lib, options, indent, flags, unknown);
    BreakIsWs(indent, 1);
    TrailingValid(lib, ms, w);
    TrailingOptions(lib, ms, w, Tally(map[], flags, unknown));
  }

  // --------------------------------------------------------------------------------------
  // The message
  // --------------------------------------------------------------------------------------

  lemma {:induction false} FoldRootConcat(lib: NumLib, a: seq<Member>, b: seq<Member>, d: Draft)
    requires ValidMembers(a) && ValidMembers(b)
    ensures ValidMembers(a + b)
    ensures FoldRoot(lib, a + b, d) == FoldRoot(lib, b, FoldRoot(lib, a, d))
    ensures AllRootAcceptable(lib, a) && AllRootAcceptable(lib, b) ==> AllRootAcceptable(lib, a + b)
    decreases a
  {
    hide Lookup, KeyText, RootIn, RootAcceptable;
    ValidConcat(a, b);
    if a == [] {
      assert a + b == b;
    } else {
      assert (a + b)[1..] == a[1..] + b;
      FoldRootConcat(lib, a[1..], b,
                     match Lookup(ROOT_KEYS, KeyText(a[0]))
                     case None => d.(unknown := CountUnknown(d.unknown))
                     case Some((id, mismatch)) =>
                       RootIn(lib, id, a[0].value, d.(flags := Noted(d.flags, mismatch, KeyCaseMismatch))));
    }
  }

  /** Reading `ms` turns `d` into `e`. */
  ghost predicate RootGives(lib: NumLib, ms: seq<Member>, d: Draft, e: Draft) {
    ValidMembers(ms) && AllRootAcceptable(lib, ms) && FoldRoot(lib, ms, d) == e
  }

  lemma RootGivesBoth(lib: NumLib, a: seq<Member>, b: seq<Member>, d: Draft, e: Draft, f: Draft)
    requires RootGives(lib, a, d, e) && RootGives(lib, b, e, f)
    ensures RootGives(lib, a + b, d, f)
  {
    hide FoldRoot, ValidMembers, AllRootAcceptable;
    FoldRootConcat(lib, a, b, d);
  }

  lemma RootLineReads(lib: NumLib, name: seq<Byte>, v: Value, id: RootKey, indent: bool, d: Draft)
    requires IsName(name) && Lookup(ROOT_KEYS, name) == Some((id, false)) && Valid(v)
    requires if IsSection(id) && v.Object? then AllAcceptable(lib, v.members) else Acceptable(lib, v)
    ensures RootGives(lib, [Line(name, v, indent, 1)], d, RootIn(lib, id, v, d))
  {
    hide IsName, Lookup, KeyText, RootIn, Acceptable, AllAcceptable;
    var m := Line(name, v, indent, 1);
    LineIsValid(name, v, indent, 1);
    assert [m][1..] == [];
    assert AllRootAcceptable(lib, [m][1..]);
    assert d.(flags := Noted(d.flags, false, KeyCaseMismatch)) == d;
    assert FoldRoot(lib, [m], d) == FoldRoot(lib, [m][1..], RootIn(lib, id, v, d));
  }

  lemma TextLineReads(lib: NumLib, name: seq<Byte>, text: seq<Byte>, id: RootKey, indent: bool, d: Draft)
    requires IsName(name) && Lookup(ROOT_KEYS, name) == Some((id, false)) && !IsSection(id)
    ensures RootGives(lib, TextLine(name, text, indent), d, if text == [] then d else RootIn(lib, id, StringValue(text), d))
  {
    hide IsName, Lookup, RootIn, Line, EscapeBytes;
    if text != [] {
      RootLineReads(lib, name, StringValue(text), id, indent, d);
    }
  }

  lemma RootNames()
    ensures IsName(DEVICE_ID_NAME) && Lookup(ROOT_KEYS, DEVICE_ID_NAME) == Some((DeviceIdKey, false))
    ensures IsName(UNITS_NAME) && Lookup(ROOT_KEYS, UNITS_NAME) == Some((UnitsKey, false))
    ensures IsName(SHOT_NUMBER_NAME) && Lookup(ROOT_KEYS, SHOT_NUMBER_NAME) == Some((ShotNumberKey, false))
    ensures IsName(API_VERSION_NAME) && Lookup(ROOT_KEYS, API_VERSION_NAME) == Some((ApiVersionKey, false))
    ensures IsName(BALL_DATA_NAME) && Lookup(ROOT_KEYS, BALL_DATA_NAME) == Some((BallDataKey, false))
    ensures IsName(CLUB_DATA_NAME) && Lookup(ROOT_KEYS, CLUB_DATA_NAME) == Some((ClubDataKey, false))
    ensures IsName(OPTIONS_NAME) && Lookup(ROOT_KEYS, OPTIONS_NAME) == Some((OptionsKey, false))
  {
    hide IsName, Lookup, Ascii;
    RootKeyed();
    assert ROOT_KEYS[0].name == DEVICE_ID_NAME && ROOT_KEYS[1].name == UNITS_NAME;
    assert ROOT_KEYS[2].name == SHOT_NUMBER_NAME && ROOT_KEYS[3].name == API_VERSION_NAME;
    assert ROOT_KEYS[4].name == BALL_DATA_NAME && ROOT_KEYS[5].name == CLUB_DATA_NAME;
    assert ROOT_KEYS[6].name == OPTIONS_NAME;
  }

  /** A text member of `size` octets has been read as `id`. */
  function Taken(d: Draft, text: seq<Byte>, size: nat, id: RootKey): Draft {
    d.(have := d.have + (if text == [] then {} else {id}), flags := Noted(d.flags, |text| >= size, StringTruncated))
  }

  lemma DeviceIdReads(lib: NumLib, text: seq<Byte>, indent: bool, d: Draft)
    requires NUL !in text && d.deviceId == []
    ensures RootGives(lib, TextLine(DEVICE_ID_NAME, text, indent), d,
                      Taken(d, text, DEVICE_ID_MAX, DeviceIdKey).(deviceId := Field(DEVICE_ID_MAX, text)))
  {
    hide IsName, Lookup, TextLine, StringIn, StringValue, RootGives;
    RootNames();
    TextLineReads(lib, DEVICE_ID_NAME, text, DeviceIdKey, indent, d);
    StringInEscaped(text, DEVICE_ID_MAX);
    assert d.have + {} == d.have;
  }

  lemma UnitsRead(lib: NumLib, text: seq<Byte>, indent: bool, d: Draft)
    requires NUL !in text && d.unitsText == []
    ensures RootGives(lib, TextLine(UNITS_NAME, text, indent), d,
                      Taken(d, text, UNITS_TEXT_MAX, UnitsKey).(unitsText := Field(UNITS_TEXT_MAX, text)))
  {
    hide IsName, Lookup, TextLine, StringIn, StringValue, RootGives;
    RootNames();
    TextLineReads(lib, UNITS_NAME, text, UnitsKey, indent, d);
    StringInEscaped(text, UNITS_TEXT_MAX);
    assert d.have + {} == d.have;
  }

  lemma ApiVersionReads(lib: NumLib, text: seq<Byte>, indent: bool, d: Draft)
    requires NUL !in text && d.apiVersion == []
    ensures RootGives(lib, TextLine(API_VERSION_NAME, text, indent), d,
                      Taken(d, text, API_VERSION_MAX, ApiVersionKey).(apiVersion := Field(API_VERSION_MAX, text)))
  {
    hide IsName, Lookup, TextLine, StringIn, StringValue, RootGives;
    RootNames();
    TextLineReads(lib, API_VERSION_NAME, text, ApiVersionKey, indent, d);
    StringInEscaped(text, API_VERSION_MAX);
    assert d.have + {} == d.have;
  }

  lemma ShotNumberIn(lib: NumLib, n: int, d: Draft)
    requires ReadsInteger(lib, n)
    ensures RootIn(lib, ShotNumberKey, Number(IntText(n)), d)
         == d.(shotNumber := ClampInt64(lib.strtod(IntText(n)).value), have := d.have + {ShotNumberKey})
  {
    hide IntText, ClampInt64, IsIntegral;
  }

  lemma ShotNumberReads(lib: NumLib, n: int, indent: bool, d: Draft)
    requires IsInt64(n) && RoundsIntegers(lib)
    ensures RootGives(lib, [Line(SHOT_NUMBER_NAME, Number(IntText(n)), indent, 1)], d,
                      d.(shotNumber := ClampInt64(lib.strtod(IntText(n)).value), have := d.have + {ShotNumberKey}))
  {
    RootNames();
    IntTextReadable(lib, n);
    assert ReadsInteger(lib, n);
    hide IsName, Lookup, RootGives, IntText, ClampInt64, RoundsIntegers, ReadsInteger, Line, RootIn, Readable;
    ShotNumberIn(lib, n, d);
    RootLineReads(lib, SHOT_NUMBER_NAME, Number(IntText(n)), ShotNumberKey, indent, d);
  }

  /** Once the head has been read. */
  function HeadBack(lib: NumLib, m: Message): Draft {
    DraftBack(lib, m).(ball := map[], club := map[], options := map[],
                       have := HaveBack(m) - {BallDataKey, ClubDataKey, OptionsKey})
  }

  lemma HeadReads(lib: NumLib, m: Message, indent: bool)
    requires IsInt64(m.shotNumber) && RoundsIntegers(lib)
    ensures RootGives(lib, HeadLines(m, indent), BLANK, HeadBack(lib, m))
  {
    hide RootGives, TextLine, Line, CStr, Field, IntText, ClampInt64, RoundsIntegers, UnitsSent, HeadBack;
    var id, units, api := CStr(m.deviceId), UnitsSent(m), CStr(m.apiVersion);
    UnitsAreText(m);
    var d1 := Taken(BLANK, id, DEVICE_ID_MAX, DeviceIdKey).(deviceId := Field(DEVICE_ID_MAX, id));
    var d2 := Taken(d1, units, UNITS_TEXT_MAX, UnitsKey).(unitsText := Field(UNITS_TEXT_MAX, units));
    var d3 := d2.(shotNumber := ClampInt64(lib.strtod(IntText(m.shotNumber)).value), have := d2.have + {ShotNumberKey});
    var d4 := Taken(d3, api, API_VERSION_MAX, ApiVersionKey).(apiVersion := Field(API_VERSION_MAX, api));
    var l1, l2 := TextLine(DEVICE_ID_NAME, id, indent), TextLine(UNITS_NAME, units, indent);
    var l3 := [Line(SHOT_NUMBER_NAME, Number(IntText(m.shotNumber)), indent, 1)];
    var l4 := TextLine(API_VERSION_NAME, api, indent);
    HeadIs(lib, m, d1, d2, d3, d4);
    DeviceIdReads(lib, id, indent, BLANK);
    UnitsRead(lib, units, indent, d1);
    ShotNumberReads(lib, m.shotNumber, indent, d2);
    ApiVersionReads(lib, api, indent, d3);
    hide Taken;
    RootGivesBoth(lib, l1, l2, BLANK, d1, d2);
    RootGivesBoth(lib, l1 + l2, l3, BLANK, d2, d3);
    RootGivesBoth(lib, l1 + l2 + l3, l4, BLANK, d3, d4);
  }

  lemma HeadIs(lib: NumLib, m: Message, d1: Draft, d2: Draft, d3: Draft, d4: Draft)
    requires d1 == Taken(BLANK, CStr(m.deviceId), DEVICE_ID_MAX, DeviceIdKey).(deviceId := Field(DEVICE_ID_MAX, CStr(m.deviceId)))
    requires d2 == Taken(d1, UnitsSent(m), UNITS_TEXT_MAX, UnitsKey).(unitsText := Field(UNITS_TEXT_MAX, UnitsSent(m)))
    requires d3 == d2.(shotNumber := ClampInt64(lib.strtod(IntText(m.shotNumber)).value), have := d2.have + {ShotNumberKey})
    requires d4 == Taken(d3, CStr(m.apiVersion), API_VERSION_MAX, ApiVersionKey).(apiVersion := Field(API_VERSION_MAX, CStr(m.apiVersion)))
    ensures d4 == HeadBack(lib, m)
  {
    hide CStr, Field, IntText, ClampInt64, UnitsSent, NumbersBack, OptionsBack;
    assert d4.have == HeadBack(lib, m).have;
    assert d4.flags == HeadBack(lib, m).flags;
  }

  lemma UnitsAreText(m: Message)
    ensures NUL !in UnitsSent(m)
  {
  }

  lemma BallReads(lib: NumLib, m: Message, indent: bool, d: Draft)
    requires Sound(lib) && Numeric(lib, m) && d.ball == map[]
    ensures RootGives(lib, SectionLine(lib, BALL_DATA_NAME, BALL_KEYS, m.ball, indent), d,
                      d.(ball := NumbersBack(m.ball), have := d.have + if m.ball == map[] then {} else {BallDataKey}))
  {
    hide IsName, Lookup, Line, Block, NumberLines, FoldNumbers, AllAcceptable, Keyed, Listed, FoldRoot, AllRootAcceptable,
         ValidMembers, Representable, Sound;
    RootNames();
    BallKeyed();
    EveryBallListed();
    NumbersRead(lib, BALL_KEYS, m.ball, indent, d.flags, d.unknown);
    var v := Block(NumberLines(lib, BALL_KEYS, m.ball, indent, 2), indent, 1);
    if m.ball == map[] {
      NothingGives(lib, d);
      assert NumbersBack(m.ball) == map[];
      assert d.have + {} == d.have;
    } else {
      IsBlock(NumberLines(lib, BALL_KEYS, m.ball, indent, 2), indent);
      RootLineReads(lib, BALL_DATA_NAME, v, BallDataKey, indent, d);
    }
  }

  lemma ClubReads(lib: NumLib, m: Message, indent: bool, d: Draft)
    requires Sound(lib) && Numeric(lib, m) && d.club == map[]
    ensures RootGives(lib, SectionLine(lib, CLUB_DATA_NAME, CLUB_KEYS, m.club, indent), d,
                      d.(club := NumbersBack(m.club), have := d.have + if m.club == map[] then {} else {ClubDataKey}))
  {
    hide IsName, Lookup, Line, Block, NumberLines, FoldNumbers, AllAcceptable, Keyed, Listed, FoldRoot, AllRootAcceptable,
         ValidMembers, Representable, Sound;
    RootNames();
    ClubKeyed();
    EveryClubListed();
    NumbersRead(lib, CLUB_KEYS, m.club, indent, d.flags, d.unknown);
    var v := Block(NumberLines(lib, CLUB_KEYS, m.club, indent, 2), indent, 1);
    if m.club == map[] {
      NothingGives(lib, d);
      assert NumbersBack(m.club) == map[];
      assert d.have + {} == d.have;
    } else {
      IsBlock(NumberLines(lib, CLUB_KEYS, m.club, indent, 2), indent);
      RootLineReads(lib, CLUB_DATA_NAME, v, ClubDataKey, indent, d);
    }
  }

  lemma NothingGives(lib: NumLib, d: Draft)
    ensures RootGives(lib, [], d, d)
  {
  }

  lemma IsBlock(ms: seq<Member>, indent: bool)
    ensures Block(ms, indent, 1) == Object([], Trailing(ms, Break(indent, 1)))
  {
  }

  lemma OptionsReadIn(lib: NumLib, options: map<OptionField, bool>, indent: bool, d: Draft)
    requires d.options == map[]
    ensures RootGives(lib, [Line(OPTIONS_NAME, Block(OptionLines(options, indent, 2), indent, 1), indent, 1)], d,
                      d.(options := OptionsBack(options), have := d.have + {OptionsKey}))
  {
    hide IsName, Lookup, Line, Trailing, OptionLines, FoldOptions, AllAcceptable, FoldRoot, AllRootAcceptable,
         OptionsBack, Break;
    RootNames();
    OptionsRead(lib, options, indent, d.flags, d.unknown);
    RootLineReads(lib, OPTIONS_NAME, Block(OptionLines(options, indent, 2), indent, 1), OptionsKey, indent, d);
  }

  lemma BodyReads(lib: NumLib, m: Message, indent: bool)
    requires Sound(lib) && Numeric(lib, m)
    ensures RootGives(lib, BodyLines(lib, m, indent), HeadBack(lib, m), DraftBack(lib, m))
  {
    hide RootGives, SectionLine, Line, Block, OptionLines, Numeric, Sound, NumbersBack, OptionsBack, CStr, Field,
         UnitsSent, ClampInt64;
    var d0 := HeadBack(lib, m);
    var d1 := d0.(ball := NumbersBack(m.ball), have := d0.have + (if m.ball == map[] then {} else {BallDataKey}));
    var d2 := d1.(club := NumbersBack(m.club), have := d1.have + (if m.club == map[] then {} else {ClubDataKey}));
    var d3 := d2.(options := OptionsBack(m.options), have := d2.have + {OptionsKey});
    var l1, l2 := SectionLine(lib, BALL_DATA_NAME, BALL_KEYS, m.ball, indent), SectionLine(lib, CLUB_DATA_NAME, CLUB_KEYS, m.club, indent);
    var l3 := [Line(OPTIONS_NAME, Block(OptionLines(m.options, indent, 2), indent, 1), indent, 1)];
    BallReads(lib, m, indent, d0);
    ClubReads(lib, m, indent, d1);
    RootGivesBoth(lib, l1, l2, d0, d1, d2);
    OptionsReadIn(lib, m.options, indent, d2);
    RootGivesBoth(lib, l1 + l2, l3, d0, d2, d3);
    assert d3.have == DraftBack(lib, m).have;
  }

  /**
   * Whatever message is encoded, compact or indented, decoding it succeeds and gives back its fields,
   * strings cut to the decoder's, numbers JSON cannot spell as zero and the shot number as a double.
   */
  lemma EncodedDecodes(lib: NumLib, m: Message, indent: bool)
    requires Sound(lib) && RoundsIntegers(lib) && Numeric(lib, m)
    ensures DecodeMessage(lib, MessageText(lib, m, indent))
         == Some(Finish(DraftBack(lib, m), |MessageText(lib, m, indent)|))
  {
    hide Sound, RoundsIntegers, HeadLines, BodyLines, FoldRoot, ValidMembers, AllRootAcceptable, Print, Finish, DecodeMessage,
         HeadBack, DraftBack, Break, Trailing;
    var ms, w := HeadLines(m, indent) + BodyLines(lib, m, indent), Break(indent, 0);
    HeadReads(lib, m, indent);
    BodyReads(lib, m, indent);
    RootGivesBoth(lib, HeadLines(m, indent), BodyLines(lib, m, indent), BLANK, HeadBack(lib, m), DraftBack(lib, m));
    BreakIsWs(indent, 0);
    TrailingValid(lib, ms, w);
    TrailingRoot(lib, ms, w, BLANK);
    var v := MessageJson(lib, m, indent);
    assert [] + (Print(v) + []) == Print(v);
    MessagePrinted(lib, [], v, []);
  }

  predicate SameContent(a: Message, b: Message) {
    && a.deviceId == b.deviceId && a.unitsText == b.unitsText && a.apiVersion == b.apiVersion
    && a.shotNumber == b.shotNumber && a.ball == b.ball && a.club == b.club && a.options == b.options
  }

  predicate Fits(s: seq<Byte>, size: nat) {
    NUL !in s && |s| < size
  }

  predicate AllFinite<F(!new)>(values: map<F, Double>) {
    forall id | id in values :: values[id].Finite?
  }

  lemma FitsExactly(s: seq<Byte>, size: nat)
    requires size > 0
    ensures Field(size, CStr(s)) == s <==> Fits(s, size)
  {
  }

  lemma FiniteExactly<F(!new)>(values: map<F, Double>)
    ensures NumbersBack(values) == values <==> AllFinite(values)
  {
    var b := NumbersBack(values);
    if b == values {
      forall id | id in values
        ensures values[id].Finite?
      {
        assert b[id] == values[id];
      }
    }
  }

  lemma UnitsExactly(m: Message)
    ensures Field(UNITS_TEXT_MAX, UnitsSent(m)) == m.unitsText
       <==> Fits(m.unitsText, UNITS_TEXT_MAX) && (m.unitsText == [] ==> m.units == UnitsUnknown)
  {
    hide CStr;
    StartOf(m.unitsText);
    FitsExactly(m.unitsText, UNITS_TEXT_MAX);
  }

  lemma OptionsExactly(options: map<OptionField, bool>)
    ensures OptionsBack(options) == options <==> ContainsBallData in options && ContainsClubData in options
  {
    var b := OptionsBack(options);
    if ContainsBallData in options && ContainsClubData in options {
      assert b.Keys == options.Keys;
      assert forall id | id in b :: b[id] == options[id];
    }
  }

  /**
   * The message that comes back says what the encoded one said exactly when its strings fit the
   * decoder's fields, units are given as they arrived, both required options are there, every
   * number is finite and the shot number is a double or the largest of all.
   */
  lemma EncodedDecodesExactly(lib: NumLib, m: Message, indent: bool)
    requires Sound(lib) && RoundsIntegers(lib) && Numeric(lib, m)
    ensures DecodeMessage(lib, MessageText(lib, m, indent)).Some?
    ensures SameContent(DecodeMessage(lib, MessageText(lib, m, indent)).value, m)
       <==> && Fits(m.deviceId, DEVICE_ID_MAX) && Fits(m.apiVersion, API_VERSION_MAX) && Fits(m.unitsText, UNITS_TEXT_MAX)
            && (m.unitsText == [] ==> m.units == UnitsUnknown)
            && ContainsBallData in m.options && ContainsClubData in m.options
            && AllFinite(m.ball) && AllFinite(m.club)
            && (lib.isDouble(m.shotNumber as real) || m.shotNumber == INT64_MAX)
  {
    hide Sound, RoundsIntegers, MessageText, DecodeMessage, Field, CStr, UnitsSent, NumbersBack, OptionsBack, ClampInt64, IntText,
         Fits, AllFinite, NotedAll, Findings;
    EncodedDecodes(lib, m, indent);
    FitsExactly(m.deviceId, DEVICE_ID_MAX);
    FitsExactly(m.apiVersion, API_VERSION_MAX);
    UnitsExactly(m);
    OptionsExactly(m.options);
    FiniteExactly(m.ball);
    FiniteExactly(m.club);
    ShotNumberReadsBack(lib, m.shotNumber);
  }

  /** An encoded message is one whole object to the framer. */
  lemma MessageIsObject(lib: NumLib, m: Message, indent: bool)
    requires Sound(lib) && RoundsIntegers(lib) && Numeric(lib, m)
    ensures Frame.IsObject(MessageText(lib, m, indent))
  {
    hide Sound, RoundsIntegers, HeadLines, BodyLines, FoldRoot, ValidMembers, AllRootAcceptable, Print, HeadBack, DraftBack,
         Break, Trailing, Frame.IsObject, Height;
    var ms, w := HeadLines(m, indent) + BodyLines(lib, m, indent), Break(indent, 0);
    HeadReads(lib, m, indent);
    BodyReads(lib, m, indent);
    RootGivesBoth(lib, HeadLines(m, indent), BodyLines(lib, m, indent), BLANK, HeadBack(lib, m), DraftBack(lib, m));
    BreakIsWs(indent, 0);
    TrailingValid(lib, ms, w);
    MessageHeight(lib, m, indent);
    FrameJson.PrintedObject(MessageJson(lib, m, indent));
  }

  lemma {:induction false} TrailingHeight(ms: seq<Member>, w: seq<Byte>)
    ensures MembersHeight(Trailing(ms, w)) == MembersHeight(ms)
    decreases ms
  {
    hide Height;
    if |ms| > 1 {
      assert Trailing(ms, w)[1..] == Trailing(ms[1..], w);
      TrailingHeight(ms[1..], w);
    } else if |ms| == 1 {
      assert Trailing(ms, w)[1..] == [] == ms[1..];
    }
  }

  lemma LineHeight(name: seq<Byte>, v: Value, indent: bool, depth: nat)
    ensures MembersHeight([Line(name, v, indent, depth)]) == Height(v)
  {
    HeightOne(Line(name, v, indent, depth));
  }

  lemma BlockHeight(ms: seq<Member>, indent: bool, depth: nat)
    ensures Height(Block(ms, indent, depth)) == 1 + MembersHeight(ms)
  {
    TrailingHeight(ms, Break(indent, depth));
  }

  lemma {:induction false} NumbersHeight<F>(lib: NumLib, tab: seq<Key<F>>, values: map<F, Double>, indent: bool)
    ensures MembersHeight(NumberLines(lib, tab, values, indent, 2)) == 0
    decreases |tab|
  {
    hide Line, FormatDouble;
    if tab == [] {
      NoHeight();
    } else {
      NumbersHeight(lib, tab[1..], values, indent);
      if tab[0].id in values {
        LineHeight(tab[0].name, Number(FormatDouble(lib, values[tab[0].id])), indent, 2);
        HeightConcat([Line(tab[0].name, Number(FormatDouble(lib, values[tab[0].id])), indent, 2)],
                     NumberLines(lib, tab[1..], values, indent, 2));
      } else {
        assert [] + NumberLines(lib, tab[1..], values, indent, 2) == NumberLines(lib, tab[1..], values, indent, 2);
      }
    }
  }

  lemma OptionHeight(options: map<OptionField, bool>, name: seq<Byte>, id: OptionField, indent: bool)
    ensures MembersHeight(OptionLine(options, name, id, indent, 2)) == 0
  {
    hide Line;
    NoHeight();
    if id in options {
      LineHeight(name, BoolValue(options[id]), indent, 2);
    }
  }

  lemma OptionsHeight(options: map<OptionField, bool>, indent: bool)
    ensures MembersHeight(OptionLines(options, indent, 2)) == 0
  {
    hide Line, OptionLine, MembersHeight, Truth;
    var a, b := BoolValue(Truth(options, ContainsBallData)), BoolValue(Truth(options, ContainsClubData));
    var l1, l2 := [Line(CONTAINS_BALL_NAME, a, indent, 2)], [Line(CONTAINS_CLUB_NAME, b, indent, 2)];
    var l3 := OptionLine(options, READY_NAME, LaunchMonitorIsReady, indent, 2);
    var l4 := OptionLine(options, BALL_DETECTED_NAME, LaunchMonitorBallDetected, indent, 2);
    LineHeight(CONTAINS_BALL_NAME, a, indent, 2);
    LineHeight(CONTAINS_CLUB_NAME, b, indent, 2);
    OptionHeight(options, READY_NAME, LaunchMonitorIsReady, indent);
    OptionHeight(options, BALL_DETECTED_NAME, LaunchMonitorBallDetected, indent);
    OptionHeight(options, HEARTBEAT_NAME, IsHeartBeat, indent);
    HeightConcat(l1, l2);
    HeightConcat(l1 + l2, l3);
    HeightConcat(l1 + l2 + l3, l4);
    HeightConcat(l1 + l2 + l3 + l4, OptionLine(options, HEARTBEAT_NAME, IsHeartBeat, indent, 2));
  }

  lemma TextHeight(name: seq<Byte>, text: seq<Byte>, indent: bool)
    ensures MembersHeight(TextLine(name, text, indent)) == 0
  {
    hide Line;
    NoHeight();
    LineHeight(name, StringValue(text), indent, 1);
  }

  lemma SectionHeight<F>(lib: NumLib, name: seq<Byte>, tab: seq<Key<F>>, values: map<F, Double>, indent: bool)
    ensures MembersHeight(SectionLine(lib, name, tab, values, indent)) <= 1
  {
    hide Line, Block, NumberLines;
    NoHeight();
    NumbersHeight(lib, tab, values, indent);
    BlockHeight(NumberLines(lib, tab, values, indent, 2), indent, 1);
    LineHeight(name, Block(NumberLines(lib, tab, values, indent, 2), indent, 1), indent, 1);
  }

  lemma HeadHeight(m: Message, indent: bool)
    ensures MembersHeight(HeadLines(m, indent)) == 0
  {
    hide Line, TextLine, MembersHeight, CStr, UnitsSent, IntText;
    var l1, l2 := TextLine(DEVICE_ID_NAME, CStr(m.deviceId), indent), TextLine(UNITS_NAME, UnitsSent(m), indent);
    var l3 := [Line(SHOT_NUMBER_NAME, Number(IntText(m.shotNumber)), indent, 1)];
    TextHeight(DEVICE_ID_NAME, CStr(m.deviceId), indent);
    TextHeight(UNITS_NAME, UnitsSent(m), indent);
    LineHeight(SHOT_NUMBER_NAME, Number(IntText(m.shotNumber)), indent, 1);
    TextHeight(API_VERSION_NAME, CStr(m.apiVersion), indent);
    HeightConcat(l1, l2);
    HeightConcat(l1 + l2, l3);
    HeightConcat(l1 + l2 + l3, TextLine(API_VERSION_NAME, CStr(m.apiVersion), indent));
  }

  lemma MessageHeight(lib: NumLib, m: Message, indent: bool)
    ensures Height(MessageJson(lib, m, indent)) <= 2
  {
    hide Line, Block, SectionLine, HeadLines, OptionLines, MembersHeight, Height;
    var l1, l2 := SectionLine(lib, BALL_DATA_NAME, BALL_KEYS, m.ball, indent), SectionLine(lib, CLUB_DATA_NAME, CLUB_KEYS, m.club, indent);
    var o := Block(OptionLines(m.options, indent, 2), indent, 1);
    HeadHeight(m, indent);
    SectionHeight(lib, BALL_DATA_NAME, BALL_KEYS, m.ball, indent);
    SectionHeight(lib, CLUB_DATA_NAME, CLUB_KEYS, m.club, indent);
    OptionsHeight(m.options, indent);
    BlockHeight(OptionLines(m.options, indent, 2), indent, 1);
    LineHeight(OPTIONS_NAME, o, indent, 1);
    HeightConcat(l1, l2);
    HeightConcat(l1 + l2, [Line(OPTIONS_NAME, o, indent, 1)]);
    HeightConcat(HeadLines(m, indent), BodyLines(lib, m, indent));
    BlockHeight(HeadLines(m, indent) + BodyLines(lib, m, indent), indent, 0);
  }

  // --------------------------------------------------------------------------------------
  // Messages that were decoded
  // --------------------------------------------------------------------------------------

  /** `strtod` answers doubles. */
  ghost predicate YieldsDoubles(lib: NumLib) {
    forall s :: Representable(lib, lib.strtod(s).value)
  }

  predicate Doubles<F(!new)>(lib: NumLib, values: map<F, Double>) {
    forall id | id in values :: Representable(lib, values[id])
  }

  /** What the decoder's draft always is, whatever the bytes. */
  predicate Tidy(lib: NumLib, d: Draft) {
    && Fits(d.deviceId, DEVICE_ID_MAX) && Fits(d.unitsText, UNITS_TEXT_MAX) && Fits(d.apiVersion, API_VERSION_MAX)
    && IsInt64(d.shotNumber) && (d.unitsText != [] ==> UnitsKey in d.have)
    && Doubles(lib, d.ball) && Doubles(lib, d.club)
  }

  lemma NumberMemberDoubles(lib: NumLib, s: seq<Byte>)
    requires YieldsDoubles(lib)
    ensures NumberMember(lib, s).Read? ==> Representable(lib, NumberMember(lib, s).value)
  {
    hide SkipValue, ReadLiteral, ReadString, CStr, Field, KindOf, Representable;
  }

  lemma {:induction false} NumericMembersDoubles<F(!new)>(lib: NumLib, tab: seq<Key<F>>, s: seq<Byte>, first: bool, t: Tally<F, Double>)
    requires YieldsDoubles(lib) && Doubles(lib, t.values)
    ensures NumericMembers(lib, tab, s, first, t).Some? ==> Doubles(lib, NumericMembers(lib, tab, s, first, t).value.0.values)
    decreases |s|
  {
    hide NextMember, Lookup, SkipValue, NumberMember, Representable;
    match NextMember(s, first) {
      case Named(key, u) =>
        match Lookup(tab, key) {
          case None =>
            if SkipValue(lib, u).Some? {
              NumericMembersDoubles(lib, tab, SkipValue(lib, u).value, false, t.(unknown := CountUnknown(t.unknown)));
            }
          case Some((id, mismatch)) =>
            var g := NumberMember(lib, u);
            NumberMemberDoubles(lib, u);
            if !g.Malformed? {
              NumericMembersDoubles(lib, tab, g.rest, false, Enter(t, id, mismatch, g));
            }
        }
      case _ =>
    }
  }

  lemma StringMemberFits(lib: NumLib, s: seq<Byte>, size: nat)
    requires size > 0
    ensures StringMember(lib, s, size).Read? ==> Fits(StringMember(lib, s, size).value, size)
  {
    hide SkipValue, ReadLiteral, ReadString, KindOf;
  }

  lemma ClampedFits(d: Double)
    ensures IsInt64(ClampInt64(d))
  {
  }

  lemma RootValueTidy(lib: NumLib, id: RootKey, s: seq<Byte>, d: Draft)
    requires YieldsDoubles(lib) && Tidy(lib, d)
    ensures RootValue(lib, id, s, d).Some? ==> Tidy(lib, RootValue(lib, id, s, d).value.0)
  {
    hide StringMember, NumberMember, NumericMembers, OptionMembers, SkipValue, OpenSection, Fits, Doubles,
         ClampInt64, IsInt64;
    StringMemberFits(lib, s, DEVICE_ID_MAX);
    StringMemberFits(lib, s, UNITS_TEXT_MAX);
    StringMemberFits(lib, s, API_VERSION_MAX);
    if NumberMember(lib, s).Read? {
      ClampedFits(NumberMember(lib, s).value);
    }
    if OpenSection(s).Some? {
      NumericMembersDoubles(lib, BALL_KEYS, OpenSection(s).value, true, Tally(d.ball, d.flags, d.unknown));
      NumericMembersDoubles(lib, CLUB_KEYS, OpenSection(s).value, true, Tally(d.club, d.flags, d.unknown));
    }
  }

  lemma {:induction false} RootMembersTidy(lib: NumLib, s: seq<Byte>, first: bool, d: Draft)
    requires YieldsDoubles(lib) && Tidy(lib, d)
    ensures RootMembers(lib, s, first, d).Some? ==> Tidy(lib, RootMembers(lib, s, first, d).value.0)
    decreases |s|
  {
    hide NextMember, Lookup, SkipValue, RootValue, Fits, Doubles;
    match NextMember(s, first) {
      case Named(key, u) =>
        match Lookup(ROOT_KEYS, key) {
          case None =>
            if SkipValue(lib, u).Some? {
              RootMembersTidy(lib, SkipValue(lib, u).value, false, d.(unknown := CountUnknown(d.unknown)));
            }
          case Some((id, mismatch)) =>
            var e := d.(flags := Noted(d.flags, mismatch, KeyCaseMismatch));
            RootValueTidy(lib, id, u, e);
            if RootValue(lib, id, u, e).Some? {
              RootMembersTidy(lib, RootValue(lib, id, u, e).value.1, false, RootValue(lib, id, u, e).value.0);
            }
        }
      case _ =>
    }
  }

  /** The draft a decoded message was finished from. */
  ghost predicate FinishedFrom(lib: NumLib, m: Message, d: Draft, length: nat) {
    Tidy(lib, d) && m == Finish(d, length)
  }

  lemma DecodedTidy(lib: NumLib, json: seq<Byte>) returns (d: Draft)
    requires YieldsDoubles(lib) && DecodeMessage(lib, json).Some?
    ensures FinishedFrom(lib, DecodeMessage(lib, json).value, d, |json|)
  {
    hide RootMembers, Finish, SkipWs;
    var body := Accept(json, LBRACE).value;
    RootMembersTidy(lib, body, true, BLANK);
    d := RootMembers(lib, body, true, BLANK).value.0;
  }

  /**
   * A message that any bytes were decoded into, encoded and decoded again, is the same kind of
   * message in the same units with the same strings; its numbers come back as JSON can spell them,
   * and its shot number unless it is no double.
   */
  lemma DecodedAgain(lib: NumLib, json: seq<Byte>, indent: bool)
    requires Sound(lib) && RoundsIntegers(lib) && YieldsDoubles(lib) && DecodeMessage(lib, json).Some?
    ensures var m := DecodeMessage(lib, json).value;
            var back := DecodeMessage(lib, MessageText(lib, m, indent));
            && back.Some? && back.value.kind == m.kind && back.value.units == m.units
            && back.value.deviceId == m.deviceId && back.value.unitsText == m.unitsText && back.value.apiVersion == m.apiVersion
            && back.value.ball == NumbersBack(m.ball) && back.value.club == NumbersBack(m.club)
            && (back.value.shotNumber == m.shotNumber <==> lib.isDouble(m.shotNumber as real) || m.shotNumber == INT64_MAX)
  {
    hide Sound, RoundsIntegers, YieldsDoubles, MessageText, DecodeMessage, Field, CStr, NumbersBack, ClampInt64, IntText, NotedAll,
         Findings, UnitsParse, Fits;
    var m := DecodeMessage(lib, json).value;
    var d := DecodedTidy(lib, json);
    EncodedDecodes(lib, m, indent);
    FitsExactly(m.deviceId, DEVICE_ID_MAX);
    FitsExactly(m.apiVersion, API_VERSION_MAX);
    UnitsExactly(m);
    DecodedUnits(lib, m, d, |json|);
    ShotNumberReadsBack(lib, m.shotNumber);
    SameKind(m.options);
  }

  lemma DecodedUnits(lib: NumLib, m: Message, d: Draft, length: nat)
    requires FinishedFrom(lib, m, d, length)
    ensures m.unitsText == [] ==> m.units == UnitsUnknown
    ensures Fits(m.unitsText, UNITS_TEXT_MAX) && UnitsFrom(DraftBack(lib, m)) == m.units
  {
    hide Field, CStr, ClampInt64, IntText, NotedAll, Findings, NumbersBack, OptionsBack;
    UnitsExactly(m);
    StartOf(m.unitsText);
  }

  lemma SameKind(options: map<OptionField, bool>)
    ensures KindFrom(OptionsBack(options)) == KindFrom(options)
  {
  }
}
