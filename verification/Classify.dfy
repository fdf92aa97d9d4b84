/**
 * What kind of message an object is and what is noted about it, told from the members it has and
 * the values they give: one condition for each kind and for each flag.
 */
module Classify {
  import opened Bytes
  import opened Json
  import opened Numbers
  import opened Message
  import opened Text
  import opened Decode
  import opened DecodeJson
  import opened LastWins

  // --------------------------------------------------------------------------------------
  // What a member can be noted for
  // --------------------------------------------------------------------------------------

  /** The member's key is `name` but for case. */
  predicate Called(m: Member, name: string) {
    ValidItems(m.key) && CiEqual(Ascii(name), KeyText(m))
  }

  /** The table knows the member's key only with the case overlooked. */
  predicate Miscased<T>(tab: seq<Key<T>>, m: Member) {
    ValidItems(m.key) && Spelled(tab, KeyText(m), false) && !Spelled(tab, KeyText(m), true)
  }

  predicate AnyMiscased<T>(tab: seq<Key<T>>, ms: seq<Member>) {
    exists m :: m in ms && Miscased(tab, m)
  }

  /** A known number that was given as a string. */
  predicate Converted<T>(lib: NumLib, tab: seq<Key<T>>, m: Member) {
    && ValidMember(m) && Spelled(tab, KeyText(m), false)
    && m.value.Text? && NumberIn(lib, m.value).Read?
  }

  predicate AnyConverted<T>(lib: NumLib, tab: seq<Key<T>>, ms: seq<Member>) {
    exists m :: m in ms && Converted(lib, tab, m)
  }

  /** A known option that was given as a string or a number. */
  predicate Interpreted(lib: NumLib, m: Member) {
    && ValidMember(m) && Spelled(OPTION_KEYS, KeyText(m), false)
    && (m.value.Text? || m.value.Number?) && BoolIn(lib, m.value).Read?
  }

  predicate AnyInterpreted(lib: NumLib, ms: seq<Member>) {
    exists m :: m in ms && Interpreted(lib, m)
  }

  /** The shot number, given as a string. */
  predicate SpelledOut(lib: NumLib, m: Member) {
    ValidMember(m) && IsFor(ROOT_KEYS, m, ShotNumberKey) && m.value.Text? && NumberIn(lib, m.value).Read?
  }

  predicate AnySpelledOut(lib: NumLib, ms: seq<Member>) {
    exists m :: m in ms && SpelledOut(lib, m)
  }

  /** A whole number or an infinity: what is equal to its own rounding toward zero. */
  predicate Whole(d: Double) {
    d.PosInf? || d.NegInf? || (d.Finite? && d.v == d.v.Floor as real)
  }

  /** A shot number that is not whole. */
  predicate Fractional(lib: NumLib, m: Member) {
    && ValidMember(m) && IsFor(ROOT_KEYS, m, ShotNumberKey) && NumberIn(lib, m.value).Read?
    && !Whole(NumberIn(lib, m.value).value)
  }

  predicate AnyFractional(lib: NumLib, ms: seq<Member>) {
    exists m :: m in ms && Fractional(lib, m)
  }

  /** A string of the message itself that does not fit its field of 64, 16 or 8 octets. */
  predicate Overlong(m: Member) {
    && ValidMember(m) && m.value.Text?
    && (|| (IsFor(ROOT_KEYS, m, DeviceIdKey) && |Meaning(m.value.items)| >= 64)
        || (IsFor(ROOT_KEYS, m, UnitsKey) && |Meaning(m.value.items)| >= 16)
        || (IsFor(ROOT_KEYS, m, ApiVersionKey) && |Meaning(m.value.items)| >= 8))
  }

  predicate AnyOverlong(ms: seq<Member>) {
    exists m :: m in ms && Overlong(m)
  }

  /** A member known as section `key` that is an object. */
  predicate OpensSection(m: Member, key: RootKey) {
    ValidItems(m.key) && IsFor(ROOT_KEYS, m, key) && m.value.Object?
  }

  predicate HasSection(ms: seq<Member>, key: RootKey) {
    exists m :: m in ms && OpensSection(m, key)
  }

  /** How many members have a key the table does not know. */
  function Strangers<T>(tab: seq<Key<T>>, ms: seq<Member>): nat {
    if ms == [] then 0
    else (if ValidItems(ms[0].key) && !Spelled(tab, KeyText(ms[0]), false) then 1 else 0)
         + Strangers(tab, ms[1..])
  }

  /** The unknown members of the message and of every section it has. */
  function AllStrangers(ms: seq<Member>): nat
    requires ValidMembers(ms)
  {
    Strangers(ROOT_KEYS, ms) + Strangers(BALL_KEYS, SectionOf(ms, BallDataKey))
    + Strangers(CLUB_KEYS, SectionOf(ms, ClubDataKey)) + Strangers(OPTION_KEYS, SectionOf(ms, OptionsKey))
  }

  function AtMost(n: nat, most: nat): nat {
    if n > most then most else n
  }

  // --------------------------------------------------------------------------------------
  // Names
  // --------------------------------------------------------------------------------------

  /** No two entries of the table name the same thing or are spelled alike. */
  predicate Distinct<T(==)>(tab: seq<Key<T>>) {
    forall i, j :: 0 <= i < j < |tab| ==> tab[i].id != tab[j].id && !CiEqual(tab[i].name, tab[j].name)
  }

  /** In such a table a key is for an entry exactly if it is spelled like it but for case. */
  lemma ForEntry<T>(tab: seq<Key<T>>, key: seq<Byte>, i: nat)
    requires Distinct(tab) && i < |tab|
    ensures Lookup(tab, key).Some? && Lookup(tab, key).value.0 == tab[i].id <==> CiEqual(tab[i].name, key)
  {
    FoundKey(tab, key, true);
    FoundKey(tab, key, false);
    var exact := FindKey(tab, key, true).Some?;
    if CiEqual(tab[i].name, key) {
      assert SpelledAt(tab, key, false, i);
      var k :| 0 <= k < |tab| && tab[k].id == FindKey(tab, key, exact).value && SpelledAt(tab, key, exact, k);
      assert CiEqual(tab[k].name, key);
      assert CiEqual(tab[k].name, tab[i].name) && CiEqual(tab[i].name, tab[k].name);
    }
  }

  /** A number that spellings alike but for case have in common. */
  function Digest(s: seq<Byte>, i: nat, j: nat): nat
    requires i < |s| && j < |s|
  {
    (|s| * 256 + Lower(s[i])) * 256 + Lower(s[j])
  }

  /** A table whose entries have different digests. */
  lemma DigestsTell<T>(tab: seq<Key<T>>, i: nat, j: nat)
    requires forall a :: 0 <= a < |tab| ==> i < |tab[a].name| && j < |tab[a].name|
    requires forall a, b :: 0 <= a < b < |tab| ==> tab[a].id != tab[b].id && Digest(tab[a].name, i, j) != Digest(tab[b].name, i, j)
    ensures Distinct(tab)
  {
    forall a, b | 0 <= a < b < |tab|
      ensures !CiEqual(tab[a].name, tab[b].name)
    {
      assert Digest(tab[a].name, i, j) != Digest(tab[b].name, i, j);
    }
  }

  lemma RootDistinct()
    ensures Distinct(ROOT_KEYS)
  {
    hide Distinct;
    assert Letters("DeviceID", 0, 1) && Letters("Units", 0, 1) && Letters("ShotNumber", 0, 1) && Letters("APIversion", 0, 1);
    assert Letters("BallData", 0, 1) && Letters("ClubData", 0, 1) && Letters("ShotDataOptions", 0, 1);
    DigestsTell(ROOT_KEYS, 0, 1);
  }

  lemma BallDistinct()
    ensures Distinct(BALL_KEYS)
  {
    hide Distinct;
    assert Letters("Speed", 0, 1) && Letters("SpinAxis", 0, 1) && Letters("TotalSpin", 0, 1) && Letters("BackSpin", 0, 1);
    assert Letters("SideSpin", 0, 1) && Letters("HLA", 0, 1) && Letters("VLA", 0, 1) && Letters("CarryDistance", 0, 1);
    DigestsTell(BALL_KEYS, 0, 1);
  }

  /** The names of the club's fields differ in length or in their first letter. */
  function ClubShape(a: nat): (nat, int)
    requires a < 10
  {
    var lengths := [5, 13, 12, 3, 4, 4, 13, 18, 20, 11];
    (lengths[a], "safllpsvhc"[a] as int)
  }

  lemma ClubShaped(a: nat)
    requires a < 10
    ensures |CLUB_KEYS| == 10 && (|CLUB_KEYS[a].name|, Lower(Ahead(CLUB_KEYS[a].name))) == ClubShape(a)
  {
  }

  function Ahead(s: seq<Byte>): Byte {
    if s == [] then 0 else s[0]
  }

  lemma ShapesDiffer(a: nat, b: nat)
    requires a < b < 10
    ensures ClubShape(a) != ClubShape(b)
  {
  }

  lemma AheadAlike(s: seq<Byte>, t: seq<Byte>)
    requires CiEqual(s, t)
    ensures |s| == |t| && Lower(Ahead(s)) == Lower(Ahead(t))
  {
  }

  lemma ClubIds()
    ensures |CLUB_KEYS| == 10 && forall a, b :: 0 <= a < b < 10 ==> CLUB_KEYS[a].id != CLUB_KEYS[b].id
  {
    hide Ascii;
  }

  lemma ClubDistinct()
    ensures Distinct(CLUB_KEYS)
  {
    hide ClubKeys, ClubShape, CiEqual, Lower, Ahead;
    ClubIds();
    forall a, b | 0 <= a < b < 10
      ensures !CiEqual(CLUB_KEYS[a].name, CLUB_KEYS[b].name)
    {
      ClubShaped(a);
      ClubShaped(b);
      ShapesDiffer(a, b);
      if CiEqual(CLUB_KEYS[a].name, CLUB_KEYS[b].name) {
        AheadAlike(CLUB_KEYS[a].name, CLUB_KEYS[b].name);
      }
    }
  }

  lemma OptionsDistinct()
    ensures Distinct(OPTION_KEYS)
  {
    assert Letters("ContainsBallData", 0, 8) && Letters("ContainsClubData", 0, 8) && Letters("LaunchMonitorIsReady", 0, 8);
    assert Letters("LaunchMonitorBallDetected", 0, 8) && Letters("IsHeartBeat", 0, 8);
    DigestsTell(OPTION_KEYS, 0, 8);
  }

  /** Two letters of a name, as octets. */
  predicate Letters(s: string, i: nat, j: nat) {
    && i < |s| && j < |s| && 0 < s[i] as int < 128 && 0 < s[j] as int < 128
    && Ascii(s)[i] == s[i] as int && Ascii(s)[j] == s[j] as int
  }

  function RootName(id: RootKey): string {
    match id
    case DeviceIdKey => "DeviceID"
    case UnitsKey => "Units"
    case ShotNumberKey => "ShotNumber"
    case ApiVersionKey => "APIversion"
    case BallDataKey => "BallData"
    case ClubDataKey => "ClubData"
    case OptionsKey => "ShotDataOptions"
  }

  function BallName(f: BallField): string {
    match f
    case BallSpeed => "Speed"
    case SpinAxis => "SpinAxis"
    case TotalSpin => "TotalSpin"
    case BackSpin => "BackSpin"
    case SideSpin => "SideSpin"
    case Hla => "HLA"
    case Vla => "VLA"
    case CarryDistance => "CarryDistance"
  }

  function ClubName(f: ClubField): string {
    match f
    case ClubSpeed => "Speed"
    case AngleOfAttack => "AngleOfAttack"
    case FaceToTarget => "FaceToTarget"
    case Lie => "Lie"
    case Loft => "Loft"
    case Path => "Path"
    case SpeedAtImpact => "SpeedAtImpact"
    case VerticalFaceImpact => "VerticalFaceImpact"
    case HorizontalFaceImpact => "HorizontalFaceImpact"
    case ClosureRate => "ClosureRate"
  }

  function OptionName(f: OptionField): string {
    match f
    case ContainsBallData => "ContainsBallData"
    case ContainsClubData => "ContainsClubData"
    case LaunchMonitorIsReady => "LaunchMonitorIsReady"
    case LaunchMonitorBallDetected => "LaunchMonitorBallDetected"
    case IsHeartBeat => "IsHeartBeat"
  }

  /** The entry of a table whose names differ by more than case is found by its name, whatever its case. */
  lemma EntryNamed<T>(tab: seq<Key<T>>, m: Member, i: nat, name: string)
    requires Distinct(tab) && i < |tab| && tab[i].name == Ascii(name) && ValidItems(m.key)
    ensures IsFor(tab, m, tab[i].id) <==> Called(m, name)
    ensures Lookup(tab, Ascii(name)) == Some((tab[i].id, false))
  {
    hide KeyText, CiEqual, FindKey;
    ForEntry(tab, KeyText(m), i);
    LookupPrefersExact(tab, Ascii(name));
    assert SpelledAt(tab, Ascii(name), true, i);
    ForEntry(tab, Ascii(name), i);
    assert CiEqual(tab[i].name, Ascii(name)) by {
      SameSpelling(Ascii(name));
    }
  }

  lemma SameSpelling(s: seq<Byte>)
    ensures CiEqual(s, s)
  {
  }

  /** A root member goes by its name, in whatever case, and by no other; the name itself is spelled as it should be. */
  lemma RootNamed(m: Member, id: RootKey)
    requires ValidItems(m.key)
    ensures IsFor(ROOT_KEYS, m, id) <==> Called(m, RootName(id))
    ensures Lookup(ROOT_KEYS, Ascii(RootName(id))) == Some((id, false))
  {
    hide IsFor, Called, Lookup, Distinct, Ascii;
    RootDistinct();
    match id {
      case DeviceIdKey => EntryNamed(ROOT_KEYS, m, 0, "DeviceID");
      case UnitsKey => EntryNamed(ROOT_KEYS, m, 1, "Units");
      case ShotNumberKey => EntryNamed(ROOT_KEYS, m, 2, "ShotNumber");
      case ApiVersionKey => EntryNamed(ROOT_KEYS, m, 3, "APIversion");
      case BallDataKey => EntryNamed(ROOT_KEYS, m, 4, "BallData");
      case ClubDataKey => EntryNamed(ROOT_KEYS, m, 5, "ClubData");
      case OptionsKey => EntryNamed(ROOT_KEYS, m, 6, "ShotDataOptions");
    }
  }

  lemma BallNamed(m: Member, f: BallField)
    requires ValidItems(m.key)
    ensures IsFor(BALL_KEYS, m, f) <==> Called(m, BallName(f))
    ensures Lookup(BALL_KEYS, Ascii(BallName(f))) == Some((f, false))
  {
    hide IsFor, Called, Lookup, Distinct, Ascii;
    BallDistinct();
    match f {
      case BallSpeed => EntryNamed(BALL_KEYS, m, 0, "Speed");
      case SpinAxis => EntryNamed(BALL_KEYS, m, 1, "SpinAxis");
      case TotalSpin => EntryNamed(BALL_KEYS, m, 2, "TotalSpin");
      case BackSpin => EntryNamed(BALL_KEYS, m, 3, "BackSpin");
      case SideSpin => EntryNamed(BALL_KEYS, m, 4, "SideSpin");
      case Hla => EntryNamed(BALL_KEYS, m, 5, "HLA");
      case Vla => EntryNamed(BALL_KEYS, m, 6, "VLA");
      case CarryDistance => EntryNamed(BALL_KEYS, m, 7, "CarryDistance");
    }
  }

  lemma ClubNamed(m: Member, f: ClubField)
    requires ValidItems(m.key)
    ensures IsFor(CLUB_KEYS, m, f) <==> Called(m, ClubName(f))
    ensures Lookup(CLUB_KEYS, Ascii(ClubName(f))) == Some((f, false))
  {
    hide IsFor, Called, Lookup, Distinct, Ascii;
    ClubDistinct();
    match f {
      case ClubSpeed => EntryNamed(CLUB_KEYS, m, 0, "Speed");
      case AngleOfAttack => EntryNamed(CLUB_KEYS, m, 1, "AngleOfAttack");
      case FaceToTarget => EntryNamed(CLUB_KEYS, m, 2, "FaceToTarget");
      case Lie => EntryNamed(CLUB_KEYS, m, 3, "Lie");
      case Loft => EntryNamed(CLUB_KEYS, m, 4, "Loft");
      case Path => EntryNamed(CLUB_KEYS, m, 5, "Path");
      case SpeedAtImpact => EntryNamed(CLUB_KEYS, m, 6, "SpeedAtImpact");
      case VerticalFaceImpact => EntryNamed(CLUB_KEYS, m, 7, "VerticalFaceImpact");
      case HorizontalFaceImpact => EntryNamed(CLUB_KEYS, m, 8, "HorizontalFaceImpact");
      case ClosureRate => EntryNamed(CLUB_KEYS, m, 9, "ClosureRate");
    }
  }

  lemma OptionNamed(m: Member, f: OptionField)
    requires ValidItems(m.key)
    ensures IsFor(OPTION_KEYS, m, f) <==> Called(m, OptionName(f))
    ensures Lookup(OPTION_KEYS, Ascii(OptionName(f))) == Some((f, false))
  {
    hide IsFor, Called, Lookup, Distinct, Ascii;
    OptionsDistinct();
    match f {
      case ContainsBallData => EntryNamed(OPTION_KEYS, m, 0, "ContainsBallData");
      case ContainsClubData => EntryNamed(OPTION_KEYS, m, 1, "ContainsClubData");
      case LaunchMonitorIsReady => EntryNamed(OPTION_KEYS, m, 2, "LaunchMonitorIsReady");
      case LaunchMonitorBallDetected => EntryNamed(OPTION_KEYS, m, 3, "LaunchMonitorBallDetected");
      case IsHeartBeat => EntryNamed(OPTION_KEYS, m, 4, "IsHeartBeat");
    }
  }

  // --------------------------------------------------------------------------------------
  // Values
  // --------------------------------------------------------------------------------------

  /** The C string a field of `size` octets holds of a string literal. */
  function Spelling(items: seq<Item>, size: nat): seq<Byte>
    requires size > 0 && ValidItems(items)
  {
    CStr(Field(size, Meaning(items)))
  }

  /** An option is on if it is true, says so in whatever case, or is a number other than zero. */
  lemma TruthsMean(lib: NumLib, v: Value)
    requires Valid(v)
    ensures BoolIn(lib, v).Read? && BoolIn(lib, v).value
        <==> || v.True?
             || (v.Text? && CiEqual(Spelling(v.items, 16), Ascii("true")))
             || (v.Number? && lib.strtod(v.text).value != Finite(0.0))
    ensures BoolIn(lib, v).Read? && !BoolIn(lib, v).value
        <==> || v.False?
             || (v.Text? && CiEqual(Spelling(v.items, 16), Ascii("false")))
             || (v.Number? && lib.strtod(v.text).value == Finite(0.0))
  {
    hide CStr, Field, Meaning;
    assert !CiEqual(Ascii("true"), Ascii("false")) && |Ascii("true")| == 4 && |Ascii("false")| == 5;
  }

  /** A number is one, or a string `strtod` takes whole; a string is one, cut to its field. */
  lemma NumbersMean(lib: NumLib, v: Value, d: Double)
    requires Valid(v)
    ensures NumberIn(lib, v).Read? && NumberIn(lib, v).value == d
        <==> || (v.Number? && lib.strtod(v.text).value == d)
             || (v.Text? && Spelling(v.items, 64) != [] && lib.strtod(Spelling(v.items, 64)) == Parsed(d, |Spelling(v.items, 64)|))
  {
    hide CStr, Field, Meaning;
  }

  lemma StringsMean(v: Value, size: nat, text: seq<Byte>)
    requires Valid(v) && size > 0
    ensures StringIn(v, size).Read? && StringIn(v, size).value == text <==> v.Text? && text == Spelling(v.items, size)
  {
    hide CStr, Field, Meaning;
  }

  // --------------------------------------------------------------------------------------
  // Sections
  // --------------------------------------------------------------------------------------

  /** Looking at the first member and then at the others. */
  lemma HeadOrTail(ms: seq<Member>)
    ensures ms != [] ==> forall m :: m in ms <==> m == ms[0] || m in ms[1..]
  {
    if ms != [] {
      assert ms == [ms[0]] + ms[1..];
    }
  }

  lemma NumbersStart<T>(lib: NumLib, tab: seq<Key<T>>, ms: seq<Member>)
    ensures AnyMiscased(tab, ms) <==> ms != [] && (Miscased(tab, ms[0]) || AnyMiscased(tab, ms[1..]))
    ensures AnyConverted(lib, tab, ms) <==> ms != [] && (Converted(lib, tab, ms[0]) || AnyConverted(lib, tab, ms[1..]))
  {
    hide Miscased, Converted;
    HeadOrTail(ms);
  }

  lemma OptionsStart(lib: NumLib, ms: seq<Member>)
    ensures AnyInterpreted(lib, ms) <==> ms != [] && (Interpreted(lib, ms[0]) || AnyInterpreted(lib, ms[1..]))
  {
    hide Interpreted;
    HeadOrTail(ms);
  }

  /** What a numeric section's members add to the notes and to the count of unknown members. */
  lemma {:induction false} NumbersNote<T>(lib: NumLib, tab: seq<Key<T>>, ms: seq<Member>, t: Tally<T, Double>, f: Flag)
    requires ValidMembers(ms) && t.unknown <= COUNT_MAX
    ensures var u := FoldNumbers(lib, tab, ms, t);
            && u.unknown == AtMost(t.unknown + Strangers(tab, ms), COUNT_MAX)
            && (f in u.flags <==> || f in t.flags
                                  || (f == KeyCaseMismatch && AnyMiscased(tab, ms))
                                  || (f == TypeCoerced && AnyConverted(lib, tab, ms)))
    decreases ms
  {
    hide KeyText, Lookup, Spelled, NumberIn, Miscased, Converted, AnyMiscased, AnyConverted;
    NumbersStart(lib, tab, ms);
    if ms != [] {
      NumberNoted(lib, tab, ms[0]);
      match Lookup(tab, KeyText(ms[0])) {
        case None => NumbersNote(lib, tab, ms[1..], t.(unknown := CountUnknown(t.unknown)), f);
        case Some((id, mismatch)) =>
          NumbersNote(lib, tab, ms[1..], Enter(t, id, mismatch, NumberIn(lib, ms[0].value)), f);
      }
    }
  }

  /** One member of a numeric section. */
  lemma NumberNoted<T>(lib: NumLib, tab: seq<Key<T>>, m: Member)
    requires ValidMember(m)
    ensures Lookup(tab, KeyText(m)) == None <==> !Spelled(tab, KeyText(m), false)
    ensures Miscased(tab, m) <==> Lookup(tab, KeyText(m)).Some? && Lookup(tab, KeyText(m)).value.1
    ensures Converted(lib, tab, m) <==> Lookup(tab, KeyText(m)).Some? && NumberIn(lib, m.value).Read? && NumberIn(lib, m.value).noted
  {
    hide KeyText, Lookup, Spelled, CStr, Field, Meaning;
    LookupPrefersExact(tab, KeyText(m));
    ExactIsAlike(tab, KeyText(m));
  }

  lemma ExactIsAlike<T>(tab: seq<Key<T>>, key: seq<Byte>)
    ensures Spelled(tab, key, true) ==> Spelled(tab, key, false)
  {
    if Spelled(tab, key, true) {
      var i :| 0 <= i < |tab| && SpelledAt(tab, key, true, i);
      assert SpelledAt(tab, key, false, i);
    }
  }

  lemma {:induction false} OptionsNote(lib: NumLib, ms: seq<Member>, t: Tally<OptionField, bool>, f: Flag)
    requires ValidMembers(ms) && t.unknown <= COUNT_MAX
    ensures var u := FoldOptions(lib, ms, t);
            && u.unknown == AtMost(t.unknown + Strangers(OPTION_KEYS, ms), COUNT_MAX)
            && (f in u.flags <==> || f in t.flags
                                  || (f == KeyCaseMismatch && AnyMiscased(OPTION_KEYS, ms))
                                  || (f == TypeCoerced && AnyInterpreted(lib, ms)))
    decreases ms
  {
    hide KeyText, Lookup, Spelled, BoolIn, Miscased, Interpreted, AnyMiscased, AnyInterpreted;
    NumbersStart(lib, OPTION_KEYS, ms);
    OptionsStart(lib, ms);
    if ms != [] {
      OptionNoted(lib, ms[0]);
      match Lookup(OPTION_KEYS, KeyText(ms[0])) {
        case None => OptionsNote(lib, ms[1..], t.(unknown := CountUnknown(t.unknown)), f);
        case Some((id, mismatch)) =>
          OptionsNote(lib, ms[1..], Enter(t, id, mismatch, BoolIn(lib, ms[0].value)), f);
      }
    }
  }

  lemma OptionNoted(lib: NumLib, m: Member)
    requires ValidMember(m)
    ensures Lookup(OPTION_KEYS, KeyText(m)) == None <==> !Spelled(OPTION_KEYS, KeyText(m), false)
    ensures Miscased(OPTION_KEYS, m) <==> Lookup(OPTION_KEYS, KeyText(m)).Some? && Lookup(OPTION_KEYS, KeyText(m)).value.1
    ensures Interpreted(lib, m)
        <==> Lookup(OPTION_KEYS, KeyText(m)).Some? && BoolIn(lib, m.value).Read? && BoolIn(lib, m.value).noted
  {
    hide KeyText, Lookup, Spelled, CStr, Field, Meaning, Ascii, CiEqual;
    LookupPrefersExact(OPTION_KEYS, KeyText(m));
    ExactIsAlike(OPTION_KEYS, KeyText(m));
  }

  // --------------------------------------------------------------------------------------
  // The whole message
  // --------------------------------------------------------------------------------------

  /** Some known member, of the message or of a section, has its key in the wrong case. */
  predicate AnyWrongCase(ms: seq<Member>)
    requires ValidMembers(ms)
  {
    || AnyMiscased(ROOT_KEYS, ms) || AnyMiscased(BALL_KEYS, SectionOf(ms, BallDataKey))
    || AnyMiscased(CLUB_KEYS, SectionOf(ms, ClubDataKey)) || AnyMiscased(OPTION_KEYS, SectionOf(ms, OptionsKey))
  }

  /** Some number or option was given as something else and converted. */
  predicate AnyCoerced(lib: NumLib, ms: seq<Member>)
    requires ValidMembers(ms)
  {
    || AnySpelledOut(lib, ms) || AnyConverted(lib, BALL_KEYS, SectionOf(ms, BallDataKey))
    || AnyConverted(lib, CLUB_KEYS, SectionOf(ms, ClubDataKey)) || AnyInterpreted(lib, SectionOf(ms, OptionsKey))
  }

  /** The flags that members are noted for as they are read. */
  predicate Gives(lib: NumLib, ms: seq<Member>, f: Flag)
    requires ValidMembers(ms)
  {
    match f
    case KeyCaseMismatch => AnyWrongCase(ms)
    case TypeCoerced => AnyCoerced(lib, ms)
    case StringTruncated => AnyOverlong(ms)
    case ShotNumberNotInteger => AnyFractional(lib, ms)
    case _ => false
  }

  lemma {:induction false} StrangersConcat<T>(tab: seq<Key<T>>, a: seq<Member>, b: seq<Member>)
    ensures Strangers(tab, a + b) == Strangers(tab, a) + Strangers(tab, b)
  {
    hide KeyText, Spelled;
    if a == [] {
      assert a + b == b;
    } else {
      assert (a + b)[1..] == a[1..] + b;
      StrangersConcat(tab, a[1..], b);
    }
  }

  lemma NumbersJoin<T>(lib: NumLib, tab: seq<Key<T>>, a: seq<Member>, b: seq<Member>)
    ensures AnyMiscased(tab, a + b) <==> AnyMiscased(tab, a) || AnyMiscased(tab, b)
    ensures AnyConverted(lib, tab, a + b) <==> AnyConverted(lib, tab, a) || AnyConverted(lib, tab, b)
    ensures Strangers(tab, a + b) == Strangers(tab, a) + Strangers(tab, b)
  {
    hide Miscased, Converted, Strangers;
    StrangersConcat(tab, a, b);
  }

  lemma OptionsJoin(lib: NumLib, a: seq<Member>, b: seq<Member>)
    ensures AnyInterpreted(lib, a + b) <==> AnyInterpreted(lib, a) || AnyInterpreted(lib, b)
  {
    hide Interpreted;
  }

  /** A section's members, one root member at a time. */
  lemma SectionStart<T>(lib: NumLib, tab: seq<Key<T>>, ms: seq<Member>, key: RootKey)
    requires ms != [] && ValidMembers(ms)
    ensures ValidMember(ms[0]) && ValidMembers(ms[1..])
    ensures var here := if OpensSection(ms[0], key) then ms[0].value.members else [];
            var behind := SectionOf(ms[1..], key);
            && (AnyMiscased(tab, SectionOf(ms, key)) <==> AnyMiscased(tab, here) || AnyMiscased(tab, behind))
            && (AnyConverted(lib, tab, SectionOf(ms, key)) <==> AnyConverted(lib, tab, here) || AnyConverted(lib, tab, behind))
            && Strangers(tab, SectionOf(ms, key)) == Strangers(tab, here) + Strangers(tab, behind)
            && (AnyInterpreted(lib, SectionOf(ms, key)) <==> AnyInterpreted(lib, here) || AnyInterpreted(lib, behind))
  {
    hide IsFor, AnyMiscased, AnyConverted, AnyInterpreted, Strangers;
    var here := if OpensSection(ms[0], key) then ms[0].value.members else [];
    var behind := SectionOf(ms[1..], key);
    assert SectionOf(ms, key) == here + behind;
    NumbersJoin(lib, tab, here, behind);
    OptionsJoin(lib, here, behind);
  }

  lemma RootStart(lib: NumLib, ms: seq<Member>)
    requires ms != [] && ValidMembers(ms)
    ensures AnySpelledOut(lib, ms) <==> SpelledOut(lib, ms[0]) || AnySpelledOut(lib, ms[1..])
    ensures AnyOverlong(ms) <==> Overlong(ms[0]) || AnyOverlong(ms[1..])
    ensures AnyFractional(lib, ms) <==> Fractional(lib, ms[0]) || AnyFractional(lib, ms[1..])
    ensures forall key :: HasSection(ms, key) <==> OpensSection(ms[0], key) || HasSection(ms[1..], key)
  {
    hide SpelledOut, Overlong, Fractional, OpensSection;
    HeadOrTail(ms);
  }

  /** What one known root member is noted for, its own key apart, and the unknown members it brings. */
  predicate RootGives(lib: NumLib, m: Member, f: Flag) {
    match f
    case KeyCaseMismatch =>
      || (OpensSection(m, BallDataKey) && AnyMiscased(BALL_KEYS, m.value.members))
      || (OpensSection(m, ClubDataKey) && AnyMiscased(CLUB_KEYS, m.value.members))
      || (OpensSection(m, OptionsKey) && AnyMiscased(OPTION_KEYS, m.value.members))
    case TypeCoerced =>
      || SpelledOut(lib, m)
      || (OpensSection(m, BallDataKey) && AnyConverted(lib, BALL_KEYS, m.value.members))
      || (OpensSection(m, ClubDataKey) && AnyConverted(lib, CLUB_KEYS, m.value.members))
      || (OpensSection(m, OptionsKey) && AnyInterpreted(lib, m.value.members))
    case StringTruncated => Overlong(m)
    case ShotNumberNotInteger => Fractional(lib, m)
    case _ => false
  }

  function RootStrangers(m: Member): nat {
    if OpensSection(m, BallDataKey) then Strangers(BALL_KEYS, m.value.members)
    else if OpensSection(m, ClubDataKey) then Strangers(CLUB_KEYS, m.value.members)
    else if OpensSection(m, OptionsKey) then Strangers(OPTION_KEYS, m.value.members)
    else 0
  }

  lemma WholeIsIntegral(d: Double)
    ensures IsIntegral(d) <==> Whole(d)
  {
    if d.Finite? && d.v < 0.0 {
      var up, down := (-d.v).Floor, d.v.Floor;
      if d.v == down as real {
        assert -d.v == (-down) as real;
        assert up == -down;
      }
    }
  }

  lemma ScalarsNoted(lib: NumLib, v: Value)
    requires Valid(v)
    ensures forall size | size > 0 ::
              && (StringIn(v, size).Read? <==> v.Text?)
              && (v.Text? ==> (StringIn(v, size).noted <==> |Meaning(v.items)| >= size))
    ensures NumberIn(lib, v).Read? ==> (NumberIn(lib, v).noted <==> v.Text?)
  {
    hide CStr, Field, Meaning;
  }

  /** What a known string of the message itself is noted for. */
  lemma StringNoted(lib: NumLib, m: Member, d: Draft, f: Flag)
    requires ValidMember(m) && Lookup(ROOT_KEYS, KeyText(m)).Some? && d.unknown <= COUNT_MAX
    requires !IsSection(Lookup(ROOT_KEYS, KeyText(m)).value.0) && Lookup(ROOT_KEYS, KeyText(m)).value.0 != ShotNumberKey
    ensures var e := RootIn(lib, Lookup(ROOT_KEYS, KeyText(m)).value.0, m.value, d);
            && e.unknown == AtMost(d.unknown + RootStrangers(m), COUNT_MAX)
            && (f in e.flags <==> f in d.flags || RootGives(lib, m, f))
  {
    hide KeyText, Lookup, AnyMiscased, AnyConverted, AnyInterpreted, Strangers, StringIn, NumberIn, Meaning, Whole,
         Valid, FoldNumbers, FoldOptions;
    ScalarsNoted(lib, m.value);
  }

  /** What a shot number can be noted for. */
  lemma ShotNumberGives(lib: NumLib, m: Member, f: Flag)
    requires ValidMember(m) && IsFor(ROOT_KEYS, m, ShotNumberKey)
    ensures RootStrangers(m) == 0
    ensures RootGives(lib, m, f) <==> && NumberIn(lib, m.value).Read?
                                      && (|| (f == TypeCoerced && m.value.Text?)
                                          || (f == ShotNumberNotInteger && !Whole(NumberIn(lib, m.value).value)))
  {
    hide KeyText, Lookup, AnyMiscased, AnyConverted, AnyInterpreted, Strangers, NumberIn, Meaning, Whole, Valid;
  }

  /** What the shot number is noted for. */
  lemma ShotNumberNoted(lib: NumLib, m: Member, d: Draft, f: Flag)
    requires ValidMember(m) && IsFor(ROOT_KEYS, m, ShotNumberKey) && d.unknown <= COUNT_MAX
    ensures var e := RootIn(lib, ShotNumberKey, m.value, d);
            && e.unknown == AtMost(d.unknown + RootStrangers(m), COUNT_MAX)
            && (f in e.flags <==> f in d.flags || RootGives(lib, m, f))
  {
    hide KeyText, IsFor, RootGives, RootStrangers, NumberIn, Meaning, IsIntegral, ClampInt64, Whole, Valid;
    ShotNumberGives(lib, m, f);
    ScalarsNoted(lib, m.value);
    if NumberIn(lib, m.value).Read? {
      WholeIsIntegral(NumberIn(lib, m.value).value);
    }
  }

  /** What a member that opens a section, or is known as one and opens none, is noted for. */
  lemma SectionNoted(lib: NumLib, m: Member, d: Draft, f: Flag)
    requires ValidMember(m) && Lookup(ROOT_KEYS, KeyText(m)).Some? && d.unknown <= COUNT_MAX
    requires IsSection(Lookup(ROOT_KEYS, KeyText(m)).value.0)
    ensures var e := RootIn(lib, Lookup(ROOT_KEYS, KeyText(m)).value.0, m.value, d);
            && e.unknown == AtMost(d.unknown + RootStrangers(m), COUNT_MAX)
            && (f in e.flags <==> f in d.flags || RootGives(lib, m, f))
  {
    hide KeyText, Lookup, FoldNumbers, FoldOptions, AnyMiscased, AnyConverted, AnyInterpreted, Strangers, StringIn,
         NumberIn, Meaning, Whole;
    if m.value.Object? {
      NumbersNote(lib, BALL_KEYS, m.value.members, Tally(d.ball, d.flags, d.unknown), f);
      NumbersNote(lib, CLUB_KEYS, m.value.members, Tally(d.club, d.flags, d.unknown), f);
      OptionsNote(lib, m.value.members, Tally(d.options, d.flags, d.unknown), f);
    }
  }

  lemma RootMemberNoted(lib: NumLib, m: Member, d: Draft, f: Flag)
    requires ValidMember(m) && Lookup(ROOT_KEYS, KeyText(m)).Some? && d.unknown <= COUNT_MAX
    ensures var e := RootIn(lib, Lookup(ROOT_KEYS, KeyText(m)).value.0, m.value, d);
            && e.unknown == AtMost(d.unknown + RootStrangers(m), COUNT_MAX)
            && (f in e.flags <==> f in d.flags || RootGives(lib, m, f))
  {
    hide KeyText, Lookup, RootIn, RootGives, RootStrangers, Valid;
    var id := Lookup(ROOT_KEYS, KeyText(m)).value.0;
    if IsSection(id) {
      SectionNoted(lib, m, d, f);
    } else if id == ShotNumberKey {
      ShotNumberNoted(lib, m, d, f);
    } else {
      StringNoted(lib, m, d, f);
    }
  }

  /** The first member's share of the notes and of the unknown members. */
  lemma GivesStart(lib: NumLib, ms: seq<Member>, f: Flag)
    requires ms != [] && ValidMembers(ms)
    ensures ValidMember(ms[0]) && ValidMembers(ms[1..])
    ensures Gives(lib, ms, f) <==> || (f == KeyCaseMismatch && Miscased(ROOT_KEYS, ms[0]))
                                   || RootGives(lib, ms[0], f) || Gives(lib, ms[1..], f)
    ensures AllStrangers(ms) == (if Spelled(ROOT_KEYS, KeyText(ms[0]), false) then 0 else 1)
                                + RootStrangers(ms[0]) + AllStrangers(ms[1..])
  {
    hide KeyText, Spelled, Miscased, AnyMiscased, AnyConverted, AnyInterpreted, AnySpelledOut, AnyFractional, AnyOverlong,
         SpelledOut, Fractional, Overlong, Valid, SectionOf, IsFor;
    SectionStart(lib, BALL_KEYS, ms, BallDataKey);
    SectionStart(lib, CLUB_KEYS, ms, ClubDataKey);
    SectionStart(lib, OPTION_KEYS, ms, OptionsKey);
    RootStart(lib, ms);
    NumbersStart(lib, ROOT_KEYS, ms);
    OneSection(ms[0]);
    NoneIn(lib, BALL_KEYS);
    NoneIn(lib, CLUB_KEYS);
    NoneIn(lib, OPTION_KEYS);
  }

  lemma OneSection(m: Member)
    ensures !(OpensSection(m, BallDataKey) && OpensSection(m, ClubDataKey))
    ensures !(OpensSection(m, BallDataKey) && OpensSection(m, OptionsKey))
    ensures !(OpensSection(m, ClubDataKey) && OpensSection(m, OptionsKey))
  {
  }

  lemma NoneIn<T>(lib: NumLib, tab: seq<Key<T>>)
    ensures !AnyMiscased(tab, []) && !AnyConverted(lib, tab, []) && !AnyInterpreted(lib, []) && Strangers(tab, []) == 0
  {
  }

  /** The notes and the count of unknown members once every member has been read. */
  lemma {:induction false} RootNotes(lib: NumLib, ms: seq<Member>, d: Draft, f: Flag)
    requires ValidMembers(ms) && d.unknown <= COUNT_MAX
    ensures var e := FoldRoot(lib, ms, d);
            && e.unknown == AtMost(d.unknown + AllStrangers(ms), COUNT_MAX)
            && (f in e.flags <==> f in d.flags || Gives(lib, ms, f))
    decreases ms
  {
    hide KeyText, Lookup, Spelled, RootIn, RootGives, RootStrangers, Gives, AllStrangers, Miscased;
    if ms == [] {
      NothingGiven(lib, f);
    } else {
      GivesStart(lib, ms, f);
      NumberNoted(lib, ROOT_KEYS, ms[0]);
      match Lookup(ROOT_KEYS, KeyText(ms[0])) {
        case None =>
          StrangerGives(lib, ms[0], f);
          RootNotes(lib, ms[1..], d.(unknown := CountUnknown(d.unknown)), f);
        case Some((id, mismatch)) =>
          var d1 := d.(flags := Noted(d.flags, mismatch, KeyCaseMismatch));
          RootMemberNoted(lib, ms[0], d1, f);
          RootNotes(lib, ms[1..], RootIn(lib, id, ms[0].value, d1), f);
      }
    }
  }

  lemma NothingGiven(lib: NumLib, f: Flag)
    ensures !Gives(lib, [], f) && AllStrangers([]) == 0
  {
  }

  /** A member nobody knows is noted for nothing but being unknown. */
  lemma StrangerGives(lib: NumLib, m: Member, f: Flag)
    requires ValidMember(m) && Lookup(ROOT_KEYS, KeyText(m)) == None
    ensures !RootGives(lib, m, f) && RootStrangers(m) == 0
  {
    hide KeyText, Lookup, Valid;
  }

  // --------------------------------------------------------------------------------------
  // What has been found
  // --------------------------------------------------------------------------------------

  /** The message has the root member `id`: a section as an object, anything else with a value of its type. */
  predicate Present(lib: NumLib, ms: seq<Member>, id: RootKey)
    requires ValidMembers(ms)
  {
    match id
    case DeviceIdKey => LastString(ROOT_KEYS, ms, id, 64).Some?
    case UnitsKey => LastString(ROOT_KEYS, ms, id, 16).Some?
    case ApiVersionKey => LastString(ROOT_KEYS, ms, id, 8).Some?
    case ShotNumberKey => LastNumber(lib, ROOT_KEYS, ms, id).Some?
    case _ => HasSection(ms, id)
  }

  /** A value of the type the root member `id` has. */
  predicate HasValue(lib: NumLib, v: Value, id: RootKey)
    requires Valid(v)
  {
    match id
    case DeviceIdKey => v.Text?
    case UnitsKey => v.Text?
    case ApiVersionKey => v.Text?
    case ShotNumberKey => NumberIn(lib, v).Read?
    case _ => v.Object?
  }

  predicate Presents(lib: NumLib, m: Member, id: RootKey) {
    ValidMember(m) && IsFor(ROOT_KEYS, m, id) && HasValue(lib, m.value, id)
  }

  lemma PresentStart(lib: NumLib, ms: seq<Member>, id: RootKey)
    requires ms != [] && ValidMembers(ms)
    ensures ValidMember(ms[0]) && ValidMembers(ms[1..])
    ensures Present(lib, ms, id) <==> Presents(lib, ms[0], id) || Present(lib, ms[1..], id)
  {
    hide KeyText, Lookup, Valid, HasSection, NumberIn, StringIn;
    RootStart(lib, ms);
    ScalarsNoted(lib, ms[0].value);
  }

  lemma RootMemberFound(lib: NumLib, m: Member, d: Draft, id: RootKey)
    requires ValidMember(m) && Lookup(ROOT_KEYS, KeyText(m)).Some?
    ensures var e := RootIn(lib, Lookup(ROOT_KEYS, KeyText(m)).value.0, m.value, d);
            id in e.have <==> id in d.have || Presents(lib, m, id)
  {
    hide KeyText, Lookup, Valid, RootIn, HasValue;
    var key := Lookup(ROOT_KEYS, KeyText(m)).value.0;
    ValueFound(lib, key, m.value, d, id);
  }

  lemma ValueFound(lib: NumLib, key: RootKey, v: Value, d: Draft, id: RootKey)
    requires Valid(v)
    ensures id in RootIn(lib, key, v, d).have <==> id in d.have || (id == key && HasValue(lib, v, id))
  {
    hide Valid, NumberIn, StringIn, FoldNumbers, FoldOptions, Meaning, IsIntegral, ClampInt64;
    ScalarsNoted(lib, v);
  }

  lemma {:induction false} RootFinds(lib: NumLib, ms: seq<Member>, d: Draft, id: RootKey)
    requires ValidMembers(ms)
    ensures id in FoldRoot(lib, ms, d).have <==> id in d.have || Present(lib, ms, id)
    decreases ms
  {
    hide KeyText, Lookup, RootIn, Present, Presents;
    if ms == [] {
      NothingPresent(lib, id);
    } else {
      PresentStart(lib, ms, id);
      match Lookup(ROOT_KEYS, KeyText(ms[0])) {
        case None =>
          StrangerPresents(lib, ms[0], id);
          RootFinds(lib, ms[1..], d.(unknown := CountUnknown(d.unknown)), id);
        case Some((key, mismatch)) =>
          var d1 := d.(flags := Noted(d.flags, mismatch, KeyCaseMismatch));
          RootMemberFound(lib, ms[0], d1, id);
          RootFinds(lib, ms[1..], RootIn(lib, key, ms[0].value, d1), id);
      }
    }
  }

  lemma NothingPresent(lib: NumLib, id: RootKey)
    ensures !Present(lib, [], id)
  {
  }

  lemma StrangerPresents(lib: NumLib, m: Member, id: RootKey)
    requires ValidMember(m) && Lookup(ROOT_KEYS, KeyText(m)) == None
    ensures !Presents(lib, m, id)
  {
    hide KeyText, Lookup, Valid;
  }

  // --------------------------------------------------------------------------------------
  // The flag pass
  // --------------------------------------------------------------------------------------

  /** The notes that are taken are exactly those whose condition holds. */
  lemma {:induction false} NotesTaken(flags: set<Flag>, notes: seq<(bool, Flag)>, f: Flag)
    ensures f in NotedAll(flags, notes) <==> f in flags || exists k :: 0 <= k < |notes| && notes[k] == (true, f)
    decreases |notes|
  {
    if notes != [] {
      NotesTaken(Noted(flags, notes[0].0, notes[0].1), notes[1..], f);
      if notes[0] != (true, f) && f !in flags && exists k :: 0 <= k < |notes| && notes[k] == (true, f) {
        var k :| 0 <= k < |notes| && notes[k] == (true, f);
        assert notes[1..][k - 1] == (true, f);
      }
    }
  }

  /** One note may stand at one place only. */
  lemma TakenAt(flags: set<Flag>, notes: seq<(bool, Flag)>, i: nat)
    requires i < |notes| && notes[i].1 !in flags
    requires forall k :: 0 <= k < |notes| && k != i ==> notes[k].1 != notes[i].1
    ensures notes[i].1 in NotedAll(flags, notes) <==> notes[i].0
  {
    NotesTaken(flags, notes, notes[i].1);
  }

  /** The last value the object's options give for `f` is true. */
  predicate On(lib: NumLib, ms: seq<Member>, f: OptionField)
    requires ValidMembers(ms)
  {
    LastBool(lib, SectionOf(ms, OptionsKey), f) == Some(true)
  }

  /** The message's ball data gives `f`. */
  predicate Measured(lib: NumLib, ms: seq<Member>, f: BallField)
    requires ValidMembers(ms)
  {
    LastNumber(lib, BALL_KEYS, SectionOf(ms, BallDataKey), f).Some?
  }

  /** Speed, both launch angles, and the spin either as total and axis or as back and side spin. */
  predicate MeasuredInFull(lib: NumLib, ms: seq<Member>)
    requires ValidMembers(ms)
  {
    && Measured(lib, ms, BallSpeed) && Measured(lib, ms, Hla) && Measured(lib, ms, Vla)
    && (|| (Measured(lib, ms, TotalSpin) && Measured(lib, ms, SpinAxis))
        || (Measured(lib, ms, BackSpin) && Measured(lib, ms, SideSpin)))
  }

  /** The draft's option and ball fields are the last values given. */
  lemma DraftTold(lib: NumLib, ms: seq<Member>, o: OptionField, b: BallField)
    requires ValidMembers(ms)
    ensures Truth(FoldRoot(lib, ms, BLANK).options, o) <==> On(lib, ms, o)
    ensures b in FoldRoot(lib, ms, BLANK).ball <==> Measured(lib, ms, b)
  {
    hide FoldRoot, LastNumber, LastBool, SectionOf;
    SectionsLastWin(lib, ms, BLANK, b, ClubSpeed, o);
  }

  /** What the finished message says of its kind, its units and the ball it measured. */
  lemma DraftMeasured(lib: NumLib, ms: seq<Member>)
    requires ValidMembers(ms)
    ensures BallComplete(FoldRoot(lib, ms, BLANK).ball) <==> MeasuredInFull(lib, ms)
  {
    hide FoldRoot, Measured;
    DraftTold(lib, ms, IsHeartBeat, BallSpeed);
    DraftTold(lib, ms, IsHeartBeat, Hla);
    DraftTold(lib, ms, IsHeartBeat, Vla);
    DraftTold(lib, ms, IsHeartBeat, TotalSpin);
    DraftTold(lib, ms, IsHeartBeat, SpinAxis);
    DraftTold(lib, ms, IsHeartBeat, BackSpin);
    DraftTold(lib, ms, IsHeartBeat, SideSpin);
  }

  lemma DraftKind(lib: NumLib, ms: seq<Member>)
    requires ValidMembers(ms)
    ensures var kind := KindFrom(FoldRoot(lib, ms, BLANK).options);
            && (kind == Shot <==> On(lib, ms, ContainsBallData) || On(lib, ms, ContainsClubData))
            && (kind == Heartbeat <==> !On(lib, ms, ContainsBallData) && !On(lib, ms, ContainsClubData) && On(lib, ms, IsHeartBeat))
            && (kind == Status <==> !On(lib, ms, ContainsBallData) && !On(lib, ms, ContainsClubData) && !On(lib, ms, IsHeartBeat))
  {
    hide FoldRoot, On, Truth;
    DraftTold(lib, ms, ContainsBallData, BallSpeed);
    DraftTold(lib, ms, ContainsClubData, BallSpeed);
    DraftTold(lib, ms, IsHeartBeat, BallSpeed);
  }

  lemma DraftUnits(lib: NumLib, ms: seq<Member>)
    requires ValidMembers(ms)
    ensures var units := UnitsFrom(FoldRoot(lib, ms, BLANK));
            && (units == Yards <==> SaysUnits(ms, "Yards"))
            && (units == Meters <==> SaysUnits(ms, "Meters"))
  {
    hide FoldRoot, LastString, Ascii, CiEqual;
    RootLastWins(lib, ms, BLANK);
    RootFinds(lib, ms, BLANK, UnitsKey);
    UnitsDiffer(Or(LastString(ROOT_KEYS, ms, UnitsKey, 16), []));
  }

  lemma UnitsDiffer(s: seq<Byte>)
    ensures !(CiEqual(s, Ascii("Yards")) && CiEqual(s, Ascii("Meters")))
  {
  }

  /** The last units given are these, in whatever case. */
  predicate SaysUnits(ms: seq<Member>, name: string)
    requires ValidMembers(ms)
  {
    LastString(ROOT_KEYS, ms, UnitsKey, 16).Some? && CiEqual(LastString(ROOT_KEYS, ms, UnitsKey, 16).value, Ascii(name))
  }

  /**
   * The kind of every object that decodes: a shot if the last value given for either contains-data
   * option is true, else a heartbeat if the last one for IsHeartBeat is, else a status message.
   * Its units are the last ones given, and its counts stop at 65535.
   */
  lemma MessageKind(lib: NumLib, before: seq<Byte>, v: Value, behind: seq<Byte>)
    requires v.Object? && Valid(v) && AllWs(before) && AllWs(behind) && AllRootAcceptable(lib, v.members)
    ensures var ms, r := v.members, DecodeMessage(lib, before + (Print(v) + behind));
            var ball, club, beat := On(lib, ms, ContainsBallData), On(lib, ms, ContainsClubData), On(lib, ms, IsHeartBeat);
            && r.Some?
            && (r.value.kind == Shot <==> ball || club)
            && (r.value.kind == Heartbeat <==> !ball && !club && beat)
            && (r.value.kind == Status <==> !ball && !club && !beat)
            && (r.value.units == Yards <==> SaysUnits(ms, "Yards"))
            && (r.value.units == Meters <==> SaysUnits(ms, "Meters"))
            && r.value.unknownKeys == AtMost(AllStrangers(ms), 0xffff)
            && r.value.wireLength == AtMost(|before| + |Print(v)| + |behind|, 0xffff)
  {
    hide DecodeMessage, FoldRoot, KindFrom, UnitsFrom, NotedAll, Findings, AllStrangers, On, SaysUnits, Print,
         Valid, AllRootAcceptable;
    var ms := v.members;
    assert ValidMembers(ms) by {
      MembersValid(v);
    }
    MessagePrinted(lib, before, v, behind);
    DraftKind(lib, ms);
    DraftUnits(lib, ms);
    RootNotes(lib, ms, BLANK, UnknownKeys);
  }

  lemma MembersValid(v: Value)
    requires v.Object? && Valid(v)
    ensures ValidMembers(v.members)
  {
  }

  /** A flag the pass adds is set exactly if its condition holds. */
  lemma FlagSet(lib: NumLib, ms: seq<Member>, i: nat)
    requires ValidMembers(ms) && i < 12
    ensures var d := FoldRoot(lib, ms, BLANK);
            Findings(d)[i].1 in NotedAll(d.flags, Findings(d)) <==> Findings(d)[i].0
  {
    hide FoldRoot, KindFrom, UnitsFrom, NotedAll, Truth, BallComplete;
    var d := FoldRoot(lib, ms, BLANK);
    RootNotes(lib, ms, BLANK, Findings(d)[i].1);
    assert !Gives(lib, ms, Findings(d)[i].1);
    TakenAt(d.flags, Findings(d), i);
  }

  /** A flag the pass does not add is set exactly if a member was noted for it. */
  lemma FlagKept(lib: NumLib, ms: seq<Member>, f: Flag)
    requires ValidMembers(ms) && f in {KeyCaseMismatch, TypeCoerced, StringTruncated, ShotNumberNotInteger, ShotNumberRepeated}
    ensures var d := FoldRoot(lib, ms, BLANK);
            f in NotedAll(d.flags, Findings(d)) <==> Gives(lib, ms, f)
  {
    hide FoldRoot, KindFrom, UnitsFrom, NotedAll, Gives, Truth, BallComplete;
    var d := FoldRoot(lib, ms, BLANK);
    RootNotes(lib, ms, BLANK, f);
    NotesTaken(d.flags, Findings(d), f);
  }

  /** The flags of the message's own members. */
  lemma OwnFlags(lib: NumLib, ms: seq<Member>)
    requires ValidMembers(ms)
    ensures var d := FoldRoot(lib, ms, BLANK); var flags := NotedAll(d.flags, Findings(d));
            && (MissingDeviceId in flags <==> LastString(ROOT_KEYS, ms, DeviceIdKey, 64) == None)
            && (MissingShotNumber in flags <==> LastNumber(lib, ROOT_KEYS, ms, ShotNumberKey) == None)
            && (MissingApiVersion in flags <==> LastString(ROOT_KEYS, ms, ApiVersionKey, 8) == None)
            && (UnknownApiVersion in flags <==> LastString(ROOT_KEYS, ms, ApiVersionKey, 8) !in {None, Some([49])})
            && (UnknownUnits in flags <==> && LastString(ROOT_KEYS, ms, UnitsKey, 16).Some?
                                           && !SaysUnits(ms, "Yards") && !SaysUnits(ms, "Meters"))
            && (UnknownKeys in flags <==> AllStrangers(ms) > 0)
  {
    hide FoldRoot, KindFrom, UnitsFrom, NotedAll, Truth, BallComplete, LastString, LastNumber, AllStrangers,
         ClampInt64, SaysUnits;
    FlagSet(lib, ms, 0);
    FlagSet(lib, ms, 1);
    FlagSet(lib, ms, 2);
    FlagSet(lib, ms, 3);
    FlagSet(lib, ms, 4);
    FlagSet(lib, ms, 11);
    RootLastWins(lib, ms, BLANK);
    DraftUnits(lib, ms);
    RootFinds(lib, ms, BLANK, DeviceIdKey);
    RootFinds(lib, ms, BLANK, UnitsKey);
    RootFinds(lib, ms, BLANK, ShotNumberKey);
    RootFinds(lib, ms, BLANK, ApiVersionKey);
    RootNotes(lib, ms, BLANK, UnknownKeys);
    VersionOne();
  }

  lemma VersionOne()
    ensures Ascii("1") == [49]
  {
  }

  /** The flags that reading the members has set, and no pass behind it. */
  lemma KeptFlags(lib: NumLib, ms: seq<Member>)
    requires ValidMembers(ms)
    ensures var d := FoldRoot(lib, ms, BLANK); var flags := NotedAll(d.flags, Findings(d));
            && (KeyCaseMismatch in flags <==> AnyWrongCase(ms))
            && (TypeCoerced in flags <==> AnyCoerced(lib, ms))
            && (StringTruncated in flags <==> AnyOverlong(ms))
            && (ShotNumberNotInteger in flags <==> AnyFractional(lib, ms))
            && ShotNumberRepeated !in flags
  {
    hide FoldRoot, NotedAll, Findings, AnyWrongCase, AnyCoerced, AnyOverlong, AnyFractional;
    FlagKept(lib, ms, KeyCaseMismatch);
    FlagKept(lib, ms, TypeCoerced);
    FlagKept(lib, ms, StringTruncated);
    FlagKept(lib, ms, ShotNumberNotInteger);
    FlagKept(lib, ms, ShotNumberRepeated);
  }

  lemma FinishFlags(d: Draft, length: nat)
    ensures Finish(d, length).flags == NotedAll(d.flags, Findings(d))
  {
  }

  /** The flags about the sections and what the options say of them. */
  lemma SectionFlags(lib: NumLib, ms: seq<Member>)
    requires ValidMembers(ms)
    ensures var d := FoldRoot(lib, ms, BLANK); var flags := NotedAll(d.flags, Findings(d));
            var ball, club := On(lib, ms, ContainsBallData), On(lib, ms, ContainsClubData);
            && (MissingOptions in flags <==> !HasSection(ms, OptionsKey))
            && (BallFlagWithoutObject in flags <==> ball && !HasSection(ms, BallDataKey))
            && (BallObjectWithoutFlag in flags <==> HasSection(ms, BallDataKey) && !ball)
            && (ClubFlagWithoutObject in flags <==> club && !HasSection(ms, ClubDataKey))
            && (ClubObjectWithoutFlag in flags <==> HasSection(ms, ClubDataKey) && !club && !ball)
            && (BallIncomplete in flags <==> ball && !MeasuredInFull(lib, ms))
  {
    hide FoldRoot, KindFrom, UnitsFrom, NotedAll, Truth, BallComplete, On, HasSection, MeasuredInFull;
    FlagSet(lib, ms, 5);
    FlagSet(lib, ms, 6);
    FlagSet(lib, ms, 7);
    FlagSet(lib, ms, 8);
    FlagSet(lib, ms, 9);
    FlagSet(lib, ms, 10);
    DraftKind(lib, ms);
    DraftMeasured(lib, ms);
    DraftTold(lib, ms, ContainsBallData, BallSpeed);
    DraftTold(lib, ms, ContainsClubData, BallSpeed);
    RootFinds(lib, ms, BLANK, BallDataKey);
    RootFinds(lib, ms, BLANK, ClubDataKey);
    RootFinds(lib, ms, BLANK, OptionsKey);
  }

  /**
   * Every flag of an object that decodes, each exactly if what it says is so: of the members that
   * are there, the last values they give, and how they are spelled.
   */
  lemma MessageFlags(lib: NumLib, before: seq<Byte>, v: Value, behind: seq<Byte>)
    requires v.Object? && Valid(v) && AllWs(before) && AllWs(behind) && AllRootAcceptable(lib, v.members)
    ensures var ms, r := v.members, DecodeMessage(lib, before + (Print(v) + behind));
            var ball, club := On(lib, ms, ContainsBallData), On(lib, ms, ContainsClubData);
            && r.Some?
            && (MissingDeviceId in r.value.flags <==> LastString(ROOT_KEYS, ms, DeviceIdKey, 64) == None)
            && (MissingShotNumber in r.value.flags <==> LastNumber(lib, ROOT_KEYS, ms, ShotNumberKey) == None)
            && (MissingApiVersion in r.value.flags <==> LastString(ROOT_KEYS, ms, ApiVersionKey, 8) == None)
            && (UnknownApiVersion in r.value.flags <==> LastString(ROOT_KEYS, ms, ApiVersionKey, 8) !in {None, Some([49])})
            && (UnknownUnits in r.value.flags <==> && LastString(ROOT_KEYS, ms, UnitsKey, 16).Some?
                                                   && !SaysUnits(ms, "Yards") && !SaysUnits(ms, "Meters"))
            && (UnknownKeys in r.value.flags <==> AllStrangers(ms) > 0)
            && (MissingOptions in r.value.flags <==> !HasSection(ms, OptionsKey))
            && (BallFlagWithoutObject in r.value.flags <==> ball && !HasSection(ms, BallDataKey))
            && (BallObjectWithoutFlag in r.value.flags <==> HasSection(ms, BallDataKey) && !ball)
            && (ClubFlagWithoutObject in r.value.flags <==> club && !HasSection(ms, ClubDataKey))
            && (ClubObjectWithoutFlag in r.value.flags <==> HasSection(ms, ClubDataKey) && !club && !ball)
            && (BallIncomplete in r.value.flags <==> ball && !MeasuredInFull(lib, ms))
            && (KeyCaseMismatch in r.value.flags <==> AnyWrongCase(ms))
            && (TypeCoerced in r.value.flags <==> AnyCoerced(lib, ms))
            && (StringTruncated in r.value.flags <==> AnyOverlong(ms))
            && (ShotNumberNotInteger in r.value.flags <==> AnyFractional(lib, ms))
            && ShotNumberRepeated !in r.value.flags
  {
    hide *;
    var ms := v.members;
    MembersValid(v);
    MessagePrinted(lib, before, v, behind);
    FinishFlags(FoldRoot(lib, ms, BLANK), |before| + |Print(v)| + |behind|);
    OwnFlags(lib, ms);
    SectionFlags(lib, ms);
    KeptFlags(lib, ms);
  }
}
