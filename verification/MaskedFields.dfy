/**
 * What masking does to every field of a decoded message, whatever the keys: a text field gets mask
 * text if the string that gave it is masked, and a number or a truth value is passed over if the
 * string that spelled it is.
 */
module MaskedFields {
  import opened Bytes
  import opened Json
  import opened Text
  import opened Numbers
  import opened Message
  import opened Reader
  import opened Decode
  import opened DecodeJson
  import opened LastWins
  import opened Redact
  import opened RedactJson
  import opened RedactDecode

  /** `strtod` takes no text for a number that begins like a mask. */
  ghost predicate MaskIsNoNumber(lib: NumLib) {
    forall k: nat | 0 < k :: lib.strtod(MaskText(k)).used != k
  }

  /** The members whose value is not masked. */
  function Spared(ms: seq<Member>): (r: seq<Member>)
    requires ValidMembers(ms)
    ensures ValidMembers(r)
  {
    if ms == [] then [] else if Struck(ms[0]) then Spared(ms[1..]) else [ms[0]] + Spared(ms[1..])
  }

  // --------------------------------------------------------------------------------------
  // One member
  // --------------------------------------------------------------------------------------

  lemma MaskReads(lib: NumLib, items: seq<Item>)
    requires MaskIsNoNumber(lib) && ValidItems(items)
    ensures var v := Value.Text(Masked(items));
            Valid(v) && !NumberIn(lib, v).Read? && !BoolIn(lib, v).Read?
  {
    hide Masked, MaskText, Ascii, Field, CStr, IsMask;
    var n := |PrintItems(items)|;
    MaskedIsValid(items);
    MaskFits(n, NUMBER_MAX);
    MaskFits(n, BOOL_TEXT_MAX);
    MaskSpellsNothing(CStr(Field(NUMBER_MAX, MaskText(n))));
    MaskSpellsNothing(CStr(Field(BOOL_TEXT_MAX, MaskText(n))));
    NotANumber(lib, CStr(Field(NUMBER_MAX, MaskText(n))));
  }

  lemma MaskSpellsNothing(t: seq<Byte>)
    requires IsMask(t)
    ensures !CiEqual(t, Ascii("true")) && !CiEqual(t, Ascii("false"))
  {
    if t != [] {
      assert t[0] == MaskByte(0) == 60;
      assert Lower(Ascii("true")[0]) == 116 && Lower(Ascii("false")[0]) == 102;
    }
  }

  lemma NotANumber(lib: NumLib, t: seq<Byte>)
    requires MaskIsNoNumber(lib) && IsMask(t)
    ensures t == [] || lib.strtod(t).used != |t|
  {
  }

  /** After masking, a member gives no number and no truth value if it is struck, and what it gave if not. */
  lemma MemberAfter(lib: NumLib, m: Member)
    requires ValidMember(m) && MaskIsNoNumber(lib)
    ensures ValidMember(RedactedMember(m)) && KeyText(RedactedMember(m)) == KeyText(m)
    ensures if Struck(m) then !NumberIn(lib, RedactedMember(m).value).Read? && !BoolIn(lib, RedactedMember(m).value).Read?
            else NumberIn(lib, RedactedMember(m).value) == NumberIn(lib, m.value) && BoolIn(lib, RedactedMember(m).value) == BoolIn(lib, m.value)
  {
    hide ScanNames, Masked, Redacted, NumberIn, BoolIn, Meaning, MaskIsNoNumber;
    RedactedMemberIsValid(m);
    SparedStays(m);
    if Struck(m) {
      MaskReads(lib, m.value.items);
    } else {
      RedactedReadsAlike(lib, m.value);
    }
  }

  // --------------------------------------------------------------------------------------
  // Many
  // --------------------------------------------------------------------------------------

  lemma {:induction false} LastNumberAfter<T>(lib: NumLib, tab: seq<Key<T>>, ms: seq<Member>, id: T)
    requires ValidMembers(ms) && MaskIsNoNumber(lib)
    ensures ValidMembers(RedactedMembers(ms))
    ensures LastNumber(lib, tab, RedactedMembers(ms), id) == LastNumber(lib, tab, Spared(ms), id)
    decreases ms
  {
    hide RedactedMembers, RedactedMember, KeyText, Lookup, Struck, NumberIn, MaskIsNoNumber;
    if ms == [] {
      RedactedMembersAreValid(ms);
      NoMembersRedacted();
    } else {
      RedactedMembersUnroll(ms);
      MemberAfter(lib, ms[0]);
      LastNumberAfter(lib, tab, ms[1..], id);
      if !Struck(ms[0]) {
        assert ([ms[0]] + Spared(ms[1..]))[1..] == Spared(ms[1..]);
      }
    }
  }

  lemma {:induction false} LastBoolAfter(lib: NumLib, ms: seq<Member>, id: OptionField)
    requires ValidMembers(ms) && MaskIsNoNumber(lib)
    ensures ValidMembers(RedactedMembers(ms))
    ensures LastBool(lib, RedactedMembers(ms), id) == LastBool(lib, Spared(ms), id)
    decreases ms
  {
    hide RedactedMembers, RedactedMember, KeyText, Lookup, Struck, BoolIn, MaskIsNoNumber;
    if ms == [] {
      RedactedMembersAreValid(ms);
      NoMembersRedacted();
    } else {
      RedactedMembersUnroll(ms);
      MemberAfter(lib, ms[0]);
      LastBoolAfter(lib, ms[1..], id);
      if !Struck(ms[0]) {
        assert ([ms[0]] + Spared(ms[1..]))[1..] == Spared(ms[1..]);
      }
    }
  }

  lemma {:induction false} RedactedConcat(a: seq<Member>, b: seq<Member>)
    ensures RedactedMembers(a + b) == RedactedMembers(a) + RedactedMembers(b)
    decreases |a|
  {
    hide Redacted, Masked, NamesDevice;
    if a == [] {
      assert a + b == b;
    } else {
      assert (a + b)[1..] == a[1..] + b;
      RedactedConcat(a[1..], b);
    }
  }

  /** The sections of the masked message are the sections, masked. */
  lemma {:induction false} SectionAfter(ms: seq<Member>, key: RootKey)
    requires ValidMembers(ms)
    ensures ValidMembers(RedactedMembers(ms))
    ensures SectionOf(RedactedMembers(ms), key) == RedactedMembers(SectionOf(ms, key))
    decreases ms
  {
    hide RedactedMembers, RedactedMember, KeyText, Lookup, ScanNames, Redacted, Masked;
    if ms == [] {
      RedactedMembersAreValid(ms);
      NoMembersRedacted();
    } else {
      RedactedMembersUnroll(ms);
      SparedStays(ms[0]);
      SectionAfter(ms[1..], key);
      if ms[0].value.Object? {
        ObjectStays(ms[0].value);
        RedactedConcat(ms[0].value.members, SectionOf(ms[1..], key));
      } else {
        OthersStayOthers(ms[0].value);
      }
    }
  }

  // --------------------------------------------------------------------------------------
  // The fields
  // --------------------------------------------------------------------------------------

  /** The string that gives a text field is not masked, or its text is what the mask leaves in the field. */
  predicate TextKept(ms: seq<Member>, id: RootKey, size: nat)
    requires ValidMembers(ms) && size > 0
  {
    var m := LastText(ms, id);
    m.Some? && ScanNames(m.value) ==>
      Short(m.value, size) == CStr(Field(size, MaskText(|PrintItems(m.value.value.items)|)))
  }

  function ShotOf(last: Option<Double>): int {
    match last
    case Some(v) => ClampInt64(v)
    case None => 0
  }

  /**
   * Exactly when masking changes the units text or the version; and what it makes of every number
   * and truth value: the last one given for it by a member that is not masked, where it was the last
   * one given for it by any. Such a field is unchanged exactly when the two are the same.
   */
  lemma FieldsAfter(lib: NumLib, v: Value, b: BallField, c: ClubField, o: OptionField)
    requires v.Object? && Valid(v) && DecodeMessage(lib, Print(v)).Some? && MaskIsNoNumber(lib)
    ensures DecodeMessage(lib, Mask(Print(v))).Some?
    ensures var m, n, ms := DecodeMessage(lib, Print(v)).value, DecodeMessage(lib, Mask(Print(v))).value, v.members;
            && (n.unitsText == m.unitsText <==> TextKept(ms, UnitsKey, UNITS_TEXT_MAX))
            && (n.apiVersion == m.apiVersion <==> TextKept(ms, ApiVersionKey, API_VERSION_MAX))
            && m.shotNumber == ShotOf(LastNumber(lib, ROOT_KEYS, ms, ShotNumberKey))
            && n.shotNumber == ShotOf(LastNumber(lib, ROOT_KEYS, Spared(ms), ShotNumberKey))
            && Entry(m.ball, b) == LastNumber(lib, BALL_KEYS, SectionOf(ms, BallDataKey), b)
            && Entry(n.ball, b) == LastNumber(lib, BALL_KEYS, Spared(SectionOf(ms, BallDataKey)), b)
            && Entry(m.club, c) == LastNumber(lib, CLUB_KEYS, SectionOf(ms, ClubDataKey), c)
            && Entry(n.club, c) == LastNumber(lib, CLUB_KEYS, Spared(SectionOf(ms, ClubDataKey)), c)
            && Entry(m.options, o) == LastBool(lib, SectionOf(ms, OptionsKey), o)
            && Entry(n.options, o) == LastBool(lib, Spared(SectionOf(ms, OptionsKey)), o)
  {
    hide *;
    var ms := v.members;
    MembersOf(v);
    var rs := RedactedMembers(ms);
    MaskedMessage(lib, v);
    var d, e := FoldRoot(lib, ms, BLANK), FoldRoot(lib, rs, BLANK);
    TextAfter(lib, ms, UnitsKey, UNITS_TEXT_MAX);
    TextAfter(lib, ms, ApiVersionKey, API_VERSION_MAX);
    DraftFields(lib, ms, b, c, o);
    DraftFields(lib, rs, b, c, o);
    LastNumberAfter(lib, ROOT_KEYS, ms, ShotNumberKey);
    SectionAfter(ms, BallDataKey);
    SectionAfter(ms, ClubDataKey);
    SectionAfter(ms, OptionsKey);
    LastNumberAfter(lib, BALL_KEYS, SectionOf(ms, BallDataKey), b);
    LastNumberAfter(lib, CLUB_KEYS, SectionOf(ms, ClubDataKey), c);
    LastBoolAfter(lib, SectionOf(ms, OptionsKey), o);
    FinishFields(d, |Print(v)|);
    FinishFields(e, |Print(v)|);
  }

  lemma MembersOf(v: Value)
    requires v.Object? && Valid(v)
    ensures ValidMembers(v.members) && UNITS_TEXT_MAX > 0 && API_VERSION_MAX > 0
  {
  }

  lemma TextAfter(lib: NumLib, ms: seq<Member>, id: RootKey, size: nat)
    requires ValidMembers(ms) && size > 0
    ensures ValidMembers(RedactedMembers(ms))
    ensures Or(LastString(ROOT_KEYS, RedactedMembers(ms), id, size), []) == Or(LastString(ROOT_KEYS, ms, id, size), [])
            <==> TextKept(ms, id, size)
  {
    hide RedactedMembers, LastString, ScanNames, Short, MaskText;
    LastStrings(ms, id, size);
  }

  /** The fields of the message's draft, each the last value given for it. */
  lemma DraftFields(lib: NumLib, ms: seq<Member>, b: BallField, c: ClubField, o: OptionField)
    requires ValidMembers(ms)
    ensures var d := FoldRoot(lib, ms, BLANK);
            && d.unitsText == Or(LastString(ROOT_KEYS, ms, UnitsKey, UNITS_TEXT_MAX), [])
            && d.apiVersion == Or(LastString(ROOT_KEYS, ms, ApiVersionKey, API_VERSION_MAX), [])
            && d.shotNumber == ShotOf(LastNumber(lib, ROOT_KEYS, ms, ShotNumberKey))
            && Entry(d.ball, b) == LastNumber(lib, BALL_KEYS, SectionOf(ms, BallDataKey), b)
            && Entry(d.club, c) == LastNumber(lib, CLUB_KEYS, SectionOf(ms, ClubDataKey), c)
            && Entry(d.options, o) == LastBool(lib, SectionOf(ms, OptionsKey), o)
  {
    hide FoldRoot, LastString, LastNumber, LastBool, SectionOf, ClampInt64;
    RootLastWins(lib, ms, BLANK);
    SectionsLastWin(lib, ms, BLANK, b, c, o);
  }

  lemma FinishFields(d: Draft, length: nat)
    ensures var m := Finish(d, length);
            && m.unitsText == d.unitsText && m.apiVersion == d.apiVersion && m.shotNumber == d.shotNumber
            && m.ball == d.ball && m.club == d.club && m.options == d.options
  {
    hide KindFrom, UnitsFrom, NotedAll, Findings;
  }
}
