/**
 * What is left of a message after masking: exactly when its device id is mask text, and when the
 * rest of it decodes as before. Both hold on every key spelled without escapes and NULs;
 * `EscapedKeyIsMissed` shows a key that scan and decoder differ on.
 */
module RedactDecode {
  import opened Bytes
  import opened Json
  import opened Text
  import opened Numbers
  import opened Message
  import opened Reader
  import opened Decode
  import opened DecodeJson
  import opened LastWins
  import opened Redact
  import opened RedactJson
  import Frame
  import FrameJson

  // --------------------------------------------------------------------------------------
  // Shape
  // --------------------------------------------------------------------------------------

  lemma MaskedIsValid(items: seq<Item>)
    ensures ValidItems(Masked(items))
    ensures Meaning(Masked(items)) == MaskText(|PrintItems(items)|)
    ensures NUL !in MaskText(|PrintItems(items)|)
  {
    var n := |PrintItems(items)|;
    forall k | 0 <= k < n
      ensures MaskByte(k) != QUOTE && MaskByte(k) != BACKSLASH && MaskByte(k) != NUL
    {
      MaskBytesArePlain(k);
    }
    PlainItemsMean(MaskText(n));
  }

  lemma MaskBytesArePlain(k: nat)
    ensures MaskByte(k) != QUOTE && MaskByte(k) != BACKSLASH && MaskByte(k) != NUL
  {
    assert forall i :: 0 <= i < 10 ==> MASK[i] != QUOTE && MASK[i] != BACKSLASH && MASK[i] != NUL;
  }

  lemma {:induction false} RedactedIsValid(v: Value)
    requires Valid(v)
    ensures Valid(Redacted(v)) && Height(Redacted(v)) == Height(v)
    decreases v, 0
  {
    match v {
      case Array(_, elements) => RedactedElementsAreValid(elements);
      case Object(_, members) => RedactedMembersAreValid(members);
      case _ =>
    }
  }

  lemma {:induction false} RedactedElementsAreValid(es: seq<Element>)
    requires ValidElements(es)
    ensures ValidElements(RedactedElements(es)) && ElementsHeight(RedactedElements(es)) == ElementsHeight(es)
    decreases es, 1
  {
    if es != [] {
      RedactedIsValid(es[0].value);
      RedactedElementsAreValid(es[1..]);
      assert RedactedElements(es)[1..] == RedactedElements(es[1..]);
    }
  }

  lemma {:induction false} RedactedMembersAreValid(ms: seq<Member>)
    requires ValidMembers(ms)
    ensures ValidMembers(RedactedMembers(ms)) && MembersHeight(RedactedMembers(ms)) == MembersHeight(ms)
    decreases ms, 1
  {
    hide Masked, NamesDevice;
    if ms != [] {
      RedactedIsValid(ms[0].value);
      RedactedMembersAreValid(ms[1..]);
      assert RedactedMembers(ms)[1..] == RedactedMembers(ms[1..]);
      if ms[0].value.Text? {
        MaskedIsValid(ms[0].value.items);
      }
    }
  }

  // --------------------------------------------------------------------------------------
  // Keys
  // --------------------------------------------------------------------------------------

  /** A key spelled without escapes or NULs. */
  predicate PlainKey(key: seq<Item>) {
    forall i :: 0 <= i < |key| ==> key[i].Plain? && key[i].b != NUL
  }

  predicate PlainKeys(ms: seq<Member>) {
    forall i :: 0 <= i < |ms| ==> PlainKey(ms[i].key)
  }

  /** The keys the decoder looks at: those of the message and those of its sections. */
  predicate PlainMessage(ms: seq<Member>) {
    PlainKeys(ms) && forall i :: 0 <= i < |ms| ==> ms[i].value.Object? ==> PlainKeys(ms[i].value.members)
  }

  /** The scan takes the member for a device id, as it is spelled. */
  predicate ScanNames(m: Member) {
    NamesDevice(PrintItems(m.key))
  }

  /** The decoder takes the member for a device id, as its key reads. */
  predicate DecoderNames(m: Member)
    requires ValidItems(m.key)
  {
    CiEqual(KeyText(m), KEY)
  }

  /** The member's value is masked. */
  predicate Struck(m: Member) {
    m.value.Text? && ScanNames(m)
  }

  /** What is masked in a section is nothing the section knows. */
  predicate CleanSection<T>(tab: seq<Key<T>>, ms: seq<Member>)
    requires ValidMembers(ms)
  {
    ms == [] || ((Struck(ms[0]) ==> Lookup(tab, KeyText(ms[0])) == None) && CleanSection(tab, ms[1..]))
  }

  /** The root keys whose value a string may give. */
  predicate TakesText(id: RootKey) {
    id == UnitsKey || id == ShotNumberKey || id == ApiVersionKey
  }

  /** What is masked is nothing the decoder takes a value from but a device id. */
  predicate CleanMember(m: Member)
    requires ValidMember(m)
  {
    match Lookup(ROOT_KEYS, KeyText(m))
    case None => true
    case Some((id, _)) =>
      && (Struck(m) ==> !TakesText(id))
      && (m.value.Object? ==>
            && (id == BallDataKey ==> CleanSection(BALL_KEYS, m.value.members))
            && (id == ClubDataKey ==> CleanSection(CLUB_KEYS, m.value.members))
            && (id == OptionsKey ==> CleanSection(OPTION_KEYS, m.value.members)))
  }

  predicate Clean(ms: seq<Member>)
    requires ValidMembers(ms)
  {
    ms == [] || (assert ValidMember(ms[0]); CleanMember(ms[0]) && Clean(ms[1..]))
  }

  lemma {:induction false} PlainKeyMeans(key: seq<Item>)
    requires PlainKey(key) && ValidItems(key)
    ensures Meaning(key) == PrintItems(key) && NUL !in Meaning(key)
    ensures QUOTE !in PrintItems(key)
  {
    if key != [] {
      PlainKeyMeans(key[1..]);
    }
  }

  /** Of the keys the decoder holds, the scan recognises exactly those that name the device id. */
  lemma NamedIsDeviceId(m: Member)
    requires ValidMember(m) && PlainKey(m.key)
    ensures ScanNames(m) <==> DecoderNames(m)
    ensures ScanNames(m) ==> KeyText(m) == PrintItems(m.key)
  {
    PlainKeyMeans(m.key);
    var raw := PrintItems(m.key);
    assert KeyText(m) == Field(KEY_MAX, raw);
    if |raw| > 8 {
      assert raw[|raw| - 9] != QUOTE;
    } else if |raw| == 8 {
      assert raw[|raw| - 8..] == raw;
    }
  }

  /** No entry of the table is as long as "deviceid" and starts like it. */
  predicate Unlike<T>(tab: seq<Key<T>>) {
    forall i :: 0 <= i < |tab| ==> tab[i].name != [] && (|tab[i].name| != 8 || Lower(tab[i].name[0]) != 100)
  }

  lemma {:induction false} UnlikeFindsNothing<T>(tab: seq<Key<T>>, key: seq<Byte>, exact: bool)
    requires Unlike(tab) && CiEqual(key, KEY)
    ensures FindKey(tab, key, exact) == None
  {
    if tab != [] {
      UnlikeFindsNothing(tab[1..], key, exact);
      assert Lower(key[0]) == Lower(KEY[0]) == 100;
    }
  }

  lemma DeviceIdLooksUp(key: seq<Byte>)
    requires CiEqual(key, KEY)
    ensures Lookup(ROOT_KEYS, key).Some? && Lookup(ROOT_KEYS, key).value.0 == DeviceIdKey
  {
    UnlikeFindsNothing(ROOT_KEYS[1..], key, true);
    UnlikeFindsNothing(ROOT_KEYS[1..], key, false);
  }

  lemma NamedIsUnknown<T>(tab: seq<Key<T>>, m: Member)
    requires ValidMember(m) && DecoderNames(m) && Unlike(tab)
    ensures Lookup(tab, KeyText(m)) == None
  {
    UnlikeFindsNothing(tab, KeyText(m), true);
    UnlikeFindsNothing(tab, KeyText(m), false);
  }

  lemma {:induction false} PlainSectionIsClean<T>(tab: seq<Key<T>>, ms: seq<Member>)
    requires ValidMembers(ms) && PlainKeys(ms) && Unlike(tab)
    ensures CleanSection(tab, ms)
  {
    hide ScanNames, DecoderNames, PlainKey, Unlike, KeyText, Lookup;
    if ms != [] {
      NamedIsDeviceId(ms[0]);
      if ScanNames(ms[0]) {
        NamedIsUnknown(tab, ms[0]);
      }
      PlainSectionIsClean(tab, ms[1..]);
    }
  }

  lemma NamedIsRoot(m: Member)
    requires ValidMember(m)
    ensures DecoderNames(m) <==> Lookup(ROOT_KEYS, KeyText(m)).Some? && Lookup(ROOT_KEYS, KeyText(m)).value.0 == DeviceIdKey
  {
    hide CiEqual, KeyText, Lookup;
    if DecoderNames(m) {
      DeviceIdLooksUp(KeyText(m));
    } else if Lookup(ROOT_KEYS, KeyText(m)).Some? && Lookup(ROOT_KEYS, KeyText(m)).value.0 == DeviceIdKey {
      OnlyDeviceId(KeyText(m));
    }
  }

  /** On keys spelled without escapes and NULs nothing but device ids is masked. */
  lemma {:induction false} PlainIsClean(ms: seq<Member>)
    requires ValidMembers(ms) && PlainMessage(ms)
    ensures Clean(ms)
  {
    hide ScanNames, DecoderNames, PlainKey, KeyText, Lookup, Unlike;
    if ms != [] {
      var m := ms[0];
      NamedIsDeviceId(m);
      NamedIsRoot(m);
      if m.value.Object? {
        TablesAreUnlike();
        PlainSectionIsClean(BALL_KEYS, m.value.members);
        PlainSectionIsClean(CLUB_KEYS, m.value.members);
        PlainSectionIsClean(OPTION_KEYS, m.value.members);
      }
      PlainIsClean(ms[1..]);
    }
  }

  lemma TablesAreUnlike()
    ensures Unlike(BALL_KEYS) && Unlike(CLUB_KEYS) && Unlike(OPTION_KEYS)
  {
  }

  // --------------------------------------------------------------------------------------
  // Folding the masked members
  // --------------------------------------------------------------------------------------

  /** The same findings, but for strings cut to their field. */
  predicate SameFindings(f: set<Flag>, g: set<Flag>) {
    forall x :: x != StringTruncated ==> (x in f <==> x in g)
  }

  /** Equal drafts, but for the device id and the findings above. */
  predicate Alike(d: Draft, e: Draft) {
    e == d.(deviceId := e.deviceId, flags := e.flags) && SameFindings(d.flags, e.flags)
  }

  predicate AlikeTallies<F, V(==)>(t: Tally<F, V>, u: Tally<F, V>) {
    u == t.(flags := u.flags) && SameFindings(t.flags, u.flags)
  }

  /** Whatever is masked inside a value, the decoder makes the same of it. */
  lemma RedactedReadsAlike(lib: NumLib, v: Value)
    requires Valid(v)
    ensures Valid(Redacted(v)) && NumberIn(lib, Redacted(v)) == NumberIn(lib, v)
    ensures BoolIn(lib, Redacted(v)) == BoolIn(lib, v)
    ensures forall size | size > 0 :: StringIn(Redacted(v), size) == StringIn(v, size)
    ensures Acceptable(lib, Redacted(v)) == Acceptable(lib, v)
  {
    hide RedactedMembers, RedactedElements, MembersHeight, ElementsHeight;
    RedactedIsValid(v);
  }

  lemma RedactedMemberIsValid(m: Member)
    requires ValidMember(m)
    ensures ValidMember(RedactedMember(m))
  {
    hide Masked, NamesDevice, Redacted;
    RedactedIsValid(m.value);
    if m.value.Text? {
      MaskedIsValid(m.value.items);
    }
  }

  lemma RedactedMembersUnroll(ms: seq<Member>)
    requires ms != [] && ValidMembers(ms)
    ensures RedactedMembers(ms)[0] == RedactedMember(ms[0]) && RedactedMembers(ms)[1..] == RedactedMembers(ms[1..])
    ensures ValidMembers(RedactedMembers(ms)) && ValidMember(RedactedMember(ms[0])) && ValidMember(ms[0])
    ensures KeyText(RedactedMember(ms[0])) == KeyText(ms[0])
  {
    hide Masked, NamesDevice, Redacted;
    RedactedMembersAreValid(ms);
    RedactedMemberIsValid(ms[0]);
  }

  /** What is not struck is only masked inside. */
  lemma SparedStays(m: Member)
    ensures RedactedMember(m) == m.(value := if Struck(m) then Value.Text(Masked(m.value.items)) else Redacted(m.value))
  {
  }

  lemma {:induction false} AcceptableAlike(lib: NumLib, ms: seq<Member>)
    requires ValidMembers(ms)
    ensures ValidMembers(RedactedMembers(ms)) && AllAcceptable(lib, RedactedMembers(ms)) == AllAcceptable(lib, ms)
    decreases ms
  {
    hide Masked, NamesDevice, Redacted, RedactedMembers;
    if ms == [] {
      RedactedMembersAreValid(ms);
    } else {
      RedactedMembersUnroll(ms);
      RedactedReadsAlike(lib, ms[0].value);
      AcceptableAlike(lib, ms[1..]);
    }
  }

  lemma {:induction false} FoldNumbersAlike<F>(lib: NumLib, tab: seq<Key<F>>, ms: seq<Member>,
                                               t: Tally<F, Double>, u: Tally<F, Double>)
    requires ValidMembers(ms) && CleanSection(tab, ms) && AlikeTallies(t, u)
    ensures ValidMembers(RedactedMembers(ms))
    ensures AlikeTallies(FoldNumbers(lib, tab, ms, t), FoldNumbers(lib, tab, RedactedMembers(ms), u))
    decreases ms
  {
    hide Masked, ScanNames, NamesDevice, Redacted, RedactedMembers, NumberIn, KeyText;
    if ms == [] {
      RedactedMembersAreValid(ms);
    } else {
      RedactedMembersUnroll(ms);
      RedactedReadsAlike(lib, ms[0].value);
      SparedStays(ms[0]);
      var key := KeyText(ms[0]);
      match Lookup(tab, key) {
        case None =>
          FoldNumbersAlike(lib, tab, ms[1..], t.(unknown := CountUnknown(t.unknown)), u.(unknown := CountUnknown(u.unknown)));
        case Some((id, mismatch)) =>
          var g := NumberIn(lib, ms[0].value);
          FoldNumbersAlike(lib, tab, ms[1..], Enter(t, id, mismatch, g), Enter(u, id, mismatch, g));
      }
    }
  }

  lemma {:induction false} FoldOptionsAlike(lib: NumLib, ms: seq<Member>,
                                            t: Tally<OptionField, bool>, u: Tally<OptionField, bool>)
    requires ValidMembers(ms) && CleanSection(OPTION_KEYS, ms) && AlikeTallies(t, u)
    ensures ValidMembers(RedactedMembers(ms))
    ensures AlikeTallies(FoldOptions(lib, ms, t), FoldOptions(lib, RedactedMembers(ms), u))
    decreases ms
  {
    hide Masked, ScanNames, NamesDevice, Redacted, RedactedMembers, BoolIn, KeyText;
    if ms == [] {
      RedactedMembersAreValid(ms);
    } else {
      RedactedMembersUnroll(ms);
      RedactedReadsAlike(lib, ms[0].value);
      SparedStays(ms[0]);
      var key := KeyText(ms[0]);
      match Lookup(OPTION_KEYS, key) {
        case None =>
          FoldOptionsAlike(lib, ms[1..], t.(unknown := CountUnknown(t.unknown)), u.(unknown := CountUnknown(u.unknown)));
        case Some((id, mismatch)) =>
          var g := BoolIn(lib, ms[0].value);
          FoldOptionsAlike(lib, ms[1..], Enter(t, id, mismatch, g), Enter(u, id, mismatch, g));
      }
    }
  }

  // --------------------------------------------------------------------------------------
  // The message
  // --------------------------------------------------------------------------------------

  /** A device id masked, in whole or not at all. */
  lemma DeviceIdAlike(lib: NumLib, u: Value, v: Value, d: Draft, e: Draft)
    requires Valid(u) && Valid(v) && u.Text? && v.Text? && Alike(d, e)
    ensures Alike(RootIn(lib, DeviceIdKey, u, d), RootIn(lib, DeviceIdKey, v, e))
  {
    hide Field, CStr, Meaning;
  }

  lemma TextInSection(lib: NumLib, id: RootKey, u: Value, v: Value, d: Draft, e: Draft)
    requires Valid(u) && Valid(v) && u.Text? && v.Text? && Alike(d, e) && IsSection(id)
    ensures Alike(RootIn(lib, id, u, d), RootIn(lib, id, v, e))
  {
  }

  lemma RootInAlike(lib: NumLib, id: RootKey, v: Value, d: Draft, e: Draft)
    requires Valid(v) && Valid(Redacted(v)) && Alike(d, e)
    requires v.Object? ==>
               && (id == BallDataKey ==> CleanSection(BALL_KEYS, v.members))
               && (id == ClubDataKey ==> CleanSection(CLUB_KEYS, v.members))
               && (id == OptionsKey ==> CleanSection(OPTION_KEYS, v.members))
    ensures Alike(RootIn(lib, id, v, d), RootIn(lib, id, Redacted(v), e))
  {
    hide Redacted, NumberIn, StringIn, FoldNumbers, FoldOptions, CleanSection, Noted, WithShotNumber, WithUnits,
         WithApiVersion, WithDeviceId;
    if IsSection(id) {
      if v.Object? {
        ObjectStays(v);
        SectionAlike(lib, id, v.members, d, e);
      } else {
        OthersStayOthers(v);
      }
    } else {
      RedactedReadsAlike(lib, v);
      ScalarAlike(d, e, StringIn(v, DEVICE_ID_MAX), StringIn(v, UNITS_TEXT_MAX), StringIn(v, API_VERSION_MAX), NumberIn(lib, v));
    }
  }

  lemma ScalarAlike(d: Draft, e: Draft, i: Got<seq<Byte>>, u: Got<seq<Byte>>, a: Got<seq<Byte>>, n: Got<Double>)
    requires Alike(d, e)
    ensures Alike(WithDeviceId(d, i), WithDeviceId(e, i))
    ensures Alike(WithUnits(d, u), WithUnits(e, u)) && Alike(WithApiVersion(d, a), WithApiVersion(e, a))
    ensures Alike(WithShotNumber(d, n), WithShotNumber(e, n))
  {
  }

  lemma SectionAlike(lib: NumLib, id: RootKey, ms: seq<Member>, d: Draft, e: Draft)
    requires ValidMembers(ms) && Alike(d, e)
    requires id == BallDataKey ==> CleanSection(BALL_KEYS, ms)
    requires id == ClubDataKey ==> CleanSection(CLUB_KEYS, ms)
    requires id == OptionsKey ==> CleanSection(OPTION_KEYS, ms)
    ensures ValidMembers(RedactedMembers(ms))
    ensures id == BallDataKey ==>
              AlikeTallies(FoldNumbers(lib, BALL_KEYS, ms, Tally(d.ball, d.flags, d.unknown)),
                           FoldNumbers(lib, BALL_KEYS, RedactedMembers(ms), Tally(e.ball, e.flags, e.unknown)))
    ensures id == ClubDataKey ==>
              AlikeTallies(FoldNumbers(lib, CLUB_KEYS, ms, Tally(d.club, d.flags, d.unknown)),
                           FoldNumbers(lib, CLUB_KEYS, RedactedMembers(ms), Tally(e.club, e.flags, e.unknown)))
    ensures id == OptionsKey ==>
              AlikeTallies(FoldOptions(lib, ms, Tally(d.options, d.flags, d.unknown)),
                           FoldOptions(lib, RedactedMembers(ms), Tally(e.options, e.flags, e.unknown)))
  {
    hide FoldNumbers, FoldOptions, RedactedMembers, CleanSection;
    RedactedMembersAreValid(ms);
    match id {
      case BallDataKey =>
        FoldNumbersAlike(lib, BALL_KEYS, ms, Tally(d.ball, d.flags, d.unknown), Tally(e.ball, e.flags, e.unknown));
      case ClubDataKey =>
        FoldNumbersAlike(lib, CLUB_KEYS, ms, Tally(d.club, d.flags, d.unknown), Tally(e.club, e.flags, e.unknown));
      case OptionsKey =>
        FoldOptionsAlike(lib, ms, Tally(d.options, d.flags, d.unknown), Tally(e.options, e.flags, e.unknown));
      case _ =>
    }
  }

  lemma RootAcceptableAlike(lib: NumLib, m: Member)
    requires ValidMember(m) && ValidMember(RedactedMember(m))
    requires KeyText(RedactedMember(m)) == KeyText(m)
    ensures RootAcceptable(lib, RedactedMember(m)) == RootAcceptable(lib, m)
  {
    hide Masked, NamesDevice, RedactedMembers, KeyText, Acceptable, Lookup, Redacted, AllAcceptable;
    RedactedReadsAlike(lib, m.value);
    if m.value.Object? {
      ObjectStays(m.value);
      AcceptableAlike(lib, m.value.members);
    } else if m.value.Text? {
      TextIsAcceptable(lib, m.value);
      TextIsAcceptable(lib, RedactedMember(m).value);
    } else {
      OthersStayOthers(m.value);
    }
  }

  lemma TextIsAcceptable(lib: NumLib, v: Value)
    requires v.Text? || (!v.Array? && !v.Object? && !v.Number?)
    ensures Acceptable(lib, v)
    ensures Redacted(v) == v
  {
  }

  lemma OthersStayOthers(v: Value)
    requires !v.Object?
    ensures !Redacted(v).Object?
  {
  }

  lemma RootMemberAlike(lib: NumLib, m: Member, id: RootKey, d: Draft, e: Draft)
    requires ValidMember(m) && ValidMember(RedactedMember(m)) && CleanMember(m) && Alike(d, e)
    requires Lookup(ROOT_KEYS, KeyText(m)).Some? && Lookup(ROOT_KEYS, KeyText(m)).value.0 == id
    ensures Alike(RootIn(lib, id, m.value, d), RootIn(lib, id, RedactedMember(m).value, e))
  {
    hide Masked, ScanNames, RedactedMembers, KeyText, RootIn, Lookup, Redacted, Alike, RedactedMember, CleanSection;
    RedactedIsValid(m.value);
    SparedStays(m);
    if Struck(m) {
      if id == DeviceIdKey {
        DeviceIdAlike(lib, m.value, RedactedMember(m).value, d, e);
      } else {
        TextInSection(lib, id, m.value, RedactedMember(m).value, d, e);
      }
    } else {
      RootInAlike(lib, id, m.value, d, e);
    }
  }

  /** The table's way from a key to the device id is the scan's. */
  lemma {:induction false} FoundNamed(tab: seq<Key<RootKey>>, key: seq<Byte>, exact: bool)
    requires FindKey(tab, key, exact) == Some(DeviceIdKey)
    requires forall i :: 0 <= i < |tab| && tab[i].id == DeviceIdKey ==> tab[i].name == Ascii("DeviceID")
    ensures CiEqual(key, KEY)
  {
    if !(if exact then tab[0].name == key else CiEqual(tab[0].name, key)) {
      FoundNamed(tab[1..], key, exact);
    } else {
      assert CiEqual(Ascii("DeviceID"), KEY);
    }
  }

  lemma OnlyDeviceId(key: seq<Byte>)
    requires Lookup(ROOT_KEYS, key).Some? && Lookup(ROOT_KEYS, key).value.0 == DeviceIdKey
    ensures CiEqual(key, KEY)
  {
    hide CiEqual;
    if FindKey(ROOT_KEYS, key, true).Some? {
      FoundNamed(ROOT_KEYS, key, true);
    } else {
      FoundNamed(ROOT_KEYS, key, false);
    }
  }

  lemma ObjectStays(v: Value)
    requires v.Object?
    ensures Redacted(v) == Object(v.blank, RedactedMembers(v.members))
  {
  }

  lemma AlikeStep(d: Draft, e: Draft, mismatch: bool)
    requires Alike(d, e)
    ensures Alike(d.(unknown := CountUnknown(d.unknown)), e.(unknown := CountUnknown(e.unknown)))
    ensures Alike(d.(flags := Noted(d.flags, mismatch, KeyCaseMismatch)), e.(flags := Noted(e.flags, mismatch, KeyCaseMismatch)))
  {
  }

  lemma {:induction false} FoldRootAlike(lib: NumLib, ms: seq<Member>, d: Draft, e: Draft)
    requires ValidMembers(ms) && Clean(ms) && Alike(d, e)
    ensures ValidMembers(RedactedMembers(ms))
    ensures Alike(FoldRoot(lib, ms, d), FoldRoot(lib, RedactedMembers(ms), e))
    decreases ms
  {
    hide RedactedMembers, RedactedMember, KeyText, RootIn, Alike, PrintItems, CleanMember, Noted, Lookup;
    if ms == [] {
      RedactedMembersAreValid(ms);
      NoMembersRedacted();
    } else {
      var m := ms[0];
      RedactedMembersUnroll(ms);
      match Lookup(ROOT_KEYS, KeyText(m)) {
        case None =>
          AlikeStep(d, e, false);
          FoldRootAlike(lib, ms[1..], d.(unknown := CountUnknown(d.unknown)), e.(unknown := CountUnknown(e.unknown)));
        case Some((id, mismatch)) =>
          AlikeStep(d, e, mismatch);
          var d1 := d.(flags := Noted(d.flags, mismatch, KeyCaseMismatch));
          var e1 := e.(flags := Noted(e.flags, mismatch, KeyCaseMismatch));
          RootMemberAlike(lib, m, id, d1, e1);
          FoldRootAlike(lib, ms[1..], RootIn(lib, id, m.value, d1), RootIn(lib, id, RedactedMember(m).value, e1));
      }
    }
  }

  lemma NoMembersRedacted()
    ensures RedactedMembers([]) == []
  {
  }

  lemma NotedAlike(f: set<Flag>, g: set<Flag>, note: bool, flag: Flag)
    requires SameFindings(f, g)
    ensures SameFindings(Noted(f, note, flag), Noted(g, note, flag))
  {
  }

  lemma {:induction false} NotedAllAlike(f: set<Flag>, g: set<Flag>, notes: seq<(bool, Flag)>)
    requires SameFindings(f, g)
    ensures SameFindings(NotedAll(f, notes), NotedAll(g, notes))
    decreases |notes|
  {
    hide SameFindings, Noted;
    if notes != [] {
      NotedAlike(f, g, notes[0].0, notes[0].1);
      NotedAllAlike(Noted(f, notes[0].0, notes[0].1), Noted(g, notes[0].0, notes[0].1), notes[1..]);
    }
  }

  lemma FinishAlike(d: Draft, e: Draft, length: nat)
    requires Alike(d, e)
    ensures AlikeMessages(Finish(d, length), Finish(e, length))
  {
    hide UnitsParse, KindFrom, Truth, BallComplete, NotedAll, SameFindings;
    NotedAllAlike(d.flags, e.flags, Findings(d));
  }

  /** Equal messages, but for the device id and one flag. */
  predicate AlikeMessages(m: Message, n: Message) {
    n == m.(deviceId := n.deviceId, flags := n.flags) && SameFindings(m.flags, n.flags)
  }

  /** What the decoder makes of a message before and after masking, in terms of its members. */
  lemma MaskedMessage(lib: NumLib, v: Value)
    requires v.Object? && Valid(v)
    ensures ValidMembers(RedactedMembers(v.members))
    ensures AllRootAcceptable(lib, RedactedMembers(v.members)) == AllRootAcceptable(lib, v.members)
    ensures DecodeMessage(lib, Print(v))
         == if AllRootAcceptable(lib, v.members) then Some(Finish(FoldRoot(lib, v.members, BLANK), |Print(v)|)) else None
    ensures DecodeMessage(lib, Mask(Print(v)))
         == if AllRootAcceptable(lib, v.members)
            then Some(Finish(FoldRoot(lib, RedactedMembers(v.members), BLANK), |Print(v)|)) else None
  {
    hide Mask, Print, Redacted, RedactedMembers, DecodeMessage, FoldRoot, AllRootAcceptable, Finish;
    var r := Redacted(v);
    MaskCommutes(v);
    RedactedIsValid(v);
    ObjectStays(v);
    RootsAcceptableAlike(lib, v.members);
    MessagePrinted(lib, [], v, []);
    MessagePrinted(lib, [], r, []);
    assert forall s: seq<Byte> :: [] + (s + []) == s;
  }

  lemma {:induction false} RootsAcceptableAlike(lib: NumLib, ms: seq<Member>)
    requires ValidMembers(ms)
    ensures ValidMembers(RedactedMembers(ms))
    ensures AllRootAcceptable(lib, RedactedMembers(ms)) == AllRootAcceptable(lib, ms)
    decreases ms
  {
    hide RedactedMembers, RedactedMember, KeyText, RootAcceptable;
    if ms == [] {
      RedactedMembersAreValid(ms);
      NoMembersRedacted();
    } else {
      RedactedMembersUnroll(ms);
      RootAcceptableAlike(lib, ms[0]);
      RootsAcceptableAlike(lib, ms[1..]);
    }
  }

  /**
   * Masking a well-formed message leaves its length and its frame as they were, and decoding refuses
   * it exactly if it did before. Where nothing is masked that the decoder takes a value from but
   * device ids, it gives the message it gave before but for the device id and whether it was cut.
   */
  lemma MaskedDecodes(lib: NumLib, v: Value)
    requires v.Object? && Valid(v)
    ensures |Mask(Print(v))| == |Print(v)|
    ensures Height(v) < Frame.DEPTH_WRAP ==> Frame.IsObject(Print(v)) && Frame.IsObject(Mask(Print(v)))
    ensures DecodeMessage(lib, Print(v)).Some? <==> DecodeMessage(lib, Mask(Print(v))).Some?
    ensures Clean(v.members) && DecodeMessage(lib, Print(v)).Some? ==>
              AlikeMessages(DecodeMessage(lib, Print(v)).value, DecodeMessage(lib, Mask(Print(v))).value)
  {
    hide Mask, Print, Redacted, RedactedMembers, DecodeMessage, FoldRoot, AllRootAcceptable, Finish, Alike, AlikeMessages,
         Clean, Height, Frame.IsObject;
    var r := Redacted(v);
    MaskCommutes(v);
    RedactedIsValid(v);
    if Height(v) < Frame.DEPTH_WRAP {
      FrameJson.PrintedObject(v);
      ObjectStays(v);
      FrameJson.PrintedObject(r);
    }
    MaskedMessage(lib, v);
    if Clean(v.members) {
      FoldRootAlike(lib, v.members, BLANK, BLANK) by { BlankAlike(); }
      FinishAlike(FoldRoot(lib, v.members, BLANK), FoldRoot(lib, RedactedMembers(v.members), BLANK), |Print(v)|);
    }
  }

  lemma BlankAlike()
    ensures Alike(BLANK, BLANK)
  {
  }

  // --------------------------------------------------------------------------------------
  // What is left of the device id
  // --------------------------------------------------------------------------------------

  predicate IsMask(s: seq<Byte>) {
    s == MaskText(|s|)
  }

  lemma MaskFits(n: nat, size: nat)
    requires size > 0
    ensures IsMask(CStr(Field(size, MaskText(n))))
    ensures CStr(Field(size, MaskText(n))) == [] <==> n == 0 || size == 1
  {
    hide MaskByte, CStr;
    forall k | 0 <= k < n
      ensures MaskByte(k) != NUL
    {
      MaskBytesArePlain(k);
    }
  }

  /** The text of a string value, as much of it as a field of `size` holds. */
  function Short(m: Member, size: nat): seq<Byte>
    requires ValidMember(m) && m.value.Text? && size > 0
  {
    CStr(Field(size, Meaning(m.value.items)))
  }

  /** The same once the value is masked, if it is. */
  function ShortAfter(m: Member, size: nat): seq<Byte>
    requires ValidMember(m) && m.value.Text? && size > 0
  {
    if Struck(m) then CStr(Field(size, MaskText(|PrintItems(m.value.items)|))) else Short(m, size)
  }

  /** The last member known as `id` that holds a string. */
  function LastText(ms: seq<Member>, id: RootKey): (r: Option<Member>)
    requires ValidMembers(ms)
    ensures r.Some? ==> ValidMember(r.value) && r.value.value.Text?
  {
    if ms == [] then None
    else if LastText(ms[1..], id).Some? then LastText(ms[1..], id)
    else if IsFor(ROOT_KEYS, ms[0], id) && ms[0].value.Text? then Some(ms[0])
    else None
  }

  /** A text field of a message is the last string given for it, before masking and after. */
  lemma {:induction false} LastStrings(ms: seq<Member>, id: RootKey, size: nat)
    requires ValidMembers(ms) && size > 0
    ensures ValidMembers(RedactedMembers(ms))
    ensures LastString(ROOT_KEYS, ms, id, size)
         == if LastText(ms, id).Some? then Some(Short(LastText(ms, id).value, size)) else None
    ensures LastString(ROOT_KEYS, RedactedMembers(ms), id, size)
         == if LastText(ms, id).Some? then Some(ShortAfter(LastText(ms, id).value, size)) else None
    decreases ms
  {
    hide RedactedMembers, RedactedMember, KeyText, Lookup, ScanNames, Short, Meaning, MaskText;
    if ms == [] {
      RedactedMembersAreValid(ms);
      NoMembersRedacted();
    } else {
      RedactedMembersUnroll(ms);
      LastStrings(ms[1..], id, size);
      StringAfter(ms[0], size);
    }
  }

  lemma StringAfter(m: Member, size: nat)
    requires ValidMember(m) && size > 0
    ensures ValidMember(RedactedMember(m))
    ensures StringIn(m.value, size).Read? <==> m.value.Text?
    ensures StringIn(RedactedMember(m).value, size).Read? <==> m.value.Text?
    ensures m.value.Text? ==>
              StringIn(m.value, size).value == Short(m, size) && StringIn(RedactedMember(m).value, size).value == ShortAfter(m, size)
  {
    hide ScanNames, MaskText;
    RedactedMemberIsValid(m);
    SparedStays(m);
    if Struck(m) {
      MaskedIsValid(m.value.items);
    }
  }

  /**
   * Masking leaves nothing of a device id: no member known as the device id holds a string, or the
   * scan recognises the last that does, or its text was mask text before.
   */
  predicate IdHidden(ms: seq<Member>)
    requires ValidMembers(ms)
  {
    var m := LastText(ms, DeviceIdKey);
    m.Some? ==> ScanNames(m.value) || IsMask(Short(m.value, DEVICE_ID_MAX))
  }

  /** A masked message that decodes shows mask text for a device id if and only if that holds. */
  lemma DeviceIdHidden(lib: NumLib, v: Value)
    requires v.Object? && Valid(v) && DecodeMessage(lib, Print(v)).Some?
    ensures DecodeMessage(lib, Mask(Print(v))).Some?
    ensures IsMask(DecodeMessage(lib, Mask(Print(v))).value.deviceId) <==> IdHidden(v.members)
  {
    hide Print, Mask, DecodeMessage, FoldRoot, AllRootAcceptable, RedactedMembers, ScanNames, IsMask, Short;
    var ms := v.members;
    MaskedMessage(lib, v);
    RootLastWins(lib, RedactedMembers(ms), BLANK);
    LastStrings(ms, DeviceIdKey, DEVICE_ID_MAX);
    NothingIsMask();
    if LastText(ms, DeviceIdKey).Some? {
      MaskFits(|PrintItems(LastText(ms, DeviceIdKey).value.value.items)|, DEVICE_ID_MAX);
    }
  }

  lemma NothingIsMask()
    ensures IsMask([])
  {
  }

  /** On keys spelled without escapes and NULs the scan recognises every device id. */
  lemma {:induction false} PlainIsHidden(ms: seq<Member>)
    requires ValidMembers(ms) && PlainKeys(ms)
    ensures LastText(ms, DeviceIdKey).Some? ==> ScanNames(LastText(ms, DeviceIdKey).value)
    ensures IdHidden(ms)
  {
    hide ScanNames, DecoderNames, PlainKey, KeyText, Lookup, Short;
    if ms != [] {
      NamedIsDeviceId(ms[0]);
      NamedIsRoot(ms[0]);
      PlainIsHidden(ms[1..]);
    }
  }

  // --------------------------------------------------------------------------------------
  // A key they differ on
  // --------------------------------------------------------------------------------------

  /** `{"\u0044eviceID":"x"}`: the key reads as DeviceID but is not spelled like it. */
  function EscapedKey(): seq<Item> {
    [Unicode([48, 48, 52, 52])] + PlainItems(Ascii("eviceID"))
  }

  function EscapedMember(): Member {
    Member([], EscapedKey(), [], [], Value.Text([Plain(120)]), [])
  }

  function EscapedMessage(): Value {
    Object([], [EscapedMember()])
  }

  lemma EscapedKeyMeans()
    ensures ValidItems(EscapedKey()) && Meaning(EscapedKey()) == Ascii("DeviceID")
  {
    hide Meaning, PlainItems;
    var rest := Ascii("eviceID");
    PlainItemsMean(rest);
    EscapedThenPlain([48, 48, 52, 52], rest);
    assert [68] + rest == Ascii("DeviceID");
  }

  lemma EscapedThenPlain(hex: seq<Byte>, rest: seq<Byte>)
    requires |hex| == 4 && (forall i :: 0 <= i < 4 ==> IsHex(hex[i])) && Hex4(hex) < 0x80
    requires QUOTE !in rest && BACKSLASH !in rest
    ensures ValidItems([Unicode(hex)] + PlainItems(rest))
    ensures Meaning([Unicode(hex)] + PlainItems(rest)) == [Hex4(hex)] + rest
  {
    PlainItemsMean(rest);
    assert ([Unicode(hex)] + PlainItems(rest))[1..] == PlainItems(rest);
  }

  lemma EscapedKeyPrints()
    ensures PrintItems(EscapedKey()) == [BACKSLASH, LOWER_U, 48, 48, 52, 52] + Ascii("eviceID")
  {
    hide Ascii, PlainItems;
    PlainItemsPrint(Ascii("eviceID"));
    assert EscapedKey()[1..] == PlainItems(Ascii("eviceID"));
  }

  lemma EscapedKeyReads()
    ensures Valid(EscapedMessage()) && ValidMember(EscapedMember())
    ensures KeyText(EscapedMember()) == Ascii("DeviceID")
    ensures !ScanNames(EscapedMember()) && DecoderNames(EscapedMember())
  {
    hide Meaning, Ascii, PrintItems, CiEqual, NamesDevice, EscapedKey;
    EscapedKeyMeans();
    EscapedKeyPrints();
    NamedDespiteCase();
    NotNamed(Ascii("eviceID"));
  }

  lemma NamedDespiteCase()
    ensures CiEqual(Ascii("DeviceID"), KEY)
  {
  }

  lemma NotNamed(rest: seq<Byte>)
    requires |rest| == 7
    ensures !NamesDevice([BACKSLASH, LOWER_U, 48, 48, 52, 52] + rest)
  {
    var raw := [BACKSLASH, LOWER_U, 48, 48, 52, 52] + rest;
    assert raw[|raw| - 8..][0] == 52;
    assert Lower(KEY[0]) == 100;
  }

  /** One known member folds into the draft as its entry says. */
  lemma OneMember(lib: NumLib, m: Member, d: Draft)
    requires ValidMember(m) && Lookup(ROOT_KEYS, KeyText(m)).Some? && ValidMembers([m]) && m.value.Text?
    ensures var (id, mismatch) := Lookup(ROOT_KEYS, KeyText(m)).value;
            FoldRoot(lib, [m], d) == RootIn(lib, id, m.value, d.(flags := Noted(d.flags, mismatch, KeyCaseMismatch)))
    ensures AllRootAcceptable(lib, [m])
  {
    hide Lookup, KeyText, RootIn;
    TextIsAcceptable(lib, m.value);
    assert [m][1..] == [];
  }

  lemma ShortIdRead(d: Draft)
    ensures WithDeviceId(d, StringIn(Value.Text([Plain(120)]), DEVICE_ID_MAX)).deviceId == [120]
    ensures !IsMask([120])
  {
    assert Meaning([Plain(120)]) == [120];
    assert MaskText(1)[0] == MASK[0] == 60;
  }

  /** The masked text is the text as it was, and the device id is still there. */
  lemma EscapedKeyIsMissed(lib: NumLib)
    ensures Mask(Print(EscapedMessage())) == Print(EscapedMessage())
    ensures var m := DecodeMessage(lib, Mask(Print(EscapedMessage())));
            m.Some? && m.value.deviceId == [120] && !IsMask(m.value.deviceId)
  {
    hide Print, Mask, DecodeMessage, ScanNames, DecoderNames, FoldRoot, AllRootAcceptable, KeyText, Lookup, Valid, IsMask,
         RedactedMembers, EscapedKey, NotedAll, Findings, StringIn, WithDeviceId, UnitsFrom, KindFrom, Noted, Ascii, Height;
    var v, m := EscapedMessage(), EscapedMember();
    EscapedKeyReads();
    MaskCommutes(v);
    NothingToMask(m);
    MessagePrinted(lib, [], v, []);
    assert [] + (Print(v) + []) == Print(v);
    DeviceIdLooksUp(KeyText(m));
    OneMember(lib, m, BLANK);
    ShortIdRead(BLANK.(flags := Noted(BLANK.flags, Lookup(ROOT_KEYS, KeyText(m)).value.1, KeyCaseMismatch)));
  }

  lemma NothingToMask(m: Member)
    requires !ScanNames(m) && m.value.Text?
    ensures RedactedMembers([m]) == [m]
  {
    hide NamesDevice;
    assert [m][1..] == [];
  }
}
