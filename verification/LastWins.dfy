/**
 * What the fold of a message's members amounts to, member by member: keys exactly or but for their
 * case, the last value that is not absent, and a count of what is unknown.
 */
module LastWins {
  import opened Bytes
  import opened Json
  import opened Numbers
  import opened Message
  import opened Reader
  import opened Decode
  import opened DecodeJson

  // --------------------------------------------------------------------------------------
  // Keys
  // --------------------------------------------------------------------------------------

  /** The table has an entry spelled like `key`: exactly, or but for case. */
  predicate Spelled<T>(tab: seq<Key<T>>, key: seq<Byte>, exact: bool) {
    exists i :: 0 <= i < |tab| && SpelledAt(tab, key, exact, i)
  }

  predicate SpelledAt<T>(tab: seq<Key<T>>, key: seq<Byte>, exact: bool, i: nat)
    requires i < |tab|
  {
    if exact then tab[i].name == key else CiEqual(tab[i].name, key)
  }

  lemma {:induction false} FoundKey<T>(tab: seq<Key<T>>, key: seq<Byte>, exact: bool)
    ensures FindKey(tab, key, exact).Some? <==> Spelled(tab, key, exact)
    ensures FindKey(tab, key, exact).Some? ==>
              exists i :: 0 <= i < |tab| && tab[i].id == FindKey(tab, key, exact).value && SpelledAt(tab, key, exact, i)
                          && forall j :: 0 <= j < i ==> !SpelledAt(tab, key, exact, j)
    decreases |tab|
  {
    if tab != [] {
      if SpelledAt(tab, key, exact, 0) {
        assert tab[0].id == FindKey(tab, key, exact).value;
      } else {
        FoundKey(tab[1..], key, exact);
        if FindKey(tab[1..], key, exact).Some? {
          var i :| 0 <= i < |tab[1..]| && tab[1..][i].id == FindKey(tab[1..], key, exact).value
                   && SpelledAt(tab[1..], key, exact, i)
                   && forall j :: 0 <= j < i ==> !SpelledAt(tab[1..], key, exact, j);
          assert SpelledAt(tab, key, exact, i + 1);
          forall j | 0 <= j < i + 1
            ensures !SpelledAt(tab, key, exact, j)
          {
            if j > 0 {
              assert !SpelledAt(tab[1..], key, exact, j - 1);
            }
          }
        }
        if Spelled(tab, key, exact) {
          var i :| 0 <= i < |tab| && SpelledAt(tab, key, exact, i);
          assert SpelledAt(tab[1..], key, exact, i - 1);
        }
      }
    }
  }

  /** An exact spelling always wins; only without one is a difference of case overlooked, and noted. */
  lemma LookupPrefersExact<T>(tab: seq<Key<T>>, key: seq<Byte>)
    ensures Lookup(tab, key) == None <==> !Spelled(tab, key, false) && !Spelled(tab, key, true)
    ensures Lookup(tab, key).Some? ==> (Lookup(tab, key).value.1 <==> !Spelled(tab, key, true))
  {
    hide Spelled;
    FoundKey(tab, key, true);
    FoundKey(tab, key, false);
  }

  // --------------------------------------------------------------------------------------
  // Values
  // --------------------------------------------------------------------------------------

  /** The member is known as `id`. */
  predicate IsFor<T(==)>(tab: seq<Key<T>>, m: Member, id: T)
    requires ValidItems(m.key)
  {
    Lookup(tab, KeyText(m)).Some? && Lookup(tab, KeyText(m)).value.0 == id
  }

  /** The last number that a member known as `id` yields. */
  function LastNumber<T(==)>(lib: NumLib, tab: seq<Key<T>>, ms: seq<Member>, id: T): Option<Double>
    requires ValidMembers(ms)
  {
    if ms == [] then None
    else if LastNumber(lib, tab, ms[1..], id).Some? then LastNumber(lib, tab, ms[1..], id)
    else if IsFor(tab, ms[0], id) && NumberIn(lib, ms[0].value).Read? then Some(NumberIn(lib, ms[0].value).value)
    else None
  }

  function LastBool(lib: NumLib, ms: seq<Member>, id: OptionField): Option<bool>
    requires ValidMembers(ms)
  {
    if ms == [] then None
    else if LastBool(lib, ms[1..], id).Some? then LastBool(lib, ms[1..], id)
    else if IsFor(OPTION_KEYS, ms[0], id) && BoolIn(lib, ms[0].value).Read? then Some(BoolIn(lib, ms[0].value).value)
    else None
  }

  /** The last string that a member known as `id` yields, cut to `size`. */
  function LastString<T(==)>(tab: seq<Key<T>>, ms: seq<Member>, id: T, size: nat): Option<seq<Byte>>
    requires ValidMembers(ms) && size > 0
  {
    if ms == [] then None
    else if LastString(tab, ms[1..], id, size).Some? then LastString(tab, ms[1..], id, size)
    else if IsFor(tab, ms[0], id) && StringIn(ms[0].value, size).Read? then Some(StringIn(ms[0].value, size).value)
    else None
  }

  function Or<T>(o: Option<T>, otherwise: T): T {
    if o.Some? then o.value else otherwise
  }

  /** A section's field is the last value given for it, or what was there before. */
  lemma {:induction false} SectionLastWins<T>(lib: NumLib, tab: seq<Key<T>>, ms: seq<Member>, t: Tally<T, Double>, id: T)
    requires ValidMembers(ms)
    ensures var values := FoldNumbers(lib, tab, ms, t).values;
            && (id in values <==> LastNumber(lib, tab, ms, id).Some? || id in t.values)
            && (id in values ==> values[id] == Or(LastNumber(lib, tab, ms, id), if id in t.values then t.values[id] else ZERO_DOUBLE))
    decreases ms
  {
    hide KeyText, NumberIn, Lookup;
    if ms != [] {
      match Lookup(tab, KeyText(ms[0])) {
        case None => SectionLastWins(lib, tab, ms[1..], t.(unknown := CountUnknown(t.unknown)), id);
        case Some((other, mismatch)) =>
          SectionLastWins(lib, tab, ms[1..], Enter(t, other, mismatch, NumberIn(lib, ms[0].value)), id);
      }
    }
  }

  lemma {:induction false} OptionsLastWin(lib: NumLib, ms: seq<Member>, t: Tally<OptionField, bool>, id: OptionField)
    requires ValidMembers(ms)
    ensures var values := FoldOptions(lib, ms, t).values;
            && (id in values <==> LastBool(lib, ms, id).Some? || id in t.values)
            && (id in values ==> values[id] == Or(LastBool(lib, ms, id), id in t.values && t.values[id]))
    decreases ms
  {
    hide KeyText, BoolIn, Lookup;
    if ms != [] {
      match Lookup(OPTION_KEYS, KeyText(ms[0])) {
        case None => OptionsLastWin(lib, ms[1..], t.(unknown := CountUnknown(t.unknown)), id);
        case Some((other, mismatch)) =>
          OptionsLastWin(lib, ms[1..], Enter(t, other, mismatch, BoolIn(lib, ms[0].value)), id);
      }
    }
  }

  /** What a root member that is not the one asked for leaves alone. */
  lemma RootInKeeps(lib: NumLib, id: RootKey, v: Value, d: Draft)
    requires Valid(v)
    ensures var e := RootIn(lib, id, v, d);
            && e.deviceId == (if id == DeviceIdKey then TextOr(v, DEVICE_ID_MAX, d.deviceId) else d.deviceId)
            && e.unitsText == (if id == UnitsKey then TextOr(v, UNITS_TEXT_MAX, d.unitsText) else d.unitsText)
            && e.apiVersion == (if id == ApiVersionKey then TextOr(v, API_VERSION_MAX, d.apiVersion) else d.apiVersion)
            && e.shotNumber == (if id == ShotNumberKey && NumberIn(lib, v).Read? then ClampInt64(NumberIn(lib, v).value)
                                else d.shotNumber)
  {
    hide FoldNumbers, FoldOptions, StringIn, NumberIn, ClampInt64, IsIntegral;
  }

  function TextOr(v: Value, size: nat, otherwise: seq<Byte>): seq<Byte>
    requires Valid(v) && size > 0
  {
    if StringIn(v, size).Read? then StringIn(v, size).value else otherwise
  }

  /** The message's own fields are the last values given for them: a later null changes nothing. */
  lemma {:induction false} RootLastWins(lib: NumLib, ms: seq<Member>, d: Draft)
    requires ValidMembers(ms)
    ensures var e := FoldRoot(lib, ms, d);
            && e.deviceId == Or(LastString(ROOT_KEYS, ms, DeviceIdKey, DEVICE_ID_MAX), d.deviceId)
            && e.unitsText == Or(LastString(ROOT_KEYS, ms, UnitsKey, UNITS_TEXT_MAX), d.unitsText)
            && e.apiVersion == Or(LastString(ROOT_KEYS, ms, ApiVersionKey, API_VERSION_MAX), d.apiVersion)
            && e.shotNumber == (match LastNumber(lib, ROOT_KEYS, ms, ShotNumberKey)
                                case Some(v) => ClampInt64(v)
                                case None => d.shotNumber)
    decreases ms
  {
    hide KeyText, NumberIn, StringIn, Lookup, RootIn, ClampInt64;
    if ms != [] {
      match Lookup(ROOT_KEYS, KeyText(ms[0])) {
        case None => RootLastWins(lib, ms[1..], d.(unknown := CountUnknown(d.unknown)));
        case Some((id, mismatch)) =>
          var d1 := d.(flags := Noted(d.flags, mismatch, KeyCaseMismatch));
          RootInKeeps(lib, id, ms[0].value, d1);
          RootLastWins(lib, ms[1..], RootIn(lib, id, ms[0].value, d1));
      }
    }
  }

  // --------------------------------------------------------------------------------------
  // Sections, wherever they are
  // --------------------------------------------------------------------------------------

  function Entry<F, V>(values: map<F, V>, id: F): Option<V> {
    if id in values then Some(values[id]) else None
  }

  function OrElse<T>(a: Option<T>, b: Option<T>): Option<T> {
    if a.Some? then a else b
  }

  /** The members of every object known as section `key`, one object after another. */
  function SectionOf(ms: seq<Member>, key: RootKey): (r: seq<Member>)
    requires ValidMembers(ms)
    ensures ValidMembers(r)
    decreases |ms|
  {
    if ms == [] then []
    else if IsFor(ROOT_KEYS, ms[0], key) && ms[0].value.Object? then
      assert Valid(ms[0].value);
      ValidConcat(ms[0].value.members, SectionOf(ms[1..], key));
      ms[0].value.members + SectionOf(ms[1..], key)
    else SectionOf(ms[1..], key)
  }

  lemma {:induction false} LastNumberConcat<T>(lib: NumLib, tab: seq<Key<T>>, a: seq<Member>, b: seq<Member>, id: T)
    requires ValidMembers(a) && ValidMembers(b)
    ensures ValidMembers(a + b)
    ensures LastNumber(lib, tab, a + b, id) == OrElse(LastNumber(lib, tab, b, id), LastNumber(lib, tab, a, id))
    decreases |a|
  {
    hide KeyText, NumberIn, Lookup;
    ValidConcat(a, b);
    if a == [] {
      assert a + b == b;
    } else {
      assert (a + b)[1..] == a[1..] + b;
      LastNumberConcat(lib, tab, a[1..], b, id);
    }
  }

  lemma {:induction false} LastBoolConcat(lib: NumLib, a: seq<Member>, b: seq<Member>, id: OptionField)
    requires ValidMembers(a) && ValidMembers(b)
    ensures ValidMembers(a + b)
    ensures LastBool(lib, a + b, id) == OrElse(LastBool(lib, b, id), LastBool(lib, a, id))
    decreases |a|
  {
    hide KeyText, BoolIn, Lookup;
    ValidConcat(a, b);
    if a == [] {
      assert a + b == b;
    } else {
      assert (a + b)[1..] == a[1..] + b;
      LastBoolConcat(lib, a[1..], b, id);
    }
  }

  /** What a section's value makes of the section's fields; any other value leaves them alone. */
  lemma RootInSections(lib: NumLib, id: RootKey, v: Value, d: Draft, b: BallField, c: ClubField, o: OptionField)
    requires Valid(v)
    ensures var e := RootIn(lib, id, v, d);
            && Entry(e.ball, b) == (if id == BallDataKey && v.Object? then OrElse(LastNumber(lib, BALL_KEYS, v.members, b), Entry(d.ball, b))
                                    else Entry(d.ball, b))
            && Entry(e.club, c) == (if id == ClubDataKey && v.Object? then OrElse(LastNumber(lib, CLUB_KEYS, v.members, c), Entry(d.club, c))
                                    else Entry(d.club, c))
            && Entry(e.options, o) == (if id == OptionsKey && v.Object? then OrElse(LastBool(lib, v.members, o), Entry(d.options, o))
                                       else Entry(d.options, o))
  {
    hide FoldNumbers, FoldOptions, StringIn, NumberIn, ClampInt64, IsIntegral, LastNumber, LastBool;
    if v.Object? {
      SectionLastWins(lib, BALL_KEYS, v.members, Tally(d.ball, d.flags, d.unknown), b);
      SectionLastWins(lib, CLUB_KEYS, v.members, Tally(d.club, d.flags, d.unknown), c);
      OptionsLastWin(lib, v.members, Tally(d.options, d.flags, d.unknown), o);
    }
  }

  /** The numbers of a section, one root member at a time. */
  lemma NumbersStep<T>(lib: NumLib, tab: seq<Key<T>>, ms: seq<Member>, key: RootKey, id: T)
    requires ms != [] && ValidMembers(ms)
    ensures Valid(ms[0].value)
    ensures LastNumber(lib, tab, SectionOf(ms, key), id)
         == OrElse(LastNumber(lib, tab, SectionOf(ms[1..], key), id),
                   if IsFor(ROOT_KEYS, ms[0], key) && ms[0].value.Object? then LastNumber(lib, tab, ms[0].value.members, id) else None)
  {
    hide KeyText, Lookup, LastNumber;
    assert Valid(ms[0].value);
    if ms[0].value.Object? {
      LastNumberConcat(lib, tab, ms[0].value.members, SectionOf(ms[1..], key), id);
    }
  }

  lemma BoolsStep(lib: NumLib, ms: seq<Member>, id: OptionField)
    requires ms != [] && ValidMembers(ms)
    ensures Valid(ms[0].value)
    ensures LastBool(lib, SectionOf(ms, OptionsKey), id)
         == OrElse(LastBool(lib, SectionOf(ms[1..], OptionsKey), id),
                   if IsFor(ROOT_KEYS, ms[0], OptionsKey) && ms[0].value.Object? then LastBool(lib, ms[0].value.members, id) else None)
  {
    hide KeyText, Lookup, LastBool;
    assert Valid(ms[0].value);
    if ms[0].value.Object? {
      LastBoolConcat(lib, ms[0].value.members, SectionOf(ms[1..], OptionsKey), id);
    }
  }

  /** A field of a section is the last value given for it in any object known as that section. */
  lemma {:induction false} SectionsLastWin(lib: NumLib, ms: seq<Member>, d: Draft, b: BallField, c: ClubField, o: OptionField)
    requires ValidMembers(ms)
    ensures var e := FoldRoot(lib, ms, d);
            && Entry(e.ball, b) == OrElse(LastNumber(lib, BALL_KEYS, SectionOf(ms, BallDataKey), b), Entry(d.ball, b))
            && Entry(e.club, c) == OrElse(LastNumber(lib, CLUB_KEYS, SectionOf(ms, ClubDataKey), c), Entry(d.club, c))
            && Entry(e.options, o) == OrElse(LastBool(lib, SectionOf(ms, OptionsKey), o), Entry(d.options, o))
    decreases ms
  {
    hide KeyText, Lookup, RootIn, LastNumber, LastBool, Entry, SectionOf, Noted;
    if ms == [] {
      NoLast(lib, b, c, o);
    } else {
      var m := ms[0];
      NumbersStep(lib, BALL_KEYS, ms, BallDataKey, b);
      NumbersStep(lib, CLUB_KEYS, ms, ClubDataKey, c);
      BoolsStep(lib, ms, o);
      match Lookup(ROOT_KEYS, KeyText(m)) {
        case None => SectionsLastWin(lib, ms[1..], d.(unknown := CountUnknown(d.unknown)), b, c, o);
        case Some((id, mismatch)) =>
          var d1 := d.(flags := Noted(d.flags, mismatch, KeyCaseMismatch));
          RootInSections(lib, id, m.value, d1, b, c, o);
          SectionsLastWin(lib, ms[1..], RootIn(lib, id, m.value, d1), b, c, o);
      }
    }
  }

  lemma NoLast(lib: NumLib, b: BallField, c: ClubField, o: OptionField)
    ensures forall key :: SectionOf([], key) == []
    ensures LastNumber(lib, BALL_KEYS, [], b) == None && LastNumber(lib, CLUB_KEYS, [], c) == None && LastBool(lib, [], o) == None
  {
  }

  // --------------------------------------------------------------------------------------
  // A response
  // --------------------------------------------------------------------------------------

  /** The members of every object known as the player, one object after another. */
  function PlayerOf(ms: seq<Member>): (r: seq<Member>)
    requires ValidMembers(ms)
    ensures ValidMembers(r)
    decreases |ms|
  {
    if ms == [] then []
    else if IsFor(RESPONSE_KEYS, ms[0], PlayerKey) && ms[0].value.Object? then
      assert Valid(ms[0].value);
      ValidConcat(ms[0].value.members, PlayerOf(ms[1..]));
      ms[0].value.members + PlayerOf(ms[1..])
    else PlayerOf(ms[1..])
  }

  /** There is such an object, empty or not. */
  predicate HasPlayer(ms: seq<Member>)
    requires ValidMembers(ms)
  {
    ms != [] && ((IsFor(RESPONSE_KEYS, ms[0], PlayerKey) && ms[0].value.Object?) || HasPlayer(ms[1..]))
  }

  lemma PlayerInSays(lib: NumLib, id: PlayerField, v: Value, p: PlayerInfo)
    requires Valid(v)
    ensures var q, text, number := PlayerIn(lib, id, v, p), StringIn(v, 16), NumberIn(lib, v);
            && q.handed == (if id == HandedKey && text.Read? then HandedParse(text.value) else p.handed)
            && q.club == (if id == ClubKey && text.Read? then ClubParse(text.value) else p.club)
            && q.distance == (if id == DistanceKey && number.Read? then number.value else p.distance)
            && (q.hasDistance <==> (id == DistanceKey && number.Read?) || p.hasDistance)
            && q.surface == (if id == SurfaceKey then TextOr(v, SURFACE_MAX, p.surface) else p.surface)
  {
    hide StringIn, NumberIn, HandedParse, ClubParse;
  }

  /** A player's fields are the last values given for them; what is not given stays as it was. */
  lemma {:induction false} PlayerLastWins(lib: NumLib, ms: seq<Member>, p: PlayerInfo)
    requires ValidMembers(ms)
    ensures var q := FoldPlayer(lib, ms, p);
            var hand, club := LastString(PLAYER_KEYS, ms, HandedKey, 16), LastString(PLAYER_KEYS, ms, ClubKey, 16);
            var distance := LastNumber(lib, PLAYER_KEYS, ms, DistanceKey);
            && q.handed == (if hand.Some? then HandedParse(hand.value) else p.handed)
            && q.club == (if club.Some? then ClubParse(club.value) else p.club)
            && q.distance == Or(distance, p.distance) && (q.hasDistance <==> distance.Some? || p.hasDistance)
            && q.surface == Or(LastString(PLAYER_KEYS, ms, SurfaceKey, SURFACE_MAX), p.surface)
    decreases ms
  {
    hide KeyText, NumberIn, StringIn, Lookup, PlayerIn, HandedParse, ClubParse;
    if ms != [] {
      match Lookup(PLAYER_KEYS, KeyText(ms[0])) {
        case None => PlayerLastWins(lib, ms[1..], p);
        case Some((id, _)) =>
          PlayerInSays(lib, id, ms[0].value, p);
          PlayerLastWins(lib, ms[1..], PlayerIn(lib, id, ms[0].value, p));
      }
    }
  }

  lemma {:induction false} FoldPlayerConcat(lib: NumLib, a: seq<Member>, b: seq<Member>, p: PlayerInfo)
    requires ValidMembers(a) && ValidMembers(b)
    ensures ValidMembers(a + b) && FoldPlayer(lib, a + b, p) == FoldPlayer(lib, b, FoldPlayer(lib, a, p))
    decreases |a|
  {
    hide KeyText, PlayerIn, Lookup;
    ValidConcat(a, b);
    if a == [] {
      assert a + b == b;
    } else {
      assert (a + b)[1..] == a[1..] + b;
      match Lookup(PLAYER_KEYS, KeyText(a[0])) {
        case None => FoldPlayerConcat(lib, a[1..], b, p);
        case Some((id, _)) => FoldPlayerConcat(lib, a[1..], b, PlayerIn(lib, id, a[0].value, p));
      }
    }
  }

  /** What a response's member makes of its code and its text. */
  lemma ResponseInSays(lib: NumLib, id: ResponseKey, v: Value, r: Response)
    requires Valid(v)
    ensures var e := ResponseIn(lib, id, v, r);
            && e.code == (if id == CodeKey && NumberIn(lib, v).Read? then ClampInt32(NumberIn(lib, v).value) else r.code)
            && e.message == (if id == MessageKey then TextOr(v, RESPONSE_TEXT_MAX, r.message) else r.message)
            && (e.hasMessage <==> (id == MessageKey && StringIn(v, RESPONSE_TEXT_MAX).Read?) || r.hasMessage)
            && e.player == (if id == PlayerKey && v.Object? then FoldPlayer(lib, v.members, r.player) else r.player)
            && (e.hasPlayer <==> (id == PlayerKey && v.Object?) || r.hasPlayer)
  {
    hide FoldPlayer, StringIn, NumberIn, ClampInt32;
  }

  lemma {:induction false} ResponseTexts(lib: NumLib, ms: seq<Member>, r: Response)
    requires ValidMembers(ms)
    ensures var e := FoldResponse(lib, ms, r);
            var code := LastNumber(lib, RESPONSE_KEYS, ms, CodeKey);
            var text := LastString(RESPONSE_KEYS, ms, MessageKey, RESPONSE_TEXT_MAX);
            && e.code == (if code.Some? then ClampInt32(code.value) else r.code)
            && e.message == Or(text, r.message) && (e.hasMessage <==> text.Some? || r.hasMessage)
    decreases ms
  {
    hide KeyText, NumberIn, StringIn, Lookup, ResponseIn, ClampInt32;
    if ms != [] {
      match Lookup(RESPONSE_KEYS, KeyText(ms[0])) {
        case None => ResponseTexts(lib, ms[1..], r);
        case Some((id, _)) =>
          ResponseInSays(lib, id, ms[0].value, r);
          ResponseTexts(lib, ms[1..], ResponseIn(lib, id, ms[0].value, r));
      }
    }
  }

  lemma {:induction false} ResponsePlayers(lib: NumLib, ms: seq<Member>, r: Response)
    requires ValidMembers(ms)
    ensures var e := FoldResponse(lib, ms, r);
            e.player == FoldPlayer(lib, PlayerOf(ms), r.player) && (e.hasPlayer <==> HasPlayer(ms) || r.hasPlayer)
    decreases ms
  {
    hide KeyText, NumberIn, StringIn, Lookup, FoldPlayer, ResponseIn, ClampInt32;
    if ms == [] {
      NobodyPlays(lib, r.player);
    } else {
      assert Valid(ms[0].value);
      if ms[0].value.Object? {
        FoldPlayerConcat(lib, ms[0].value.members, PlayerOf(ms[1..]), r.player);
      }
      match Lookup(RESPONSE_KEYS, KeyText(ms[0])) {
        case None => ResponsePlayers(lib, ms[1..], r);
        case Some((id, _)) =>
          ResponseInSays(lib, id, ms[0].value, r);
          ResponsePlayers(lib, ms[1..], ResponseIn(lib, id, ms[0].value, r));
      }
    }
  }

  /**
   * A response's fields are the last values given for them, a code clamped to 32 bits, and its
   * player is what all its player objects say, one after another.
   */
  lemma ResponseLastWins(lib: NumLib, ms: seq<Member>)
    requires ValidMembers(ms)
    ensures var e, p := FoldResponse(lib, ms, NO_RESPONSE), PlayerOf(ms);
            var code := LastNumber(lib, RESPONSE_KEYS, ms, CodeKey);
            var text := LastString(RESPONSE_KEYS, ms, MessageKey, RESPONSE_TEXT_MAX);
            var hand, club := LastString(PLAYER_KEYS, p, HandedKey, 16), LastString(PLAYER_KEYS, p, ClubKey, 16);
            var distance := LastNumber(lib, PLAYER_KEYS, p, DistanceKey);
            && e.code == (if code.Some? then ClampInt32(code.value) else 0)
            && e.message == Or(text, []) && (e.hasMessage <==> text.Some?) && (e.hasPlayer <==> HasPlayer(ms))
            && e.player.handed == (if hand.Some? then HandedParse(hand.value) else 0)
            && e.player.club == (if club.Some? then ClubParse(club.value) else 0)
            && e.player.distance == Or(distance, Finite(0.0)) && (e.player.hasDistance <==> distance.Some?)
            && e.player.surface == Or(LastString(PLAYER_KEYS, p, SurfaceKey, SURFACE_MAX), [])
  {
    hide FoldResponse, FoldPlayer, LastNumber, LastString, HasPlayer, PlayerOf, HandedParse, ClubParse, ClampInt32;
    ResponseTexts(lib, ms, NO_RESPONSE);
    ResponsePlayers(lib, ms, NO_RESPONSE);
    PlayerLastWins(lib, PlayerOf(ms), NO_PLAYER);
  }

  lemma NobodyPlays(lib: NumLib, p: PlayerInfo)
    ensures FoldPlayer(lib, [], p) == p
  {
  }
}
