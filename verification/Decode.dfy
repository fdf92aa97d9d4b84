/** `gsp_message_decode` and `gsp_response_decode`. */
module Decode {
  import opened Bytes
  import opened Json
  import opened Numbers
  import opened Message
  import opened Reader

  /** A member's value: unreadable, absent (null, or of a type it cannot have), or read. */
  datatype Got<+T> =
    | Malformed
    | Absent(rest: seq<Byte>)
    | Read(value: T, noted: bool, rest: seq<Byte>)

  predicate Shrinks<T>(g: Got<T>, s: seq<Byte>) {
    !g.Malformed? ==> |g.rest| < |s|
  }

  function Skipped<T>(r: Option<seq<Byte>>): Got<T> {
    match r
    case Some(rest) => Absent(rest)
    case None => Malformed
  }

  /** `noted` says the number arrived as a string and was converted. */
  function NumberMember(lib: NumLib, s: seq<Byte>): (g: Got<Double>)
    ensures Shrinks(g, s)
  {
    match KindOf(s)
    case NumberKind =>
      (match ReadNumber(lib, s) case None => Malformed case Some((v, rest)) => Read(v, false, rest))
    case StringKind =>
      (match ReadString(s)
       case None => Malformed
       case Some((text, rest)) =>
         var t := CStr(Field(NUMBER_MAX, text));
         if t == [] || lib.strtod(t).used != |t| then Absent(rest)
         else Read(lib.strtod(t).value, true, rest))
    case NullKind => Skipped(ReadLiteral(s, NullKind))
    case _ => Skipped(SkipValue(lib, s))
  }

  const BOOL_TEXT_MAX: nat := 16

  /** `noted` says the boolean arrived as a string or a number and was converted. */
  function BoolMember(lib: NumLib, s: seq<Byte>): (g: Got<bool>)
    ensures Shrinks(g, s)
  {
    match KindOf(s)
    case TrueKind =>
      (match ReadLiteral(s, TrueKind) case None => Malformed case Some(rest) => Read(true, false, rest))
    case FalseKind =>
      (match ReadLiteral(s, FalseKind) case None => Malformed case Some(rest) => Read(false, false, rest))
    case StringKind =>
      (match ReadString(s)
       case None => Malformed
       case Some((text, rest)) =>
         var t := CStr(Field(BOOL_TEXT_MAX, text));
         if CiEqual(t, Ascii("true")) then Read(true, true, rest)
         else if CiEqual(t, Ascii("false")) then Read(false, true, rest)
         else Absent(rest))
    case NullKind => Skipped(ReadLiteral(s, NullKind))
    case NumberKind =>
      (match ReadNumber(lib, s) case None => Malformed case Some((v, rest)) => Read(v != ZERO_DOUBLE, true, rest))
    case _ => Skipped(SkipValue(lib, s))
  }

  /** `noted` says the string was cut to the field. */
  function StringMember(lib: NumLib, s: seq<Byte>, size: nat): (g: Got<seq<Byte>>)
    requires size > 0
    ensures Shrinks(g, s)
  {
    match KindOf(s)
    case StringKind =>
      (match ReadString(s)
       case None => Malformed
       case Some((text, rest)) => Read(CStr(Field(size, text)), |text| >= size, rest))
    case NullKind => Skipped(ReadLiteral(s, NullKind))
    case _ => Skipped(SkipValue(lib, s))
  }

  // --------------------------------------------------------------------------------------
  // Sections
  // --------------------------------------------------------------------------------------

  const COUNT_MAX: nat := 0xffff

  function CountUnknown(n: nat): nat {
    if n < COUNT_MAX then n + 1 else n
  }

  function Noted(flags: set<Flag>, note: bool, flag: Flag): set<Flag> {
    if note then flags + {flag} else flags
  }

  /** What a section has yielded so far, with the message-wide findings it adds to. */
  datatype Tally<!F, V> = Tally(values: map<F, V>, flags: set<Flag>, unknown: nat)

  /** The tally once a known member has been read. */
  function Enter<F, V>(t: Tally<F, V>, id: F, mismatch: bool, g: Got<V>): Tally<F, V> {
    var u := t.(flags := Noted(t.flags, mismatch, KeyCaseMismatch));
    if g.Read? then u.(values := u.values[id := g.value], flags := Noted(u.flags, g.noted, TypeCoerced)) else u
  }

  function OneUnknown<F, V>(t: Tally<F, V>): Tally<F, V> {
    t.(unknown := CountUnknown(t.unknown))
  }

  /** The tally once a member that is not known has been passed over. */
  function PassedOver<F, V>(t: Tally<F, V>, rest: Option<seq<Byte>>): Option<(Tally<F, V>, seq<Byte>)> {
    if rest.Some? then Some((OneUnknown(t), rest.value)) else None
  }

  function Entered<F, V>(t: Tally<F, V>, id: F, mismatch: bool, g: Got<V>): Option<(Tally<F, V>, seq<Byte>)> {
    if g.Malformed? then None else Some((Enter(t, id, mismatch, g), g.rest))
  }

  /** One member of a section of numbers. */
  function NumericMember<F>(lib: NumLib, tab: seq<Key<F>>, key: seq<Byte>, s: seq<Byte>, t: Tally<F, Double>)
    : (r: Option<(Tally<F, Double>, seq<Byte>)>)
    ensures r.Some? ==> |r.value.1| < |s|
  {
    match Lookup(tab, key)
    case None => PassedOver(t, SkipValue(lib, s))
    case Some((id, mismatch)) => Entered(t, id, mismatch, NumberMember(lib, s))
  }

  function NumericMembers<F>(lib: NumLib, tab: seq<Key<F>>, s: seq<Byte>, first: bool, t: Tally<F, Double>)
    : (r: Option<(Tally<F, Double>, seq<Byte>)>)
    ensures r.Some? ==> |r.value.1| < |s|
    decreases |s|
  {
    match NextMember(s, first)
    case BadMember => None
    case End(rest) => Some((t, rest))
    case Named(key, u) =>
      match NumericMember(lib, tab, key, u, t)
      case None => None
      case Some((v, rest)) => NumericMembers(lib, tab, rest, false, v)
  }

  /** One option. */
  function OptionMember(lib: NumLib, key: seq<Byte>, s: seq<Byte>, t: Tally<OptionField, bool>)
    : (r: Option<(Tally<OptionField, bool>, seq<Byte>)>)
    ensures r.Some? ==> |r.value.1| < |s|
  {
    match Lookup(OPTION_KEYS, key)
    case None => PassedOver(t, SkipValue(lib, s))
    case Some((id, mismatch)) => Entered(t, id, mismatch, BoolMember(lib, s))
  }

  function OptionMembers(lib: NumLib, s: seq<Byte>, first: bool, t: Tally<OptionField, bool>)
    : (r: Option<(Tally<OptionField, bool>, seq<Byte>)>)
    ensures r.Some? ==> |r.value.1| < |s|
    decreases |s|
  {
    match NextMember(s, first)
    case BadMember => None
    case End(rest) => Some((t, rest))
    case Named(key, u) =>
      match OptionMember(lib, key, u, t)
      case None => None
      case Some((v, rest)) => OptionMembers(lib, rest, false, v)
  }

  // --------------------------------------------------------------------------------------
  // The message
  // --------------------------------------------------------------------------------------

  /** The message while its members are being read; `have` names the members found so far. */
  datatype Draft = Draft(
    deviceId: seq<Byte>,
    unitsText: seq<Byte>,
    apiVersion: seq<Byte>,
    shotNumber: int,
    ball: map<BallField, Double>,
    club: map<ClubField, Double>,
    options: map<OptionField, bool>,
    have: set<RootKey>,
    flags: set<Flag>,
    unknown: nat)

  const BLANK: Draft := Draft([], [], [], 0, map[], map[], map[], {}, {}, 0)

  function WithDeviceId(d: Draft, g: Got<seq<Byte>>): Draft {
    if g.Read? then
      d.(deviceId := g.value, have := d.have + {DeviceIdKey}, flags := Noted(d.flags, g.noted, StringTruncated))
    else d
  }

  function WithUnits(d: Draft, g: Got<seq<Byte>>): Draft {
    if g.Read? then
      d.(unitsText := g.value, have := d.have + {UnitsKey}, flags := Noted(d.flags, g.noted, StringTruncated))
    else d
  }

  function WithApiVersion(d: Draft, g: Got<seq<Byte>>): Draft {
    if g.Read? then
      d.(apiVersion := g.value, have := d.have + {ApiVersionKey}, flags := Noted(d.flags, g.noted, StringTruncated))
    else d
  }

  function WithShotNumber(d: Draft, g: Got<Double>): Draft {
    if g.Read? then
      d.(shotNumber := ClampInt64(g.value), have := d.have + {ShotNumberKey},
         flags := Noted(Noted(d.flags, g.noted, TypeCoerced), !IsIntegral(g.value), ShotNumberNotInteger))
    else d
  }

  function WithBall(d: Draft, t: Tally<BallField, Double>): Draft {
    d.(ball := t.values, have := d.have + {BallDataKey}, flags := t.flags, unknown := t.unknown)
  }

  function WithClub(d: Draft, t: Tally<ClubField, Double>): Draft {
    d.(club := t.values, have := d.have + {ClubDataKey}, flags := t.flags, unknown := t.unknown)
  }

  function WithOptions(d: Draft, t: Tally<OptionField, bool>): Draft {
    d.(options := t.values, have := d.have + {OptionsKey}, flags := t.flags, unknown := t.unknown)
  }

  /** The body of a section, which only an object has. */
  function OpenSection(s: seq<Byte>): Option<seq<Byte>> {
    if KindOf(s).ObjectKind? then Accept(s, LBRACE) else None
  }

  function SkipInto(lib: NumLib, s: seq<Byte>, d: Draft): Option<(Draft, seq<Byte>)> {
    match SkipValue(lib, s)
    case None => None
    case Some(rest) => Some((d, rest))
  }

  function Settle<T>(g: Got<T>, d: Draft): Option<(Draft, seq<Byte>)> {
    if g.Malformed? then None else Some((d, g.rest))
  }

  function BallSection(lib: NumLib, s: seq<Byte>, d: Draft): (r: Option<(Draft, seq<Byte>)>)
    ensures r.Some? ==> |r.value.1| < |s|
  {
    match OpenSection(s)
    case None => SkipInto(lib, s, d)
    case Some(body) =>
      match NumericMembers(lib, BALL_KEYS, body, true, Tally(d.ball, d.flags, d.unknown))
      case None => None
      case Some((t, rest)) => Some((WithBall(d, t), rest))
  }

  function ClubSection(lib: NumLib, s: seq<Byte>, d: Draft): (r: Option<(Draft, seq<Byte>)>)
    ensures r.Some? ==> |r.value.1| < |s|
  {
    match OpenSection(s)
    case None => SkipInto(lib, s, d)
    case Some(body) =>
      match NumericMembers(lib, CLUB_KEYS, body, true, Tally(d.club, d.flags, d.unknown))
      case None => None
      case Some((t, rest)) => Some((WithClub(d, t), rest))
  }

  function OptionSection(lib: NumLib, s: seq<Byte>, d: Draft): (r: Option<(Draft, seq<Byte>)>)
    ensures r.Some? ==> |r.value.1| < |s|
  {
    match OpenSection(s)
    case None => SkipInto(lib, s, d)
    case Some(body) =>
      match OptionMembers(lib, body, true, Tally(d.options, d.flags, d.unknown))
      case None => None
      case Some((t, rest)) => Some((WithOptions(d, t), rest))
  }

  /** The value of the known root member `id`. */
  function RootValue(lib: NumLib, id: RootKey, s: seq<Byte>, d: Draft): (r: Option<(Draft, seq<Byte>)>)
    ensures r.Some? ==> |r.value.1| < |s|
  {
    match id
    case DeviceIdKey => var g := StringMember(lib, s, DEVICE_ID_MAX); Settle(g, WithDeviceId(d, g))
    case UnitsKey => var g := StringMember(lib, s, UNITS_TEXT_MAX); Settle(g, WithUnits(d, g))
    case ApiVersionKey => var g := StringMember(lib, s, API_VERSION_MAX); Settle(g, WithApiVersion(d, g))
    case ShotNumberKey => var g := NumberMember(lib, s); Settle(g, WithShotNumber(d, g))
    case BallDataKey => BallSection(lib, s, d)
    case ClubDataKey => ClubSection(lib, s, d)
    case OptionsKey => OptionSection(lib, s, d)
  }

  /** The draft once a message's own member has been read: noted if it is not spelled as the table has it. */
  function CaseNoted(d: Draft, mismatch: bool): Draft {
    d.(flags := Noted(d.flags, mismatch, KeyCaseMismatch))
  }

  function UnknownNoted(d: Draft): Draft {
    d.(unknown := CountUnknown(d.unknown))
  }

  /** One of a message's own members. */
  function RootMember(lib: NumLib, key: seq<Byte>, s: seq<Byte>, d: Draft): (r: Option<(Draft, seq<Byte>)>)
    ensures r.Some? ==> |r.value.1| < |s|
  {
    match Lookup(ROOT_KEYS, key)
    case None => SkipInto(lib, s, UnknownNoted(d))
    case Some((id, mismatch)) => RootValue(lib, id, s, CaseNoted(d, mismatch))
  }

  function RootMembers(lib: NumLib, s: seq<Byte>, first: bool, d: Draft): Option<(Draft, seq<Byte>)>
    decreases |s|
  {
    match NextMember(s, first)
    case BadMember => None
    case End(rest) => Some((d, rest))
    case Named(key, u) =>
      match RootMember(lib, key, u, d)
      case None => None
      case Some((e, rest)) => RootMembers(lib, rest, false, e)
  }

  predicate Truth(options: map<OptionField, bool>, f: OptionField) {
    f in options && options[f]
  }

  predicate BallComplete(ball: map<BallField, Double>) {
    var pair := BackSpin in ball && SideSpin in ball;
    && BallSpeed in ball && Hla in ball && Vla in ball
    && (TotalSpin in ball || pair) && (SpinAxis in ball || pair)
  }

  function KindFrom(options: map<OptionField, bool>): MessageKind {
    if Truth(options, ContainsBallData) || Truth(options, ContainsClubData) then Shot
    else if Truth(options, IsHeartBeat) then Heartbeat
    else Status
  }

  function UnitsFrom(d: Draft): Units {
    if UnitsKey in d.have then UnitsParse(d.unitsText) else UnitsUnknown
  }

  /** The conditions of the flag pass, in its order. */
  function Findings(d: Draft): seq<(bool, Flag)> {
    var containsBall := Truth(d.options, ContainsBallData);
    var containsClub := Truth(d.options, ContainsClubData);
    var haveBall := BallDataKey in d.have;
    var haveClub := ClubDataKey in d.have;
    var isShot := KindFrom(d.options) == Shot;
    [(UnitsKey in d.have && UnitsFrom(d) == UnitsUnknown, UnknownUnits),
     (DeviceIdKey !in d.have, MissingDeviceId),
     (ShotNumberKey !in d.have, MissingShotNumber),
     (ApiVersionKey !in d.have, MissingApiVersion),
     (ApiVersionKey in d.have && d.apiVersion != Ascii("1"), UnknownApiVersion),
     (OptionsKey !in d.have, MissingOptions),
     (containsBall && !haveBall, BallFlagWithoutObject),
     (haveBall && !containsBall, BallObjectWithoutFlag),
     (containsClub && !haveClub, ClubFlagWithoutObject),
     (haveClub && !containsClub && !isShot, ClubObjectWithoutFlag),
     (isShot && containsBall && !BallComplete(d.ball), BallIncomplete),
     (d.unknown > 0, UnknownKeys)]
  }

  function NotedAll(flags: set<Flag>, notes: seq<(bool, Flag)>): set<Flag>
    decreases |notes|
  {
    if notes == [] then flags else NotedAll(Noted(flags, notes[0].0, notes[0].1), notes[1..])
  }

  /** The message made of a finished draft: its kind and units, and every note that applies. */
  function Finish(d: Draft, length: nat): Message {
    Message(KindFrom(d.options), UnitsFrom(d), NotedAll(d.flags, Findings(d)), d.shotNumber, d.deviceId, d.unitsText,
            d.apiVersion, d.options, d.ball, d.club, if length > COUNT_MAX then COUNT_MAX else length, d.unknown)
  }

  /** What `gsp_message_decode` answers: a message, or that the bytes are not one JSON object. */
  function DecodeMessage(lib: NumLib, json: seq<Byte>): Option<Message> {
    match Accept(json, LBRACE)
    case None => None
    case Some(body) =>
      match RootMembers(lib, body, true, BLANK)
      case None => None
      case Some((d, rest)) => if SkipWs(rest) == [] then Some(Finish(d, |json|)) else None
  }

  // --------------------------------------------------------------------------------------
  // The response
  // --------------------------------------------------------------------------------------

  const CODE_TEXT_MAX: nat := 16

  /** Nothing new, and what is left. */
  function Keeping<T>(known: T, rest: Option<seq<Byte>>): Option<(T, seq<Byte>)> {
    if rest.Some? then Some((known, rest.value)) else None
  }

  function PlayerValue(lib: NumLib, id: PlayerField, s: seq<Byte>, p: PlayerInfo)
    : (r: Option<(PlayerInfo, seq<Byte>)>)
    ensures r.Some? ==> |r.value.1| < |s|
  {
    match id
    case HandedKey =>
      var g := StringMember(lib, s, CODE_TEXT_MAX);
      if g.Malformed? then None
      else Some((if g.Read? then p.(handed := HandedParse(g.value)) else p, g.rest))
    case ClubKey =>
      var g := StringMember(lib, s, CODE_TEXT_MAX);
      if g.Malformed? then None
      else Some((if g.Read? then p.(club := ClubParse(g.value)) else p, g.rest))
    case DistanceKey =>
      var g := NumberMember(lib, s);
      if g.Malformed? then None
      else Some((if g.Read? then p.(distance := g.value, hasDistance := true) else p, g.rest))
    case SurfaceKey =>
      var g := StringMember(lib, s, SURFACE_MAX);
      if g.Malformed? then None
      else Some((if g.Read? then p.(surface := g.value) else p, g.rest))
  }

  function PlayerMember(lib: NumLib, key: seq<Byte>, s: seq<Byte>, p: PlayerInfo): (r: Option<(PlayerInfo, seq<Byte>)>)
    ensures r.Some? ==> |r.value.1| < |s|
  {
    match Lookup(PLAYER_KEYS, key)
    case None => Keeping(p, SkipValue(lib, s))
    case Some((id, _)) => PlayerValue(lib, id, s, p)
  }

  function PlayerMembers(lib: NumLib, s: seq<Byte>, first: bool, p: PlayerInfo)
    : (r: Option<(PlayerInfo, seq<Byte>)>)
    ensures r.Some? ==> |r.value.1| < |s|
    decreases |s|
  {
    match NextMember(s, first)
    case BadMember => None
    case End(rest) => Some((p, rest))
    case Named(key, u) =>
      match PlayerMember(lib, key, u, p)
      case None => None
      case Some((q, rest)) => PlayerMembers(lib, rest, false, q)
  }

  function ClampInt32(d: Double): int {
    var c := ClampInt64(d);
    if c > INT32_MAX then INT32_MAX else if c < INT32_MIN then INT32_MIN else c
  }

  function ResponseValue(lib: NumLib, id: ResponseKey, s: seq<Byte>, r: Response)
    : (o: Option<(Response, seq<Byte>)>)
    ensures o.Some? ==> |o.value.1| < |s|
  {
    match id
    case CodeKey =>
      var g := NumberMember(lib, s);
      if g.Malformed? then None
      else Some((if g.Read? then r.(code := ClampInt32(g.value)) else r, g.rest))
    case MessageKey =>
      var g := StringMember(lib, s, RESPONSE_TEXT_MAX);
      if g.Malformed? then None
      else Some((if g.Read? then r.(message := g.value, hasMessage := true) else r, g.rest))
    case PlayerKey =>
      match OpenSection(s)
      case None => (match SkipValue(lib, s) case None => None case Some(rest) => Some((r, rest)))
      case Some(body) =>
        match PlayerMembers(lib, body, true, r.player)
        case None => None
        case Some((p, rest)) => Some((r.(player := p, hasPlayer := true), rest))
  }

  function ResponseMember(lib: NumLib, key: seq<Byte>, s: seq<Byte>, r: Response): (o: Option<(Response, seq<Byte>)>)
    ensures o.Some? ==> |o.value.1| < |s|
  {
    match Lookup(RESPONSE_KEYS, key)
    case None => Keeping(r, SkipValue(lib, s))
    case Some((id, _)) => ResponseValue(lib, id, s, r)
  }

  function ResponseMembers(lib: NumLib, s: seq<Byte>, first: bool, r: Response): Option<(Response, seq<Byte>)>
    decreases |s|
  {
    match NextMember(s, first)
    case BadMember => None
    case End(rest) => Some((r, rest))
    case Named(key, u) =>
      match ResponseMember(lib, key, u, r)
      case None => None
      case Some((q, rest)) => ResponseMembers(lib, rest, false, q)
  }

  function DecodeResponse(lib: NumLib, json: seq<Byte>): Option<Response> {
    match Accept(json, LBRACE)
    case None => None
    case Some(body) =>
      match ResponseMembers(lib, body, true, NO_RESPONSE)
      case None => None
      case Some((r, rest)) => if SkipWs(rest) == [] then Some(r) else None
  }
}
