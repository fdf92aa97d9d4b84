/** The decoded message, the player information and the names both have on the wire. */
module Message {
  import opened Bytes
  import opened Numbers

  datatype BallField = BallSpeed | SpinAxis | TotalSpin | BackSpin | SideSpin | Hla | Vla | CarryDistance

  datatype ClubField =
    | ClubSpeed | AngleOfAttack | FaceToTarget | Lie | Loft | Path | SpeedAtImpact
    | VerticalFaceImpact | HorizontalFaceImpact | ClosureRate

  datatype OptionField =
    | ContainsBallData | ContainsClubData | LaunchMonitorIsReady | LaunchMonitorBallDetected | IsHeartBeat

  datatype Flag =
    | MissingDeviceId | MissingShotNumber | ShotNumberNotInteger | MissingApiVersion | UnknownApiVersion
    | MissingOptions | BallFlagWithoutObject | BallObjectWithoutFlag | ClubFlagWithoutObject
    | ClubObjectWithoutFlag | BallIncomplete | UnknownUnits | KeyCaseMismatch | UnknownKeys
    | ShotNumberRepeated | StringTruncated | TypeCoerced

  datatype MessageKind = Shot | Heartbeat | Status

  datatype Units = UnitsUnknown | Yards | Meters

  /** Absent section members are absent from the maps; their presence bits are the key sets. */
  datatype Message = Message(
    kind: MessageKind,
    units: Units,
    flags: set<Flag>,
    shotNumber: int,
    deviceId: seq<Byte>,
    unitsText: seq<Byte>,
    apiVersion: seq<Byte>,
    options: map<OptionField, bool>,
    ball: map<BallField, Double>,
    club: map<ClubField, Double>,
    wireLength: nat,
    unknownKeys: nat)

  const DEVICE_ID_MAX: nat := 64
  const UNITS_TEXT_MAX: nat := 16
  const API_VERSION_MAX: nat := 8
  const SURFACE_MAX: nat := 16
  const RESPONSE_TEXT_MAX: nat := 96

  /** A name on the wire and what it names. */
  datatype Key<T> = Key(name: seq<Byte>, id: T)

  /** The names of the ball's fields. */
  function BallKeys(): seq<Key<BallField>> {
    [Key(Ascii("Speed"), BallSpeed), Key(Ascii("SpinAxis"), SpinAxis), Key(Ascii("TotalSpin"), TotalSpin),
     Key(Ascii("BackSpin"), BackSpin), Key(Ascii("SideSpin"), SideSpin), Key(Ascii("HLA"), Hla),
     Key(Ascii("VLA"), Vla), Key(Ascii("CarryDistance"), CarryDistance)]
  }

  const BALL_KEYS: seq<Key<BallField>> := BallKeys()

  /** And of the club's. */
  function ClubKeys(): seq<Key<ClubField>> {
    [Key(Ascii("Speed"), ClubSpeed), Key(Ascii("AngleOfAttack"), AngleOfAttack),
     Key(Ascii("FaceToTarget"), FaceToTarget), Key(Ascii("Lie"), Lie), Key(Ascii("Loft"), Loft),
     Key(Ascii("Path"), Path), Key(Ascii("SpeedAtImpact"), SpeedAtImpact),
     Key(Ascii("VerticalFaceImpact"), VerticalFaceImpact),
     Key(Ascii("HorizontalFaceImpact"), HorizontalFaceImpact), Key(Ascii("ClosureRate"), ClosureRate)]
  }

  const CLUB_KEYS: seq<Key<ClubField>> := ClubKeys()

  /** And of the options. */
  function OptionKeys(): seq<Key<OptionField>> {
    [Key(Ascii("ContainsBallData"), ContainsBallData), Key(Ascii("ContainsClubData"), ContainsClubData),
     Key(Ascii("LaunchMonitorIsReady"), LaunchMonitorIsReady),
     Key(Ascii("LaunchMonitorBallDetected"), LaunchMonitorBallDetected), Key(Ascii("IsHeartBeat"), IsHeartBeat)]
  }

  const OPTION_KEYS: seq<Key<OptionField>> := OptionKeys()

  datatype RootKey = DeviceIdKey | UnitsKey | ShotNumberKey | ApiVersionKey | BallDataKey | ClubDataKey | OptionsKey

  /** A message's own members. */
  function RootKeys(): seq<Key<RootKey>> {
    [Key(Ascii("DeviceID"), DeviceIdKey), Key(Ascii("Units"), UnitsKey), Key(Ascii("ShotNumber"), ShotNumberKey),
     Key(Ascii("APIversion"), ApiVersionKey), Key(Ascii("BallData"), BallDataKey),
     Key(Ascii("ClubData"), ClubDataKey), Key(Ascii("ShotDataOptions"), OptionsKey)]
  }

  const ROOT_KEYS: seq<Key<RootKey>> := RootKeys()

  datatype ResponseKey = CodeKey | MessageKey | PlayerKey

  /** A response's members. */
  function ResponseKeys(): seq<Key<ResponseKey>> {
    [Key(Ascii("Code"), CodeKey), Key(Ascii("Message"), MessageKey), Key(Ascii("Player"), PlayerKey)]
  }

  const RESPONSE_KEYS: seq<Key<ResponseKey>> := ResponseKeys()

  datatype PlayerField = HandedKey | ClubKey | DistanceKey | SurfaceKey

  /** And its player's. */
  function PlayerKeys(): seq<Key<PlayerField>> {
    [Key(Ascii("Handed"), HandedKey), Key(Ascii("Club"), ClubKey), Key(Ascii("DistanceToTarget"), DistanceKey),
     Key(Ascii("Surface"), SurfaceKey)]
  }

  const PLAYER_KEYS: seq<Key<PlayerField>> := PlayerKeys()

  /** The first entry spelled exactly like `key`; failing that, the first that differs in case only. */
  function FindKey<T>(tab: seq<Key<T>>, key: seq<Byte>, exact: bool): Option<T> {
    if tab == [] then None
    else if (if exact then tab[0].name == key else CiEqual(tab[0].name, key)) then Some(tab[0].id)
    else FindKey(tab[1..], key, exact)
  }

  function Lookup<T>(tab: seq<Key<T>>, key: seq<Byte>): Option<(T, bool)> {
    match FindKey(tab, key, true)
    case Some(id) => Some((id, false))
    case None =>
      match FindKey(tab, key, false)
      case Some(id) => Some((id, true))
      case None => None
  }

  method LookupKey<T>(tab: seq<Key<T>>, key: seq<Byte>) returns (r: Option<(T, bool)>)
    ensures r == Lookup(tab, key)
  {
    for i := 0 to |tab|
      invariant FindKey(tab, key, true) == FindKey(tab[i..], key, true)
    {
      assert tab[i..][1..] == tab[i + 1..];
      if tab[i].name == key {
        return Some((tab[i].id, false));
      }
    }
    for i := 0 to |tab|
      invariant FindKey(tab, key, true) == None
      invariant FindKey(tab, key, false) == FindKey(tab[i..], key, false)
    {
      assert tab[i..][1..] == tab[i + 1..];
      if CiEqual(tab[i].name, key) {
        return Some((tab[i].id, true));
      }
    }
    return None;
  }

  // --------------------------------------------------------------------------------------
  // Hands, clubs and units
  // --------------------------------------------------------------------------------------

  /** What the clubs are called on the wire, in the order of their numbers. */
  function ClubCodes(): seq<seq<Byte>> {
    [Ascii("DR"), Ascii("W2"), Ascii("W3"), Ascii("W4"), Ascii("W5"), Ascii("W6"), Ascii("W7"),
     Ascii("H2"), Ascii("H3"), Ascii("H4"), Ascii("H5"), Ascii("H6"), Ascii("H7"),
     Ascii("I1"), Ascii("I2"), Ascii("I3"), Ascii("I4"), Ascii("I5"), Ascii("I6"), Ascii("I7"), Ascii("I8"),
     Ascii("I9"), Ascii("PW"), Ascii("GW"), Ascii("SW"), Ascii("LW"), Ascii("PT")]
  }

  const CLUB_CODES: seq<seq<Byte>> := ClubCodes()

  function FindClub(code: seq<Byte>, i: nat): (r: nat)
    requires 1 <= i <= |CLUB_CODES| + 1
    ensures r <= |CLUB_CODES|
    decreases |CLUB_CODES| + 1 - i
  {
    if i > |CLUB_CODES| then 0
    else if CiEqual(CLUB_CODES[i - 1], code) then i
    else FindClub(code, i + 1)
  }

  /** The enumerator a wire code names, 0 for none. */
  function ClubParse(code: seq<Byte>): nat {
    if code == [] then 0 else FindClub(code, 1)
  }

  function ClubText(club: nat): seq<Byte> {
    if 1 <= club <= |CLUB_CODES| then CLUB_CODES[club - 1] else []
  }

  function HandedParse(text: seq<Byte>): nat {
    if CiEqual(text, Ascii("RH")) then 1 else if CiEqual(text, Ascii("LH")) then 2 else 0
  }

  function HandedText(handed: nat): seq<Byte> {
    if handed == 1 then Ascii("RH") else if handed == 2 then Ascii("LH") else []
  }

  function UnitsParse(text: seq<Byte>): Units {
    if CiEqual(text, Ascii("Yards")) then Yards
    else if CiEqual(text, Ascii("Meters")) then Meters
    else UnitsUnknown
  }

  // --------------------------------------------------------------------------------------
  // Player information
  // --------------------------------------------------------------------------------------

  /** `surface` is the C string in the field. */
  datatype PlayerInfo = PlayerInfo(handed: nat, club: nat, hasDistance: bool, distance: Double, surface: seq<Byte>)

  const NO_PLAYER: PlayerInfo := PlayerInfo(0, 0, false, ZERO_DOUBLE, [])

  predicate HasAnything(p: PlayerInfo) {
    p.handed != 0 || p.club != 0 || p.hasDistance || p.surface != []
  }

  predicate SamePlayer(a: PlayerInfo, b: PlayerInfo) {
    && a.handed == b.handed && a.club == b.club && a.hasDistance == b.hasDistance
    && (a.hasDistance ==> a.distance == b.distance && !a.distance.NaN?)
    && a.surface == b.surface
  }

  datatype Response = Response(code: int, hasMessage: bool, message: seq<Byte>, hasPlayer: bool, player: PlayerInfo)

  const NO_RESPONSE: Response := Response(0, false, [], false, NO_PLAYER)
}
