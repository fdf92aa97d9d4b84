/**
 * What `gsp_response_encode` writes is JSON, and `gsp_response_decode` reads back what was encoded,
 * string fields cut to the sizes the decoder has for them.
 */
module RoundTrip {
  import opened Bytes
  import opened Json
  import opened Text
  import opened Numbers
  import opened Message
  import opened Protocol
  import opened Reader
  import opened Decode
  import opened DecodeJson
  import opened Encode
  import Frame
  import FrameJson

  // --------------------------------------------------------------------------------------
  // Strings
  // --------------------------------------------------------------------------------------

  lemma EscapeByteMeans(c: Byte, rest: seq<Item>)
    requires c != NUL && ValidItems(rest)
    ensures ValidItems([EscapeByte(c)] + rest)
    ensures Meaning([EscapeByte(c)] + rest) == [c] + Meaning(rest)
  {
    var items := [EscapeByte(c)] + rest;
    assert items[1..] == rest;
    if c < 0x20 && EscapeByte(c).Unicode? {
      assert Hex4(EscapeByte(c).hex) == c;
    }
  }

  /** Escaping loses nothing. */
  lemma {:induction false} EscapeBytesMean(s: seq<Byte>)
    requires NUL !in s
    ensures Meaning(EscapeBytes(s)) == s
  {
    if s != [] {
      EscapeByteMeans(s[0], EscapeBytes(s[1..]));
      EscapeBytesMean(s[1..]);
    }
  }

  predicate IsName(s: seq<Byte>) {
    && |s| < KEY_MAX
    && forall i :: 0 <= i < |s| ==> s[i] != QUOTE && s[i] != BACKSLASH && s[i] != NUL
  }

  // --------------------------------------------------------------------------------------
  // The encoding as JSON
  // --------------------------------------------------------------------------------------

  /** A member with no whitespace anywhere. */
  function Tight(name: seq<Byte>, v: Value): Member {
    Member([], PlainItems(name), [], [], v, [])
  }

  function StringValue(s: seq<Byte>): (v: Value)
    ensures Valid(v) && v.Text?
  {
    Value.Text(EscapeBytes(s))
  }

  function If(c: bool, m: Member): seq<Member> {
    if c then [m] else []
  }

  function HandedMember(p: PlayerInfo): seq<Member> {
    If(HandedText(p.handed) != [], Tight(HANDED_NAME, StringValue(HandedText(p.handed))))
  }

  function ClubMember(p: PlayerInfo): seq<Member> {
    If(ClubText(p.club) != [], Tight(CLUB_NAME, StringValue(ClubText(p.club))))
  }

  function DistanceMember(lib: NumLib, p: PlayerInfo): seq<Member> {
    If(p.hasDistance, Tight(DISTANCE_NAME, Number(FormatDouble(lib, p.distance))))
  }

  function SurfaceMember(p: PlayerInfo): seq<Member> {
    If(CStr(p.surface) != [], Tight(SURFACE_NAME, StringValue(CStr(p.surface))))
  }

  function PlayerMembersOf(lib: NumLib, p: PlayerInfo): seq<Member> {
    HandedMember(p) + ClubMember(p) + DistanceMember(lib, p) + SurfaceMember(p)
  }

  function PlayerJson(lib: NumLib, p: PlayerInfo): Value {
    Object([], PlayerMembersOf(lib, p))
  }

  function CodeMember(code: int): seq<Member>
    requires CodeIsOurs(code)
  {
    [Tight(CODE_NAME, Number(Decimal3(code)))]
  }

  function MessageMember(message: Option<seq<Byte>>): seq<Member> {
    if message.Some? then [Tight(MESSAGE_NAME, StringValue(CStr(message.value)))] else []
  }

  function PlayerMember(lib: NumLib, player: Option<PlayerInfo>): seq<Member> {
    if player.Some? then [Tight(PLAYER_NAME, PlayerJson(lib, player.value))] else []
  }

  function ResponseMembersOf(lib: NumLib, code: int, message: Option<seq<Byte>>, player: Option<PlayerInfo>)
    : seq<Member>
    requires CodeIsOurs(code)
  {
    CodeMember(code) + MessageMember(message) + PlayerMember(lib, player)
  }

  function ResponseJson(lib: NumLib, code: int, message: Option<seq<Byte>>, player: Option<PlayerInfo>): Value
    requires CodeIsOurs(code)
  {
    Object([], ResponseMembersOf(lib, code, message, player))
  }

  lemma TightPrints(name: seq<Byte>, v: Value, first: bool)
    ensures (if first then [] else [COMMA]) + PrintMember(Tight(name, v)) == NameText(name, first) + Print(v)
  {
    PlainItemsPrint(name);
    assert PrintMember(Tight(name, v)) == [QUOTE] + name + [QUOTE] + ([COLON] + Print(v));
  }

  /** Printing one member list after another, the comma rule included. */
  lemma {:induction false} PrintMembersConcat(a: seq<Member>, b: seq<Member>, first: bool)
    ensures PrintMembers(a + b, first) == PrintMembers(a, first) + PrintMembers(b, first && a == [])
    decreases a
  {
    if a == [] {
      assert a + b == b;
    } else {
      assert (a + b)[1..] == a[1..] + b;
      PrintMembersConcat(a[1..], b, false);
    }
  }

  lemma IfPrints(c: bool, name: seq<Byte>, v: Value, first: bool)
    ensures PrintMembers(If(c, Tight(name, v)), first) == if c then NameText(name, first) + Print(v) else []
  {
    if c {
      TightPrints(name, v, first);
      assert [Tight(name, v)][1..] == [];
    }
  }

  lemma PartsPrint(lib: NumLib, p: PlayerInfo)
    ensures HandedPart(p) == PrintMembers(HandedMember(p), true)
    ensures ClubPart(p) == PrintMembers(ClubMember(p), HandedMember(p) == [])
    ensures DistancePart(lib, p) == PrintMembers(DistanceMember(lib, p), HandedMember(p) + ClubMember(p) == [])
    ensures SurfacePart(lib, p)
         == PrintMembers(SurfaceMember(p), HandedMember(p) + ClubMember(p) + DistanceMember(lib, p) == [])
  {
    hide NameText, FormatDouble, CStr, HandedText, ClubText, PrintString, EscapeBytes, PrintMembers, Tight;
    NameTextIsSomething();
    IfPrints(HandedText(p.handed) != [], HANDED_NAME, StringValue(HandedText(p.handed)), true);
    assert HandedPart(p) == [] <==> HandedMember(p) == [];
    IfPrints(ClubText(p.club) != [], CLUB_NAME, StringValue(ClubText(p.club)), HandedMember(p) == []);
    assert HandedPart(p) + ClubPart(p) == [] <==> HandedMember(p) + ClubMember(p) == [];
    IfPrints(p.hasDistance, DISTANCE_NAME, Number(FormatDouble(lib, p.distance)), HandedMember(p) + ClubMember(p) == []);
    assert HandedPart(p) + ClubPart(p) + DistancePart(lib, p) == []
      <==> HandedMember(p) + ClubMember(p) + DistanceMember(lib, p) == [];
    IfPrints(CStr(p.surface) != [], SURFACE_NAME, StringValue(CStr(p.surface)),
             HandedMember(p) + ClubMember(p) + DistanceMember(lib, p) == []);
  }

  lemma ObjectPrints(ms: seq<Member>)
    ensures Print(Object([], ms)) == [LBRACE] + [] + PrintMembers(ms, true) + [RBRACE]
  {
  }

  lemma Regroup(a: seq<Byte>, b: seq<Byte>, c: seq<Byte>, d: seq<Byte>)
    ensures [LBRACE] + a + b + c + d + [RBRACE] == [LBRACE] + [] + (a + b + c + d) + [RBRACE]
  {
    var l, r: seq<Byte> := [LBRACE], [RBRACE];
    assert l + [] == l;
    assert l + a + b == l + (a + b);
    assert l + (a + b) + c == l + (a + b + c);
    assert l + (a + b + c) + d == l + (a + b + c + d);
  }

  lemma PlayerTextIsJson(lib: NumLib, p: PlayerInfo)
    ensures PlayerText(lib, p) == Print(PlayerJson(lib, p))
  {
    var h, c, d, s := HandedMember(p), ClubMember(p), DistanceMember(lib, p), SurfaceMember(p);
    PartsPrint(lib, p);
    ObjectPrints(h + c + d + s);
    hide HandedPart, ClubPart, DistancePart, SurfacePart, HandedMember, ClubMember, DistanceMember, SurfaceMember,
         PrintMembers, Print;
    PrintMembersConcat(h, c, true);
    PrintMembersConcat(h + c, d, true);
    PrintMembersConcat(h + c + d, s, true);
    Regroup(HandedPart(p), ClubPart(p), DistancePart(lib, p), SurfacePart(lib, p));
  }

  lemma ResponsePartsPrint(lib: NumLib, code: int, message: Option<seq<Byte>>, player: Option<PlayerInfo>)
    requires CodeIsOurs(code)
    ensures PrintMembers(CodeMember(code), true) == NameText(CODE_NAME, true) + Decimal3(code)
    ensures PrintMembers(MessageMember(message), false) == MessagePart(message)
    ensures PrintMembers(PlayerMember(lib, player), false) == PlayerPart(lib, player)
  {
    hide NameText, CStr, PrintString, EscapeBytes, Tight, Decimal3, PlayerText, PlayerJson;
    IfPrints(true, CODE_NAME, Number(Decimal3(code)), true);
    if message.Some? {
      IfPrints(true, MESSAGE_NAME, StringValue(CStr(message.value)), false);
    }
    if player.Some? {
      IfPrints(true, PLAYER_NAME, PlayerJson(lib, player.value), false);
      PlayerTextIsJson(lib, player.value);
    }
  }

  lemma ThreePrint(c: seq<Member>, m: seq<Member>, p: seq<Member>)
    requires c != []
    ensures PrintMembers(c + m + p, true) == PrintMembers(c, true) + PrintMembers(m, false) + PrintMembers(p, false)
  {
    hide PrintMembers;
    PrintMembersConcat(c, m, true);
    PrintMembersConcat(c + m, p, true);
    assert c + m != [];
  }

  /** The bytes of a reply are a printed JSON object. */
  lemma ResponseTextIsJson(lib: NumLib, code: int, message: Option<seq<Byte>>, player: Option<PlayerInfo>)
    requires CodeIsOurs(code)
    ensures ResponseText(lib, code, message, player) == Print(ResponseJson(lib, code, message, player))
  {
    var c, m, p := CodeMember(code), MessageMember(message), PlayerMember(lib, player);
    assert c != [];
    ResponsePartsPrint(lib, code, message, player);
    ObjectPrints(c + m + p);
    hide NameText, MessagePart, PlayerPart, Decimal3, CodeMember, MessageMember, PlayerMember, PrintMembers, Print;
    ThreePrint(c, m, p);
    Regroup(NameText(CODE_NAME, true), Decimal3(code), MessagePart(message), PlayerPart(lib, player));
  }

  lemma NamesAreNames()
    ensures IsName(HANDED_NAME) && IsName(CLUB_NAME) && IsName(DISTANCE_NAME) && IsName(SURFACE_NAME)
    ensures IsName(CODE_NAME) && IsName(MESSAGE_NAME) && IsName(PLAYER_NAME)
  {
  }

  lemma TightIsValid(name: seq<Byte>, v: Value)
    requires IsName(name) && Valid(v)
    ensures ValidMembers([Tight(name, v)]) && ValidMember(Tight(name, v)) && KeyText(Tight(name, v)) == name
  {
    PlainItemsMean(name);
    assert [Tight(name, v)][1..] == [];
  }

  lemma PlayerJsonIsValid(lib: NumLib, p: PlayerInfo)
    requires Sound(lib) && Representable(lib, p.distance)
    ensures Valid(PlayerJson(lib, p))
  {
    hide StringValue, FormatDouble, CStr, HandedText, ClubText;
    NamesAreNames();
    FormatReadsBack(lib, p.distance);
    TightIsValid(HANDED_NAME, StringValue(HandedText(p.handed)));
    TightIsValid(CLUB_NAME, StringValue(ClubText(p.club)));
    TightIsValid(DISTANCE_NAME, Number(FormatDouble(lib, p.distance)));
    TightIsValid(SURFACE_NAME, StringValue(CStr(p.surface)));
    var h, c, d, s := HandedMember(p), ClubMember(p), DistanceMember(lib, p), SurfaceMember(p);
    ValidConcat(h, c);
    ValidConcat(h + c, d);
    ValidConcat(h + c + d, s);
  }

  predicate PlayerIsRepresentable(lib: NumLib, player: Option<PlayerInfo>) {
    player.Some? ==> Representable(lib, player.value.distance)
  }

  lemma ResponsePartsAreValid(lib: NumLib, code: int, message: Option<seq<Byte>>, player: Option<PlayerInfo>)
    requires CodeIsOurs(code) && Sound(lib) && PlayerIsRepresentable(lib, player)
    ensures ValidMembers(CodeMember(code)) && ValidMembers(MessageMember(message)) && ValidMembers(PlayerMember(lib, player))
  {
    hide StringValue, CStr, PlayerJson, IsName, ValidNumber, Decimal3;
    NamesAreNames();
    TightIsValid(CODE_NAME, Number(Decimal3(code)));
    if message.Some? {
      TightIsValid(MESSAGE_NAME, StringValue(CStr(message.value)));
    }
    if player.Some? {
      PlayerJsonIsValid(lib, player.value);
      TightIsValid(PLAYER_NAME, PlayerJson(lib, player.value));
    }
  }

  lemma ResponseJsonIsValid(lib: NumLib, code: int, message: Option<seq<Byte>>, player: Option<PlayerInfo>)
    requires CodeIsOurs(code) && Sound(lib) && PlayerIsRepresentable(lib, player)
    ensures Valid(ResponseJson(lib, code, message, player))
  {
    hide ValidMembers, CodeMember, MessageMember, PlayerMember;
    ResponsePartsAreValid(lib, code, message, player);
    var c, m, p := CodeMember(code), MessageMember(message), PlayerMember(lib, player);
    ValidConcat(c, m);
    ValidConcat(c + m, p);
  }

  // --------------------------------------------------------------------------------------
  // What comes back
  // --------------------------------------------------------------------------------------

  /** The club a two-letter code spells, computed from its letters rather than looked up. */
  function ClubRank(code: seq<Byte>): int
    requires |code| == 2
  {
    var a, b: int := Lower(code[0]), Lower(code[1]);
    if a == 100 then 1
    else if a == 119 then b - 48
    else if a == 104 then 6 + b - 48
    else if a == 105 then 13 + b - 48
    else if a == 112 && b == 119 then 23
    else if a == 103 then 24
    else if a == 115 then 25
    else if a == 108 then 26
    else 27
  }

  lemma ClubCodesRank(i: nat)
    requires 1 <= i <= |CLUB_CODES|
    ensures |CLUB_CODES[i - 1]| == 2 && ClubRank(CLUB_CODES[i - 1]) == i
  {
  }

  lemma {:induction false} FindClubFinds(club: nat, i: nat)
    requires 1 <= i <= club <= |CLUB_CODES|
    ensures FindClub(CLUB_CODES[club - 1], i) == club
    decreases club - i
  {
    hide ClubRank;
    ClubCodesRank(i);
    ClubCodesRank(club);
    if i < club {
      assert CiEqual(CLUB_CODES[i - 1], CLUB_CODES[club - 1]) ==> i == club by {
        RankIgnoresCase(CLUB_CODES[i - 1], CLUB_CODES[club - 1]);
      }
      FindClubFinds(club, i + 1);
    }
  }

  lemma RankIgnoresCase(a: seq<Byte>, b: seq<Byte>)
    requires |a| == |b| == 2
    ensures CiEqual(a, b) ==> ClubRank(a) == ClubRank(b)
  {
    if CiEqual(a, b) {
      assert Lower(a[0]) == Lower(b[0]) && Lower(a[1]) == Lower(b[1]);
    }
  }

  /** Every known club is parsed back from its own code, and from no other's. */
  lemma ClubsRoundTrip(club: nat)
    ensures ClubParse(ClubText(club)) == if 1 <= club <= |CLUB_CODES| then club else 0
  {
    if 1 <= club <= |CLUB_CODES| {
      ClubCodesRank(club);
      FindClubFinds(club, 1);
    }
  }

  lemma HandsRoundTrip(handed: nat)
    ensures HandedParse(HandedText(handed)) == if 1 <= handed <= 2 then handed else 0
  {
    assert Lower(Ascii("LH")[0]) != Lower(Ascii("RH")[0]);
  }

  /** The player a reader gets back: what JSON cannot say is gone, what the field cannot hold is cut. */
  function PlayerBack(p: PlayerInfo): PlayerInfo {
    PlayerInfo(
      if 1 <= p.handed <= 2 then p.handed else 0,
      if 1 <= p.club <= |CLUB_CODES| then p.club else 0,
      p.hasDistance,
      if p.hasDistance && p.distance.Finite? then p.distance else ZERO_DOUBLE,
      Field(SURFACE_MAX, CStr(p.surface)))
  }

  function ResponseBack(code: int, message: Option<seq<Byte>>, player: Option<PlayerInfo>): Response {
    Response(
      code,
      message.Some?,
      if message.Some? then Field(RESPONSE_TEXT_MAX, CStr(message.value)) else [],
      player.Some?,
      if player.Some? then PlayerBack(player.value) else NO_PLAYER)
  }

  lemma KeysAreFound()
    ensures Lookup(PLAYER_KEYS, HANDED_NAME) == Some((HandedKey, false))
    ensures Lookup(PLAYER_KEYS, CLUB_NAME) == Some((ClubKey, false))
    ensures Lookup(PLAYER_KEYS, DISTANCE_NAME) == Some((DistanceKey, false))
    ensures Lookup(PLAYER_KEYS, SURFACE_NAME) == Some((SurfaceKey, false))
  {
    assert PLAYER_KEYS[1..] == [PLAYER_KEYS[1], PLAYER_KEYS[2], PLAYER_KEYS[3]];
    assert PLAYER_KEYS[1..][1..] == [PLAYER_KEYS[2], PLAYER_KEYS[3]];
    assert PLAYER_KEYS[1..][1..][1..] == [PLAYER_KEYS[3]];
  }

  lemma ResponseKeysAreFound()
    ensures Lookup(RESPONSE_KEYS, CODE_NAME) == Some((CodeKey, false))
    ensures Lookup(RESPONSE_KEYS, MESSAGE_NAME) == Some((MessageKey, false))
    ensures Lookup(RESPONSE_KEYS, PLAYER_NAME) == Some((PlayerKey, false))
  {
    assert RESPONSE_KEYS[1..] == [RESPONSE_KEYS[1], RESPONSE_KEYS[2]];
    assert RESPONSE_KEYS[1..][1..] == [RESPONSE_KEYS[2]];
  }

  lemma StringInEscaped(s: seq<Byte>, size: nat)
    requires size > 0 && NUL !in s
    ensures StringIn(StringValue(s), size) == Read(Field(size, s), |s| >= size, [])
  {
    EscapeBytesMean(s);
    assert CStr(Field(size, s)) == Field(size, s);
  }

  /** What one member of the player object does. */
  lemma FoldOnePlayer(lib: NumLib, c: bool, name: seq<Byte>, v: Value, id: PlayerField, p: PlayerInfo)
    requires IsName(name) && (c ==> Valid(v) && Acceptable(lib, v)) && Lookup(PLAYER_KEYS, name) == Some((id, false))
    ensures ValidMembers(If(c, Tight(name, v))) && AllAcceptable(lib, If(c, Tight(name, v)))
    ensures FoldPlayer(lib, If(c, Tight(name, v)), p) == if c then PlayerIn(lib, id, v, p) else p
  {
    hide PlayerIn, Lookup, Acceptable;
    if c {
      TightIsValid(name, v);
      assert [Tight(name, v)][1..] == [];
    }
  }

  lemma {:induction false} FoldPlayerConcat(lib: NumLib, a: seq<Member>, b: seq<Member>, p: PlayerInfo)
    requires ValidMembers(a) && ValidMembers(b)
    ensures ValidMembers(a + b)
    ensures FoldPlayer(lib, a + b, p) == FoldPlayer(lib, b, FoldPlayer(lib, a, p))
    ensures AllAcceptable(lib, a) && AllAcceptable(lib, b) ==> AllAcceptable(lib, a + b)
    decreases a
  {
    hide PlayerIn, Lookup, Acceptable, KeyText;
    ValidConcat(a, b);
    if a == [] {
      assert a + b == b;
    } else {
      assert (a + b)[1..] == a[1..] + b;
      match Lookup(PLAYER_KEYS, KeyText(a[0])) {
        case None => FoldPlayerConcat(lib, a[1..], b, p);
        case Some((id, _)) => FoldPlayerConcat(lib, a[1..], b, PlayerIn(lib, id, a[0].value, p));
      }
    }
  }

  lemma TextFits(p: PlayerInfo)
    ensures |HandedText(p.handed)| < CODE_TEXT_MAX && |ClubText(p.club)| < CODE_TEXT_MAX
    ensures NUL !in HandedText(p.handed) && NUL !in ClubText(p.club)
  {
  }

  lemma HandedBack(lib: NumLib, p: PlayerInfo, q: PlayerInfo)
    requires q.handed == 0
    ensures ValidMembers(HandedMember(p)) && AllAcceptable(lib, HandedMember(p))
    ensures FoldPlayer(lib, HandedMember(p), q) == q.(handed := PlayerBack(p).handed)
  {
    hide Lookup, StringIn, StringValue, FoldPlayer;
    var text := HandedText(p.handed);
    NamesAreNames();
    KeysAreFound();
    TextFits(p);
    HandsRoundTrip(p.handed);
    StringInEscaped(text, CODE_TEXT_MAX);
    FoldOnePlayer(lib, text != [], HANDED_NAME, StringValue(text), HandedKey, q);
  }

  lemma ClubBack(lib: NumLib, p: PlayerInfo, q: PlayerInfo)
    requires q.club == 0
    ensures ValidMembers(ClubMember(p)) && AllAcceptable(lib, ClubMember(p))
    ensures FoldPlayer(lib, ClubMember(p), q) == q.(club := PlayerBack(p).club)
  {
    hide Lookup, StringIn, StringValue, FoldPlayer;
    var text := ClubText(p.club);
    NamesAreNames();
    KeysAreFound();
    TextFits(p);
    ClubsRoundTrip(p.club);
    hide ClubParse;
    StringInEscaped(text, CODE_TEXT_MAX);
    FoldOnePlayer(lib, text != [], CLUB_NAME, StringValue(text), ClubKey, q);
    if text == [] {
      NoClub(p.club);
    }
  }

  lemma NoClub(club: nat)
    requires ClubText(club) == []
    ensures !(1 <= club <= |CLUB_CODES|)
  {
    if 1 <= club <= |CLUB_CODES| {
      ClubCodesRank(club);
    }
  }

  lemma DistanceBack(lib: NumLib, p: PlayerInfo, q: PlayerInfo)
    requires Sound(lib) && Representable(lib, p.distance) && !q.hasDistance && q.distance == ZERO_DOUBLE
    ensures ValidMembers(DistanceMember(lib, p)) && AllAcceptable(lib, DistanceMember(lib, p))
    ensures FoldPlayer(lib, DistanceMember(lib, p), q)
         == q.(hasDistance := p.hasDistance, distance := PlayerBack(p).distance)
  {
    hide Lookup, FoldPlayer, FormatDouble;
    NamesAreNames();
    KeysAreFound();
    FormatReadsBack(lib, p.distance);
    FoldOnePlayer(lib, p.hasDistance, DISTANCE_NAME, Number(FormatDouble(lib, p.distance)), DistanceKey, q);
  }

  lemma SurfaceBack(lib: NumLib, p: PlayerInfo, q: PlayerInfo)
    requires q.surface == []
    ensures ValidMembers(SurfaceMember(p)) && AllAcceptable(lib, SurfaceMember(p))
    ensures FoldPlayer(lib, SurfaceMember(p), q) == q.(surface := PlayerBack(p).surface)
  {
    hide Lookup, StringIn, StringValue, FoldPlayer;
    var text := CStr(p.surface);
    NamesAreNames();
    KeysAreFound();
    StringInEscaped(text, SURFACE_MAX);
    FoldOnePlayer(lib, text != [], SURFACE_NAME, StringValue(text), SurfaceKey, q);
  }

  lemma PlayerReadsBack(lib: NumLib, p: PlayerInfo)
    requires Sound(lib) && Representable(lib, p.distance)
    ensures ValidMembers(PlayerMembersOf(lib, p)) && AllAcceptable(lib, PlayerMembersOf(lib, p))
    ensures FoldPlayer(lib, PlayerMembersOf(lib, p), NO_PLAYER) == PlayerBack(p)
  {
    hide FoldPlayer, HandedMember, ClubMember, DistanceMember, SurfaceMember, ValidMembers, AllAcceptable;
    var b := PlayerBack(p);
    var p1 := NO_PLAYER.(handed := b.handed);
    var p2 := p1.(club := b.club);
    var p3 := p2.(hasDistance := p.hasDistance, distance := b.distance);
    HandedBack(lib, p, NO_PLAYER);
    ClubBack(lib, p, p1);
    DistanceBack(lib, p, p2);
    SurfaceBack(lib, p, p3);
    assert p3.(surface := b.surface) == b;
    FoldFour(lib, p, p1, p2, p3, b);
  }

  lemma FoldFour(lib: NumLib, p: PlayerInfo, p1: PlayerInfo, p2: PlayerInfo, p3: PlayerInfo, p4: PlayerInfo)
    requires var h, c, d, s := HandedMember(p), ClubMember(p), DistanceMember(lib, p), SurfaceMember(p);
             && ValidMembers(h) && ValidMembers(c) && ValidMembers(d) && ValidMembers(s)
             && AllAcceptable(lib, h) && AllAcceptable(lib, c) && AllAcceptable(lib, d) && AllAcceptable(lib, s)
             && FoldPlayer(lib, h, NO_PLAYER) == p1 && FoldPlayer(lib, c, p1) == p2
             && FoldPlayer(lib, d, p2) == p3 && FoldPlayer(lib, s, p3) == p4
    ensures ValidMembers(PlayerMembersOf(lib, p)) && AllAcceptable(lib, PlayerMembersOf(lib, p))
    ensures FoldPlayer(lib, PlayerMembersOf(lib, p), NO_PLAYER) == p4
  {
    var h, c, d, s := HandedMember(p), ClubMember(p), DistanceMember(lib, p), SurfaceMember(p);
    hide HandedMember, ClubMember, DistanceMember, SurfaceMember, FoldPlayer, ValidMembers, AllAcceptable;
    FoldPlayerConcat(lib, h, c, NO_PLAYER);
    FoldPlayerConcat(lib, h + c, d, NO_PLAYER);
    FoldPlayerConcat(lib, h + c + d, s, NO_PLAYER);
  }

  lemma FoldOneResponse(lib: NumLib, name: seq<Byte>, v: Value, id: ResponseKey, more: seq<Member>, r: Response)
    requires IsName(name) && Valid(v) && ValidMembers(more) && Lookup(RESPONSE_KEYS, name) == Some((id, false))
    requires if id == PlayerKey && v.Object? then AllAcceptable(lib, v.members) else Acceptable(lib, v)
    ensures ValidMembers([Tight(name, v)] + more)
    ensures AllResponseAcceptable(lib, more) ==> AllResponseAcceptable(lib, [Tight(name, v)] + more)
    ensures FoldResponse(lib, [Tight(name, v)] + more, r) == FoldResponse(lib, more, ResponseIn(lib, id, v, r))
  {
    hide ResponseIn, Lookup, Acceptable, AllAcceptable;
    TightIsValid(name, v);
    assert ([Tight(name, v)] + more)[1..] == more;
  }

  lemma PlayerPartBack(lib: NumLib, player: Option<PlayerInfo>, r: Response)
    requires Sound(lib) && PlayerIsRepresentable(lib, player) && r.player == NO_PLAYER && !r.hasPlayer
    ensures ValidMembers(PlayerMember(lib, player)) && AllResponseAcceptable(lib, PlayerMember(lib, player))
    ensures FoldResponse(lib, PlayerMember(lib, player), r)
         == r.(hasPlayer := player.Some?, player := if player.Some? then PlayerBack(player.value) else NO_PLAYER)
  {
    hide Lookup, FoldPlayer, PlayerBack, PlayerMembersOf;
    if player.Some? {
      NamesAreNames();
      ResponseKeysAreFound();
      PlayerReadsBack(lib, player.value);
      PlayerJsonIsValid(lib, player.value);
      FoldOneResponse(lib, PLAYER_NAME, PlayerJson(lib, player.value), PlayerKey, [], r);
      assert [Tight(PLAYER_NAME, PlayerJson(lib, player.value))] + [] == PlayerMember(lib, player);
    }
  }

  lemma MessagePartBack(lib: NumLib, message: Option<seq<Byte>>, more: seq<Member>, r: Response)
    requires ValidMembers(more) && r.message == [] && !r.hasMessage
    ensures ValidMembers(MessageMember(message) + more)
    ensures AllResponseAcceptable(lib, more) ==> AllResponseAcceptable(lib, MessageMember(message) + more)
    ensures FoldResponse(lib, MessageMember(message) + more, r)
         == FoldResponse(lib, more, r.(hasMessage := message.Some?,
                                       message := if message.Some? then Field(RESPONSE_TEXT_MAX, CStr(message.value)) else []))
  {
    hide Lookup, StringIn, StringValue, FoldResponse, AllResponseAcceptable;
    if message.Some? {
      var text := CStr(message.value);
      NamesAreNames();
      ResponseKeysAreFound();
      StringInEscaped(text, RESPONSE_TEXT_MAX);
      FoldOneResponse(lib, MESSAGE_NAME, StringValue(text), MessageKey, more, r);
    } else {
      assert MessageMember(message) + more == more;
    }
  }

  lemma CodeBack(lib: NumLib, code: int)
    requires Sound(lib) && CodeIsOurs(code)
    ensures Readable(lib, Decimal3(code))
    ensures ResponseIn(lib, CodeKey, Number(Decimal3(code)), NO_RESPONSE) == NO_RESPONSE.(code := code)
  {
    assert lib.strtod(Decimal3(code)) == Parsed(Finite(code as real), 3);
    assert Trunc(code as real) == code;
  }

  /**
   * Whatever reply is encoded, decoding it succeeds and gives back the code, the message and the
   * known player members, strings cut to 95 and 15 octets.
   */
  lemma ResponseRoundTrip(lib: NumLib, code: int, message: Option<seq<Byte>>, player: Option<PlayerInfo>)
    requires CodeIsOurs(code) && Sound(lib) && PlayerIsRepresentable(lib, player)
    ensures DecodeResponse(lib, ResponseText(lib, code, message, player)) == Some(ResponseBack(code, message, player))
  {
    hide Lookup, FoldResponse, AllResponseAcceptable, ResponseIn, PlayerBack, Field, CStr, StringValue, Sound,
         PlayerJson, ResponseText, Print, DecodeResponse, Decimal3, ValidMembers, Readable;
    var ms := ResponseMembersOf(lib, code, message, player);
    var v := ResponseJson(lib, code, message, player);
    var pm := PlayerMember(lib, player);
    var more := MessageMember(message) + pm;
    assert ms == [Tight(CODE_NAME, Number(Decimal3(code)))] + more;
    var r1 := NO_RESPONSE.(code := code);
    var r2 := r1.(hasMessage := message.Some?,
                  message := if message.Some? then Field(RESPONSE_TEXT_MAX, CStr(message.value)) else []);
    NamesAreNames();
    ResponseKeysAreFound();
    CodeBack(lib, code);
    PlayerPartBack(lib, player, r2);
    MessagePartBack(lib, message, pm, r1);
    FoldOneResponse(lib, CODE_NAME, Number(Decimal3(code)), CodeKey, more, NO_RESPONSE);
    ResponseJsonIsValid(lib, code, message, player);
    ResponseTextIsJson(lib, code, message, player);
    ResponsePrinted(lib, [], v, []);
    assert [] + (Print(v) + []) == Print(v);
  }

  /** The encoding is read back unchanged exactly when nothing in it had to be cut or left out. */
  lemma ResponseRoundTripExact(lib: NumLib, code: int, message: Option<seq<Byte>>, player: Option<PlayerInfo>)
    requires CodeIsOurs(code) && Sound(lib) && PlayerIsRepresentable(lib, player)
    requires message.Some? ==> NUL !in message.value
    ensures DecodeResponse(lib, ResponseText(lib, code, message, player))
         == Some(Response(code, message.Some?, if message.Some? then message.value else [],
                          player.Some?, if player.Some? then player.value else NO_PLAYER))
       <==> && (message.Some? ==> |message.value| < RESPONSE_TEXT_MAX)
            && (player.Some? ==>
                  && player.value.handed <= 2 && player.value.club <= |CLUB_CODES|
                  && player.value.distance == (if player.value.hasDistance && player.value.distance.Finite?
                                               then player.value.distance else ZERO_DOUBLE)
                  && NUL !in player.value.surface && |player.value.surface| < SURFACE_MAX)
  {
    hide DecodeResponse, ResponseText, Sound;
    ResponseRoundTrip(lib, code, message, player);
    if player.Some? {
      var s := player.value.surface;
      assert Field(SURFACE_MAX, CStr(s)) == s <==> NUL !in s && |s| < SURFACE_MAX;
    }
  }

  /** A reply is one whole object to the framer, so replies written back to back are cut apart again. */
  lemma ResponseIsObject(lib: NumLib, code: int, message: Option<seq<Byte>>, player: Option<PlayerInfo>)
    requires CodeIsOurs(code) && Sound(lib) && PlayerIsRepresentable(lib, player)
    ensures Frame.IsObject(ResponseText(lib, code, message, player))
  {
    hide Sound, Print, Frame.IsObject, StringValue, Decimal3;
    var v := ResponseJson(lib, code, message, player);
    ResponseJsonIsValid(lib, code, message, player);
    ResponseTextIsJson(lib, code, message, player);
    ResponseHeight(lib, code, message, player);
    FrameJson.PrintedObject(v);
  }

  datatype Reply = Reply(code: int, message: Option<seq<Byte>>, player: Option<PlayerInfo>)

  predicate Encodable(lib: NumLib, r: Reply) {
    CodeIsOurs(r.code) && PlayerIsRepresentable(lib, r.player)
  }

  function ReplyText(lib: NumLib, r: Reply): seq<Byte>
    requires CodeIsOurs(r.code)
  {
    ResponseText(lib, r.code, r.message, r.player)
  }

  function ReplyTexts(lib: NumLib, rs: seq<Reply>): (r: seq<seq<Byte>>)
    requires forall i :: 0 <= i < |rs| ==> Encodable(lib, rs[i])
    ensures |r| == |rs|
  {
    seq(|rs|, i requires 0 <= i < |rs| => assert Encodable(lib, rs[i]); ReplyText(lib, rs[i]))
  }

  /**
   * Replies written one after the other, whatever whitespace is between them and whatever braces,
   * quotes or backslashes their strings carry, are found again one by one, and no beginning of one
   * is ever taken for the whole.
   */
  lemma RepliesAreCut(lib: NumLib, gaps: seq<seq<Byte>>, rs: seq<Reply>)
    requires Sound(lib) && (forall i :: 0 <= i < |rs| ==> Encodable(lib, rs[i]))
    requires |gaps| == |rs| + 1 && Frame.AllGaps(gaps)
    ensures Frame.FindAll(Frame.Weave(gaps, ReplyTexts(lib, rs))) == ReplyTexts(lib, rs)
    ensures forall i, k :: 0 <= i < |rs| && 0 <= k < |ReplyTexts(lib, rs)[i]| ==>
              Frame.Find(ReplyTexts(lib, rs)[i][..k]).Pending?
  {
    hide Sound, ResponseText, Frame.IsObject, Frame.Find, Frame.Weave, Frame.CutBytes;
    var texts := ReplyTexts(lib, rs);
    forall i | 0 <= i < |rs|
      ensures Frame.IsObject(texts[i])
    {
      assert Encodable(lib, rs[i]);
      ResponseIsObject(lib, rs[i].code, rs[i].message, rs[i].player);
    }
    forall i, k | 0 <= i < |rs| && 0 <= k < |texts[i]|
      ensures Frame.Find(texts[i][..k]).Pending?
    {
      Frame.ObjectPrefixPending(texts[i], k);
    }
    assert Frame.AllObjects(texts);
    Frame.WeaveIsCut([], gaps, texts);
    Frame.FindAllIsCut(Frame.Weave(gaps, texts));
    assert [] + texts == texts;
  }

  lemma {:induction false} HeightConcat(a: seq<Member>, b: seq<Member>)
    ensures MembersHeight(a + b) == Max(MembersHeight(a), MembersHeight(b))
    decreases a
  {
    if a == [] {
      assert a + b == b;
    } else {
      assert (a + b)[1..] == a[1..] + b;
      HeightConcat(a[1..], b);
    }
  }

  lemma HeightOne(m: Member)
    ensures MembersHeight([m]) == Height(m.value)
  {
    assert [m][1..] == [];
  }

  lemma PlayerHeight(lib: NumLib, p: PlayerInfo)
    ensures Height(PlayerJson(lib, p)) == 1
  {
    var h, c, d, s := HandedMember(p), ClubMember(p), DistanceMember(lib, p), SurfaceMember(p);
    hide FormatDouble, CStr, HandedText, ClubText, EscapeBytes, PlainItems;
    assert MembersHeight(h) == MembersHeight(c) == MembersHeight(d) == MembersHeight(s) == 0 by {
      HeightOne(Tight(HANDED_NAME, StringValue(HandedText(p.handed))));
      HeightOne(Tight(CLUB_NAME, StringValue(ClubText(p.club))));
      HeightOne(Tight(DISTANCE_NAME, Number(FormatDouble(lib, p.distance))));
      HeightOne(Tight(SURFACE_NAME, StringValue(CStr(p.surface))));
    }
    hide HandedMember, ClubMember, DistanceMember, SurfaceMember, MembersHeight;
    HeightConcat(h, c);
    HeightConcat(h + c, d);
    HeightConcat(h + c + d, s);
  }

  lemma ResponseHeight(lib: NumLib, code: int, message: Option<seq<Byte>>, player: Option<PlayerInfo>)
    requires CodeIsOurs(code)
    ensures Height(ResponseJson(lib, code, message, player)) <= 2
  {
    var c, m, p := CodeMember(code), MessageMember(message), PlayerMember(lib, player);
    hide Decimal3, EscapeBytes, PlainItems, CStr, PlayerJson, MembersHeight;
    HeightOne(c[0]);
    if message.Some? {
      HeightOne(m[0]);
    }
    if player.Some? {
      HeightOne(p[0]);
      PlayerHeight(lib, player.value);
    }
    assert MembersHeight([]) == 0 by {
      NoHeight();
    }
    HeightConcat(c, m);
    HeightConcat(c + m, p);
  }

  lemma NoHeight()
    ensures MembersHeight([]) == 0
  {
  }
}
