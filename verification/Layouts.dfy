/** How what is written looks, octet by octet: a response, a record, and what stands in place of a device id. */
module Layouts {
  import opened Bytes
  import opened Json
  import opened Numbers
  import opened Message
  import opened Protocol
  import opened Encode
  import opened Text
  import Record
  import RedactJson

  // --------------------------------------------------------------------------------------
  // A string
  // --------------------------------------------------------------------------------------

  /** The escapes of one letter (RFC 8259, section 7), but for the solidus, which needs none. */
  const SHORT_ESCAPES: map<Byte, char> := map[8 := 'b', 9 := 't', 10 := 'n', 12 := 'f', 13 := 'r', 34 := '\"', 92 := '\\']

  const HEX_DIGITS: string := "0123456789abcdef"

  /** How an octet is written: by its letter, by its number if it is a control, or as it is. */
  lemma EscapeSpelled(c: Byte)
    ensures PrintItem(EscapeByte(c))
         == if c in SHORT_ESCAPES then [92, SHORT_ESCAPES[c] as int]
            else if c < 32 then Ascii("\\u00") + [HEX_DIGITS[c / 16] as int, HEX_DIGITS[c % 16] as int]
            else [c]
  {
    hide HexDigit;
    assert Ascii("\\u00") == [92, 117, 48, 48];
    hide Ascii;
    DigitSpelled(c / 16);
    DigitSpelled(c % 16);
  }

  lemma DigitSpelled(d: nat)
    requires d < 16
    ensures HexDigit(d) == HEX_DIGITS[d] as int
  {
  }

  /** And what an escape of one letter is read as: the same letters, and the solidus; no others. */
  lemma EscapeRead(letter: Byte)
    ensures Unescape(letter).Some? <==> letter == 47 || exists c :: c in SHORT_ESCAPES && SHORT_ESCAPES[c] as int == letter
    ensures Unescape(letter).Some? && letter != 47 ==>
              Unescape(letter).value in SHORT_ESCAPES && SHORT_ESCAPES[Unescape(letter).value] as int == letter
    ensures Unescape(47) == Some(47)
  {
  }

  // --------------------------------------------------------------------------------------
  // A response
  // --------------------------------------------------------------------------------------

  /** Texts with commas between them. */
  function WithCommas(parts: seq<seq<Byte>>): seq<Byte> {
    if parts == [] then [] else if |parts| == 1 then parts[0] else WithCommas(parts[..|parts| - 1]) + [COMMA] + parts[|parts| - 1]
  }

  /** A string between its quotes, escaped. */
  function Quoted(s: seq<Byte>): seq<Byte> {
    [QUOTE] + PrintItems(EscapeBytes(s)) + [QUOTE]
  }

  /** A member: its name in quotes, a colon, its value. */
  function Member(name: string, value: seq<Byte>): seq<Byte> {
    [QUOTE] + Ascii(name) + [QUOTE, COLON] + value
  }

  /** The members of a player that say anything, in the order they are sent. */
  function PlayerParts(lib: NumLib, p: PlayerInfo): seq<seq<Byte>> {
    (if HandedText(p.handed) != [] then [Member("Handed", Quoted(HandedText(p.handed)))] else [])
    + (if ClubText(p.club) != [] then [Member("Club", Quoted(ClubText(p.club)))] else [])
    + (if p.hasDistance then [Member("DistanceToTarget", FormatDouble(lib, p.distance))] else [])
    + (if CStr(p.surface) != [] then [Member("Surface", Quoted(CStr(p.surface)))] else [])
  }

  /** The members of a response, in the order they are sent. */
  function ResponseParts(lib: NumLib, code: int, message: Option<seq<Byte>>, player: Option<PlayerInfo>): seq<seq<Byte>>
    requires CodeIsOurs(code)
  {
    [Member("Code", [48 + code / 100, 48 + code / 10 % 10, 48 + code % 10])]
    + (if message.Some? then [Member("Message", Quoted(CStr(message.value)))] else [])
    + (if player.Some? then [Member("Player", [LBRACE] + WithCommas(PlayerParts(lib, player.value)) + [RBRACE])] else [])
  }

  lemma NameSpelled(name: string, first: bool, value: seq<Byte>)
    ensures NameText(Ascii(name), first) + value == (if first then [] else [COMMA]) + Member(name, value)
  {
    hide Ascii;
  }

  /** One part more. */
  lemma CommaBefore(parts: seq<seq<Byte>>, part: seq<Byte>)
    ensures WithCommas(parts + [part]) == WithCommas(parts) + (if parts == [] then [] else [COMMA]) + part
  {
    assert (parts + [part])[..|parts|] == parts;
    if parts == [] {
      assert parts + [part] == [part];
    }
  }

  /** Written so far: the parts with commas between them, and nothing exactly if there is none. */
  predicate Spells(text: seq<Byte>, parts: seq<seq<Byte>>) {
    text == WithCommas(parts) && (text == [] <==> parts == [])
  }

  /** Another member, or none, written behind those there are. */
  lemma MemberBehind(text: seq<Byte>, parts: seq<seq<Byte>>, written: bool, name: string, value: seq<Byte>)
    requires Spells(text, parts)
    ensures Spells(text + (if written then NameText(Ascii(name), text == []) + value else []),
                   parts + if written then [Member(name, value)] else [])
  {
    hide WithCommas, Ascii;
    if written {
      CommaBefore(parts, Member(name, value));
      NameSpelled(name, text == [], value);
      assert text + (NameText(Ascii(name), text == []) + value) == text + (if text == [] then [] else [COMMA]) + Member(name, value);
    } else {
      assert text + [] == text && parts + [] == parts;
    }
  }

  /** A player as it is spelled: an object of what it says, hand before club before distance before surface. */
  lemma PlayerSpelled(lib: NumLib, p: PlayerInfo)
    ensures PlayerText(lib, p) == [LBRACE] + WithCommas(PlayerParts(lib, p)) + [RBRACE]
  {
    hide WithCommas, Ascii, EscapeBytes, PrintItems, CStr, FormatDouble, HandedText, ClubText, Member;
    var h := if HandedText(p.handed) != [] then [Member("Handed", Quoted(HandedText(p.handed)))] else [];
    var c := if ClubText(p.club) != [] then [Member("Club", Quoted(ClubText(p.club)))] else [];
    var d := if p.hasDistance then [Member("DistanceToTarget", FormatDouble(lib, p.distance))] else [];
    assert WithCommas([]) == [] by { NoParts(); }
    MemberBehind([], [], HandedText(p.handed) != [], "Handed", Quoted(HandedText(p.handed)));
    assert [] + HandedPart(p) == HandedPart(p) && [] + h == h;
    MemberBehind(HandedPart(p), h, ClubText(p.club) != [], "Club", Quoted(ClubText(p.club)));
    MemberBehind(HandedPart(p) + ClubPart(p), h + c, p.hasDistance, "DistanceToTarget", FormatDouble(lib, p.distance));
    MemberBehind(HandedPart(p) + ClubPart(p) + DistancePart(lib, p), h + c + d, CStr(p.surface) != [], "Surface", Quoted(CStr(p.surface)));
    Grouped(HandedPart(p), ClubPart(p), DistancePart(lib, p), SurfacePart(lib, p));
  }

  lemma NoParts()
    ensures WithCommas([]) == []
  {
  }

  lemma Grouped(a: seq<Byte>, b: seq<Byte>, c: seq<Byte>, d: seq<Byte>)
    ensures [LBRACE] + a + b + c + d + [RBRACE] == [LBRACE] + (a + b + c + d) + [RBRACE]
  {
  }

  /** A response as it is spelled: code, then message, then player, with nothing between but commas. */
  lemma ResponseSpelled(lib: NumLib, code: int, message: Option<seq<Byte>>, player: Option<PlayerInfo>)
    requires CodeIsOurs(code)
    ensures ResponseText(lib, code, message, player) == [LBRACE] + WithCommas(ResponseParts(lib, code, message, player)) + [RBRACE]
  {
    hide WithCommas, Ascii, CStr, PlayerText, Member, Spells, MessagePart, PlayerPart, NameText, Quoted;
    var digits := [48 + code / 100, 48 + code / 10 % 10, 48 + code % 10];
    var c := [Member("Code", digits)];
    var m := if message.Some? then [Member("Message", Quoted(CStr(message.value)))] else [];
    var first := NameText(CODE_NAME, true) + digits;
    CodeBegins(digits);
    MessageBehind(first, c, message);
    PlayerBehind(lib, first + MessagePart(message), c + m, player);
    SpelledOut(first + MessagePart(message) + PlayerPart(lib, player), ResponseParts(lib, code, message, player));
    Grouped(NameText(CODE_NAME, true), digits, MessagePart(message), PlayerPart(lib, player));
  }

  lemma SpelledOut(text: seq<Byte>, parts: seq<seq<Byte>>)
    requires Spells(text, parts)
    ensures text == WithCommas(parts)
  {
  }

  lemma CodeBegins(digits: seq<Byte>)
    ensures Spells(NameText(CODE_NAME, true) + digits, [Member("Code", digits)])
  {
    hide Ascii, NameText, Member;
    NoParts();
    MemberBehind([], [], true, "Code", digits);
    assert [] + (NameText(Ascii("Code"), true) + digits) == NameText(CODE_NAME, true) + digits;
    assert [] + [Member("Code", digits)] == [Member("Code", digits)];
  }

  lemma NotEmpty(text: seq<Byte>, parts: seq<seq<Byte>>)
    requires Spells(text, parts) && parts != []
    ensures text != []
  {
  }

  lemma MessageBehind(text: seq<Byte>, parts: seq<seq<Byte>>, message: Option<seq<Byte>>)
    requires Spells(text, parts) && parts != []
    ensures Spells(text + MessagePart(message),
                   parts + if message.Some? then [Member("Message", Quoted(CStr(message.value)))] else [])
  {
    hide Ascii, NameText, Member, Spells, CStr, EscapeBytes, PrintItems;
    NotEmpty(text, parts);
    if message.Some? {
      MemberBehind(text, parts, true, "Message", Quoted(CStr(message.value)));
    } else {
      assert text + [] == text && parts + [] == parts;
    }
  }

  lemma PlayerBehind(lib: NumLib, text: seq<Byte>, parts: seq<seq<Byte>>, player: Option<PlayerInfo>)
    requires Spells(text, parts) && parts != []
    ensures Spells(text + PlayerPart(lib, player),
                   parts + if player.Some? then [Member("Player", [LBRACE] + WithCommas(PlayerParts(lib, player.value)) + [RBRACE])] else [])
  {
    hide Ascii, NameText, Member, Spells, PlayerText, PlayerParts, WithCommas;
    NotEmpty(text, parts);
    if player.Some? {
      PlayerSpelled(lib, player.value);
      MemberBehind(text, parts, true, "Player", PlayerText(lib, player.value));
    } else {
      assert text + [] == text && parts + [] == parts;
    }
  }

  // --------------------------------------------------------------------------------------
  // A record
  // --------------------------------------------------------------------------------------

  /** Four octets, least significant first. */
  function Four(v: nat): seq<Byte> {
    [v % 256, v / 256 % 256, v / 65536 % 256, v / 16777216 % 256]
  }

  lemma Thousands(v: nat)
    ensures v / 256 / 256 == v / 65536 && v / 65536 / 256 == v / 16777216 && v / 16777216 / 256 == v / 0x1_0000_0000
  {
  }

  lemma FourIsLe(v: nat)
    ensures Record.Le(4, v) == Four(v)
  {
    Thousands(v);
    assert Record.Le(4, v) == [v % 256] + Record.Le(3, v / 256);
    assert Record.Le(3, v / 256) == [v / 256 % 256] + Record.Le(2, v / 65536);
    assert Record.Le(2, v / 65536) == [v / 65536 % 256] + Record.Le(1, v / 16777216);
    assert Record.Le(1, v / 16777216) == [v / 16777216 % 256] + Record.Le(0, v / 16777216 / 256);
  }

  lemma EightIsLe(v: nat)
    requires v < 0x1_0000_0000_0000_0000
    ensures Record.Le(8, v) == Four(v % 0x1_0000_0000) + Four(v / 0x1_0000_0000)
  {
    Thousands(v);
    FourIsLe(v / 0x1_0000_0000);
    FourIsLe(v % 0x1_0000_0000);
    LowOctets(v);
    assert Record.Le(8, v) == [v % 256] + Record.Le(7, v / 256);
    assert Record.Le(7, v / 256) == [v / 256 % 256] + Record.Le(6, v / 65536);
    assert Record.Le(6, v / 65536) == [v / 65536 % 256] + Record.Le(5, v / 16777216);
    assert Record.Le(5, v / 16777216) == [v / 16777216 % 256] + Record.Le(4, v / 0x1_0000_0000);
  }

  /** Whole multiples of 256 do not show in the low octet. */
  lemma LowOctet(a: nat, x: nat)
    ensures (256 * a + x) % 256 == x % 256
  {
  }

  lemma LowOctets(v: nat)
    ensures Four(v % 0x1_0000_0000) == Four(v)
  {
    hide Four;
    var q, r := v / 0x1_0000_0000, v % 0x1_0000_0000;
    LowOctet(q * 16777216, r);
    LowOctet(q * 65536, r / 256);
    LowOctet(q * 256, r / 65536);
    LowOctet(q, r / 16777216);
    OctetsOf(q, r);
    FourSame(q, r);
  }

  lemma OctetsOf(q: nat, r: nat)
    ensures (0x1_0000_0000 * q + r) / 256 == 256 * (q * 65536) + r / 256
    ensures (0x1_0000_0000 * q + r) / 65536 == 256 * (q * 256) + r / 65536
    ensures (0x1_0000_0000 * q + r) / 16777216 == 256 * q + r / 16777216
  {
  }

  lemma FourSame(q: nat, r: nat)
    requires (256 * (q * 16777216) + r) % 256 == r % 256 && (256 * (q * 65536) + r / 256) % 256 == r / 256 % 256
    requires (256 * (q * 256) + r / 65536) % 256 == r / 65536 % 256 && (256 * q + r / 16777216) % 256 == r / 16777216 % 256
    requires (0x1_0000_0000 * q + r) / 256 == 256 * (q * 65536) + r / 256
    requires (0x1_0000_0000 * q + r) / 65536 == 256 * (q * 256) + r / 65536
    requires (0x1_0000_0000 * q + r) / 16777216 == 256 * q + r / 16777216
    ensures Four(0x1_0000_0000 * q + r) == Four(r)
  {
  }

  /**
   * A record as it stands in a file: length, direction, flags, two octets of nothing, sequence,
   * connection and time, all least significant octet first, and then the bytes.
   */
  lemma RecordSpelled(r: Record.Record)
    requires Record.Fits(r)
    ensures var time: nat := if r.at < 0 then r.at + 0x1_0000_0000_0000_0000 else r.at;
            Record.Encode(r) == Four(|r.data|) + [r.direction, r.flags, 0, 0] + Four(r.sequence) + Four(r.conn)
                                + Four(time % 0x1_0000_0000) + Four(time / 0x1_0000_0000) + r.data
  {
    hide Record.Le, Four;
    FourIsLe(|r.data|);
    FourIsLe(r.sequence);
    FourIsLe(r.conn);
    EightIsLe(Record.Unsigned(r.at));
    Record.NoOctets();
  }

  // --------------------------------------------------------------------------------------
  // What stands in place of a device id
  // --------------------------------------------------------------------------------------

  /** The word, over and over, as far as it goes. */
  lemma MaskSpelled(n: nat, k: nat)
    requires k < n
    ensures RedactJson.MaskText(n)[k] == ("<redacted>")[k % 10] as int
  {
    assert |Ascii("<redacted>")| == 10;
  }
}
