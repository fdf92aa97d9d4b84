/** `gsp_response_encode`: a counting writer run twice, first to measure and then to store. */
module Encode {
  import opened Bytes
  import opened Json
  import opened Text
  import opened Numbers
  import opened Message
  import opened Protocol

  // --------------------------------------------------------------------------------------
  // What is written
  // --------------------------------------------------------------------------------------

  function EscapeByte(c: Byte): (it: Item)
    ensures ValidItem(it)
  {
    if c == QUOTE || c == BACKSLASH then Escape(c)
    else if c == LF then Escape(LOWER_N)
    else if c == CR then Escape(LOWER_R)
    else if c == TAB then Escape(LOWER_T)
    else if c == BACKSPACE then Escape(LOWER_B)
    else if c == FF then Escape(LOWER_F)
    else if c < 0x20 then Unicode([ZERO, ZERO, HexDigit(c / 16), HexDigit(c % 16)])
    else Plain(c)
  }

  function EscapeBytes(s: seq<Byte>): (items: seq<Item>)
    ensures ValidItems(items) && |items| == |s|
  {
    if s == [] then [] else [EscapeByte(s[0])] + EscapeBytes(s[1..])
  }

  /** A string literal, quotes included. */
  function StringText(s: seq<Byte>): seq<Byte> {
    PrintString(EscapeBytes(s))
  }

  /** `"name":`, with a comma before it unless it is the first member. */
  function NameText(name: seq<Byte>, first: bool): seq<Byte> {
    (if first then [] else [COMMA]) + [QUOTE] + name + [QUOTE, COLON]
  }

  const HANDED_NAME: seq<Byte> := Ascii("Handed")
  const CLUB_NAME: seq<Byte> := Ascii("Club")
  const DISTANCE_NAME: seq<Byte> := Ascii("DistanceToTarget")
  const SURFACE_NAME: seq<Byte> := Ascii("Surface")
  const CODE_NAME: seq<Byte> := Ascii("Code")
  const MESSAGE_NAME: seq<Byte> := Ascii("Message")
  const PLAYER_NAME: seq<Byte> := Ascii("Player")

  function HandedPart(p: PlayerInfo): seq<Byte> {
    if HandedText(p.handed) == [] then [] else NameText(HANDED_NAME, true) + StringText(HandedText(p.handed))
  }

  function ClubPart(p: PlayerInfo): seq<Byte> {
    if ClubText(p.club) == [] then []
    else NameText(CLUB_NAME, HandedPart(p) == []) + StringText(ClubText(p.club))
  }

  function DistancePart(lib: NumLib, p: PlayerInfo): seq<Byte> {
    if !p.hasDistance then []
    else NameText(DISTANCE_NAME, HandedPart(p) + ClubPart(p) == []) + FormatDouble(lib, p.distance)
  }

  function SurfacePart(lib: NumLib, p: PlayerInfo): seq<Byte> {
    if CStr(p.surface) == [] then []
    else NameText(SURFACE_NAME, HandedPart(p) + ClubPart(p) + DistancePart(lib, p) == [])
         + StringText(CStr(p.surface))
  }

  function PlayerText(lib: NumLib, p: PlayerInfo): seq<Byte> {
    [LBRACE] + HandedPart(p) + ClubPart(p) + DistancePart(lib, p) + SurfacePart(lib, p) + [RBRACE]
  }

  function MessagePart(message: Option<seq<Byte>>): seq<Byte> {
    if message.Some? then NameText(MESSAGE_NAME, false) + StringText(CStr(message.value)) else []
  }

  function PlayerPart(lib: NumLib, player: Option<PlayerInfo>): seq<Byte> {
    if player.Some? then NameText(PLAYER_NAME, false) + PlayerText(lib, player.value) else []
  }

  function ResponseText(lib: NumLib, code: int, message: Option<seq<Byte>>, player: Option<PlayerInfo>): seq<Byte>
    requires CodeIsOurs(code)
  {
    [LBRACE] + NameText(CODE_NAME, true) + Decimal3(code) + MessagePart(message) + PlayerPart(lib, player) + [RBRACE]
  }

  // --------------------------------------------------------------------------------------
  // The writer
  // --------------------------------------------------------------------------------------

  /**
   * `used` is what a complete write takes; with no buffer the writer only measures. `text` is
   * what has been written so far, whether or not it was stored.
   */
  class Out {
    const buf: array?<Byte>
    const size: nat
    var used: nat
    ghost var text: seq<Byte>
    ghost const was: seq<Byte>

    /** What was written is stored as far as it fits, and nothing behind it has been touched. */
    ghost predicate Valid()
      reads this, buf
    {
      && used == |text|
      && (buf != null ==>
            && size < buf.Length == |was|
            && (forall k :: used <= k < buf.Length ==> buf[k] == was[k])
            && (if used <= size then buf[..used] == text else buf[..size] == text[..size]))
    }

    constructor (buf: array?<Byte>, size: nat)
      requires buf != null ==> size < buf.Length
      ensures Valid() && text == [] && this.buf == buf && this.size == size
      ensures buf != null ==> was == buf[..]
    {
      was := if buf == null then [] else buf[..];
      this.buf := buf;
      this.size := size;
      used := 0;
      text := [];
    }

    method Char(c: Byte)
      requires Valid()
      modifies this, buf
      ensures Valid() && text == old(text) + [c]
    {
      if buf != null && used < size {
        buf[used] := c;
      }
      used := used + 1;
      text := text + [c];
    }

    method Str(s: seq<Byte>)
      requires Valid()
      modifies this, buf
      ensures Valid() && text == old(text) + s
    {
      for i := 0 to |s|
        invariant Valid() && text == old(text) + s[..i]
      {
        Char(s[i]);
        assert s[..i + 1] == s[..i] + [s[i]];
      }
      assert s[..|s|] == s;
    }

    method Escaped(c: Byte)
      requires Valid() && c != NUL
      modifies this, buf
      ensures Valid() && text == old(text) + PrintItem(EscapeByte(c))
    {
      hide Valid;
      if c == QUOTE || c == BACKSLASH {
        Char(BACKSLASH);
        Char(c);
      } else if c == LF {
        Str([BACKSLASH, LOWER_N]);
      } else if c == CR {
        Str([BACKSLASH, LOWER_R]);
      } else if c == TAB {
        Str([BACKSLASH, LOWER_T]);
      } else if c == BACKSPACE {
        Str([BACKSLASH, LOWER_B]);
      } else if c == FF {
        Str([BACKSLASH, LOWER_F]);
      } else if c < 0x20 {
        Str([BACKSLASH, LOWER_U, ZERO, ZERO]);
        Char(HexDigit(c / 16));
        Char(HexDigit(c % 16));
        assert [BACKSLASH, LOWER_U, ZERO, ZERO] + [HexDigit(c / 16)] + [HexDigit(c % 16)]
            == PrintItem(EscapeByte(c));
      } else {
        Char(c);
      }
    }

    /** A JSON string literal of the C string in `s`. */
    method JsonString(s: seq<Byte>)
      requires Valid()
      modifies this, buf
      ensures Valid() && text == old(text) + StringText(CStr(s))
    {
      hide Valid, EscapeByte, PrintItem, PrintItems, EscapeBytes, CStr;
      Char(QUOTE);
      var i := 0;
      assert s[0..] == s;
      while i < |s| && s[i] != NUL
        invariant 0 <= i <= |s|
        invariant Valid()
        invariant text + PrintItems(EscapeBytes(CStr(s[i..])))
               == old(text) + [QUOTE] + PrintItems(EscapeBytes(CStr(s)))
      {
        EscapedStep(s, i);
        ghost var before, rest := text, PrintItems(EscapeBytes(CStr(s[i + 1..])));
        Escaped(s[i]);
        assert before + (PrintItem(EscapeByte(s[i])) + rest) == before + PrintItem(EscapeByte(s[i])) + rest;
        i := i + 1;
      }
      EscapedEnd(s[i..]);
      assert text + [] == text;
      Char(QUOTE);
      assert old(text) + [QUOTE] + PrintItems(EscapeBytes(CStr(s))) + [QUOTE]
          == old(text) + ([QUOTE] + PrintItems(EscapeBytes(CStr(s))) + [QUOTE]);
    }

    method Double(lib: NumLib, d: Double)
      requires Valid()
      modifies this, buf
      ensures Valid() && text == old(text) + FormatDouble(lib, d)
    {
      if !d.Finite? {
        Char(ZERO);
        return;
      }
      for p := 15 to 17
        invariant Valid() && text == old(text) && unchanged(this)
        invariant buf != null ==> unchanged(buf)
        invariant p > 15 ==> lib.strtod(lib.printg(15, d.v)).value != d
        invariant p > 16 ==> lib.strtod(lib.printg(16, d.v)).value != d
      {
        if lib.strtod(lib.printg(p, d.v)).value == d {
          Str(lib.printg(p, d.v));
          return;
        }
      }
      Str(lib.printg(17, d.v));
    }

    method Name(name: seq<Byte>, first: bool)
      requires Valid()
      modifies this, buf
      ensures Valid() && text == old(text) + NameText(name, first)
    {
      if !first {
        Char(COMMA);
      }
      Str([QUOTE] + name + [QUOTE, COLON]);
    }

    method Player(lib: NumLib, p: PlayerInfo)
      requires Valid()
      modifies this, buf
      ensures Valid() && text == old(text) + PlayerText(lib, p)
    {
      hide Valid, HandedPart, ClubPart, DistancePart, SurfacePart;
      Char(LBRACE);
      var first := HandedAndClub(p);
      DistanceAndSurface(lib, p, first);
      Char(RBRACE);
    }

    method HandedAndClub(p: PlayerInfo) returns (first: bool)
      requires Valid()
      modifies this, buf
      ensures Valid() && text == old(text) + HandedPart(p) + ClubPart(p)
      ensures first == (HandedPart(p) + ClubPart(p) == [])
    {
      hide Valid, NameText, StringText, CStr;
      NameTextIsSomething();
      TextsHaveNoNul(p);
      var handed, club := HandedText(p.handed), ClubText(p.club);
      hide HandedText, ClubText;
      first := true;
      if handed != [] {
        Name(HANDED_NAME, true);
        JsonString(handed);
        first := false;
      }
      if club != [] {
        Name(CLUB_NAME, first);
        JsonString(club);
        first := false;
      }
    }

    method DistanceAndSurface(lib: NumLib, p: PlayerInfo, first: bool)
      requires Valid() && first == (HandedPart(p) + ClubPart(p) == [])
      modifies this, buf
      ensures Valid() && text == old(text) + DistancePart(lib, p) + SurfacePart(lib, p)
    {
      hide Valid, NameText, StringText, FormatDouble, HandedPart, ClubPart;
      var nothing := first;
      NameTextIsSomething();
      if p.hasDistance {
        Name(DISTANCE_NAME, nothing);
        Double(lib, p.distance);
        nothing := false;
      }
      assert nothing == (HandedPart(p) + ClubPart(p) + DistancePart(lib, p) == []);
      if p.surface != [] && p.surface[0] != NUL {
        Name(SURFACE_NAME, nothing);
        JsonString(p.surface);
      }
    }

    method MessageMember(message: Option<seq<Byte>>)
      requires Valid()
      modifies this, buf
      ensures Valid() && text == old(text) + MessagePart(message)
    {
      hide Valid, NameText, StringText, CStr;
      if message.Some? {
        Name(MESSAGE_NAME, false);
        JsonString(message.value);
      }
    }

    method PlayerMember(lib: NumLib, player: Option<PlayerInfo>)
      requires Valid()
      modifies this, buf
      ensures Valid() && text == old(text) + PlayerPart(lib, player)
    {
      hide Valid, NameText, PlayerText;
      if player.Some? {
        Name(PLAYER_NAME, false);
        Player(lib, player.value);
      }
    }

    method Response(lib: NumLib, code: int, message: Option<seq<Byte>>, player: Option<PlayerInfo>)
      requires Valid() && CodeIsOurs(code)
      modifies this, buf
      ensures Valid() && text == old(text) + ResponseText(lib, code, message, player)
    {
      hide Valid, NameText, MessagePart, PlayerPart;
      Str([LBRACE]);
      Name(CODE_NAME, true);
      Str(Decimal3(code));
      MessageMember(message);
      PlayerMember(lib, player);
      Char(RBRACE);
    }
  }

  lemma EscapedStep(s: seq<Byte>, i: nat)
    requires i < |s| && s[i] != NUL
    ensures PrintItems(EscapeBytes(CStr(s[i..])))
         == PrintItem(EscapeByte(s[i])) + PrintItems(EscapeBytes(CStr(s[i + 1..])))
  {
    hide EscapeByte, PrintItem;
    var rest := CStr(s[i..]);
    assert s[i..][1..] == s[i + 1..];
    assert rest == [s[i]] + CStr(s[i + 1..]);
    assert rest[1..] == CStr(s[i + 1..]);
    assert EscapeBytes(rest)[0] == EscapeByte(s[i]) && EscapeBytes(rest)[1..] == EscapeBytes(rest[1..]);
  }

  lemma EscapedEnd(s: seq<Byte>)
    requires s == [] || s[0] == NUL
    ensures PrintItems(EscapeBytes(CStr(s))) == []
  {
  }

  lemma NameTextIsSomething()
    ensures forall name, first :: NameText(name, first) != []
  {
  }

  lemma TextsHaveNoNul(p: PlayerInfo)
    ensures CStr(HandedText(p.handed)) == HandedText(p.handed)
    ensures CStr(ClubText(p.club)) == ClubText(p.club)
  {
  }

  /** The measuring pass: how much a response takes. */
  method Measure(lib: NumLib, code: int, message: Option<seq<Byte>>, player: Option<PlayerInfo>) returns (size: nat)
    requires CodeIsOurs(code)
    ensures size == |ResponseText(lib, code, message, player)|
  {
    hide ResponseText;
    var probe := new Out(null, 0);
    probe.Response(lib, code, message, player);
    size := probe.used;
    assert probe.text == [] + ResponseText(lib, code, message, player);
  }

  /** The writing pass, into a buffer that is known to be large enough. */
  method Store(lib: NumLib, code: int, message: Option<seq<Byte>>, player: Option<PlayerInfo>, out: array<Byte>)
    returns (written: nat)
    requires CodeIsOurs(code) && |ResponseText(lib, code, message, player)| + 1 <= out.Length
    modifies out
    ensures written == |ResponseText(lib, code, message, player)|
    ensures out[..] == ResponseText(lib, code, message, player) + [NUL] + old(out[..])[written + 1..]
  {
    hide ResponseText;
    var store := new Out(out, out.Length - 1);
    ghost var t := ResponseText(lib, code, message, player);
    store.Response(lib, code, message, player);
    assert store.text == [] + t == t;
    written := store.used;
    out[written] := NUL;
    assert out[..written] == t;
    assert out[..] == out[..written] + [out[written]] + out[written + 1..];
  }

  /** Encodes into `out`, or leaves it untouched: the measuring pass decides which. */
  method ResponseEncode(lib: NumLib, code: int, message: Option<seq<Byte>>, player: Option<PlayerInfo>,
                        out: array<Byte>)
    returns (status: Status, written: nat)
    modifies out
    ensures status == EncodeStatus(lib, code, message, player, out.Length)
    ensures status == Ok ==>
              var t := ResponseText(lib, code, message, player);
              written == |t| && out[..] == t + [NUL] + old(out[..])[|t| + 1..]
    ensures status != Ok ==> out[..] == old(out[..])
  {
    hide ResponseText;
    if out.Length == 0 || !CodeIsOurs(code) {
      return InvalidArg, 0;
    }
    var size := Measure(lib, code, message, player);
    if size + 1 > out.Length {
      return BufferTooSmall, 0;
    }
    written := Store(lib, code, message, player, out);
    return Ok, written;
  }

  function EncodeStatus(lib: NumLib, code: int, message: Option<seq<Byte>>, player: Option<PlayerInfo>, room: nat)
    : Status
  {
    if room == 0 || !CodeIsOurs(code) then InvalidArg
    else if |ResponseText(lib, code, message, player)| + 1 > room then BufferTooSmall
    else Ok
  }
}
