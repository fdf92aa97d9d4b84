/** Which responses fit a write request of 256 octets, the terminator included. */
module Sizes {
  import opened Bytes
  import opened Json
  import opened Text
  import opened Numbers
  import opened Message
  import opened Protocol
  import opened Encode

  lemma {:induction false} EscapedSize(s: seq<Byte>)
    ensures |s| <= |PrintItems(EscapeBytes(s))| <= 6 * |s|
    ensures (forall i :: 0 <= i < |s| ==> s[i] >= 0x20 && s[i] != QUOTE && s[i] != BACKSLASH) ==>
              |PrintItems(EscapeBytes(s))| == |s|
  {
    if s != [] {
      EscapedSize(s[1..]);
      assert EscapeBytes(s)[1..] == EscapeBytes(s[1..]);
      assert 1 <= |PrintItem(EscapeByte(s[0]))| <= 6;
    }
  }

  /** A response with this text, and no player, fits a write request. */
  predicate TextFits(lib: NumLib, code: int, text: seq<Byte>) {
    EncodeStatus(lib, code, Some(text), None, WRITE_MAX) == Ok
  }

  /** A text fits exactly when its escaped form is at most 230 octets. */
  lemma TextFitsExactly(lib: NumLib, code: int, text: seq<Byte>)
    requires CodeIsOurs(code)
    ensures TextFits(lib, code, text) <==> |PrintItems(EscapeBytes(CStr(text)))| <= 230
  {
    hide CStr, EscapeBytes, PrintItems;
    assert |NameText(CODE_NAME, true)| == 7 && |NameText(MESSAGE_NAME, false)| == 11;
    assert |ResponseText(lib, code, Some(text), None)| == 25 + |PrintItems(EscapeBytes(CStr(text)))|;
  }

  lemma FixedTextFits(lib: NumLib, code: int, text: seq<Byte>)
    requires CodeIsOurs(code) && |text| <= 38
    ensures TextFits(lib, code, text)
  {
    hide TextFits, EscapeBytes, PrintItems, CStr;
    TextFitsExactly(lib, code, text);
    EscapedSize(CStr(text));
  }

  /** Every text the library sends of its own fits. */
  lemma FixedTextsFit(lib: NumLib)
    ensures TextFits(lib, CODE_FAILURE, TEXT_BAD_JSON) && TextFits(lib, CODE_FAILURE, TEXT_TOO_LARGE)
    ensures TextFits(lib, CODE_FAILURE, TEXT_INCOMPLETE) && TextFits(lib, CODE_SHOT_RECEIVED, TEXT_SHOT_RECEIVED)
    ensures TextFits(lib, CODE_READY, TEXT_READY) && TextFits(lib, CODE_ROUND_ENDED, TEXT_ROUND_ENDED)
  {
    hide TextFits;
    FixedTextFits(lib, CODE_FAILURE, TEXT_BAD_JSON);
    FixedTextFits(lib, CODE_FAILURE, TEXT_TOO_LARGE);
    FixedTextFits(lib, CODE_FAILURE, TEXT_INCOMPLETE);
    FixedTextFits(lib, CODE_SHOT_RECEIVED, TEXT_SHOT_RECEIVED);
    FixedTextFits(lib, CODE_READY, TEXT_READY);
    FixedTextFits(lib, CODE_ROUND_ENDED, TEXT_ROUND_ENDED);
  }

  lemma StringSize(s: seq<Byte>)
    ensures |StringText(s)| <= 2 + 6 * |s|
  {
    EscapedSize(s);
  }

  lemma PlayerTextPlain()
    ensures |PrintItems(EscapeBytes(CStr(TEXT_PLAYER_INFO)))| == 24
  {
    var t := TEXT_PLAYER_INFO;
    hide EscapeBytes, PrintItems, CStr;
    forall i | 0 <= i < |t|
      ensures t[i] >= 0x20 && t[i] != QUOTE && t[i] != BACKSLASH
    {
    }
    EscapedSize(t);
    assert CStr(t) == t;
  }

  predicate Unescaped(s: seq<Byte>) {
    forall i :: 0 <= i < |s| ==> s[i] >= 0x20 && s[i] != QUOTE && s[i] != BACKSLASH
  }

  lemma UnescapedSize(s: seq<Byte>)
    requires Unescaped(s)
    ensures |StringText(s)| == 2 + |s|
  {
    EscapedSize(s);
  }

  lemma HandedSize(p: PlayerInfo)
    ensures |HandedPart(p)| <= 13
  {
    hide StringText;
    var t := HandedText(p.handed);
    assert |t| <= 2 && Unescaped(t);
    UnescapedSize(t);
  }

  lemma ClubSize(p: PlayerInfo)
    ensures |ClubPart(p)| <= 12
  {
    hide StringText, HandedPart, ClubText;
    ClubTextSize(p.club);
    UnescapedSize(ClubText(p.club));
  }

  lemma ClubTextSize(club: nat)
    ensures |ClubText(club)| <= 2 && Unescaped(ClubText(club))
  {
    hide Ascii;
    assert forall i :: 0 <= i < |CLUB_CODES| ==> |CLUB_CODES[i]| == 2 && Unescaped(CLUB_CODES[i]);
  }

  lemma PlayerSize(lib: NumLib, p: PlayerInfo)
    requires Sound(lib) && Representable(lib, p.distance) && |p.surface| <= SURFACE_MAX
    ensures |PlayerText(lib, p)| <= 180
  {
    hide StringText, FormatDouble, CStr;
    HandedSize(p);
    ClubSize(p);
    FormatReadsBack(lib, p.distance);
    StringSize(CStr(p.surface));
    assert |DistancePart(lib, p)| <= 44;
    assert |SurfacePart(lib, p)| <= 109;
  }

  /**
   * Every 201 fits, whatever the player, a surface that fills its field without a terminator
   * included: no player information is ever lost for its size.
   */
  lemma PlayerInfoFits(lib: NumLib, p: PlayerInfo)
    requires Sound(lib) && Representable(lib, p.distance) && |p.surface| <= SURFACE_MAX
    ensures EncodeStatus(lib, CODE_PLAYER_INFO, Some(TEXT_PLAYER_INFO), Some(p), WRITE_MAX) == Ok
  {
    hide CStr, EscapeBytes, PrintItems, PlayerText;
    PlayerTextPlain();
    PlayerSize(lib, p);
    assert |NameText(CODE_NAME, true)| == 7 && |NameText(MESSAGE_NAME, false)| == 11 && |NameText(PLAYER_NAME, false)| == 10;
    assert |ResponseText(lib, CODE_PLAYER_INFO, Some(TEXT_PLAYER_INFO), Some(p))| == 49 + 10 + |PlayerText(lib, p)|;
  }
}
