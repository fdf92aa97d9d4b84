/**
 * The texts the decoder takes, and no others: an object of members with commas between them, each a
 * string, a colon and a value. A nested value it has no use for need only balance its brackets.
 */
module Grammar {
  import opened Bytes
  import opened Json
  import opened Text
  import opened Numbers
  import opened Message
  import opened Reader
  import opened Decode
  import opened DecodeJson
  import opened SkipJson

  // --------------------------------------------------------------------------------------
  // Nested structures
  // --------------------------------------------------------------------------------------

  /** What a structure is made of: octets that open and close nothing, strings, structures. */
  datatype Piece = Loose(b: Byte) | Quoted(text: seq<Byte>) | Nested(left: Byte, pieces: seq<Piece>, right: Byte)

  /** No quote but behind a backslash, and no backslash last. */
  predicate Runon(text: seq<Byte>) {
    text == []
    || (if text[0] == BACKSLASH then |text| >= 2 && Runon(text[2..]) else text[0] != QUOTE && Runon(text[1..]))
  }

  predicate IsPiece(p: Piece)
    decreases p, 0
  {
    match p
    case Loose(b) => NestsNothing(b)
    case Quoted(text) => Runon(text)
    case Nested(left, pieces, right) => left in [LBRACE, LBRACKET] && right in [RBRACE, RBRACKET] && ArePieces(pieces)
  }

  predicate ArePieces(ps: seq<Piece>)
    decreases ps, 1
  {
    ps == [] || (IsPiece(ps[0]) && ArePieces(ps[1..]))
  }

  function Spell(p: Piece): seq<Byte>
    decreases p, 0
  {
    match p
    case Loose(b) => [b]
    case Quoted(text) => [QUOTE] + text + [QUOTE]
    case Nested(left, pieces, right) => [left] + SpellAll(pieces) + [right]
  }

  function SpellAll(ps: seq<Piece>): seq<Byte>
    decreases ps, 1
  {
    if ps == [] then [] else Spell(ps[0]) + SpellAll(ps[1..])
  }

  /** How deep structures are nested. */
  function Levels(p: Piece): nat
    decreases p, 0
  {
    match p
    case Nested(_, pieces, _) => LevelsOf(pieces) + 1
    case _ => 0
  }

  function LevelsOf(ps: seq<Piece>): nat
    decreases ps, 1
  {
    if ps == [] then 0 else if Levels(ps[0]) > LevelsOf(ps[1..]) then Levels(ps[0]) else LevelsOf(ps[1..])
  }

  /** A structure of at most 32 levels; which of the two brackets closes which does not matter. */
  predicate IsStructure(p: Piece) {
    p.Nested? && IsPiece(p) && Levels(p) <= 32
  }

  lemma {:induction false} RunonRuns(depth: nat, text: seq<Byte>)
    requires Runon(text)
    ensures Runs(InString(depth), text, Some(InString(depth)))
    decreases |text|
  {
    hide Runs;
    var k := InString(depth);
    if text == [] {
      RunsNothing(k);
    } else if text[0] == BACKSLASH {
      EscapedRuns(depth, text[1]);
      RunonRuns(depth, text[2..]);
      RunsOn(k, [BACKSLASH, text[1]], k, text[2..], Some(k));
      assert text == [BACKSLASH, text[1]] + text[2..];
    } else {
      PlainRuns(depth, [text[0]]);
      RunonRuns(depth, text[1..]);
      RunsOn(k, [text[0]], k, text[1..], Some(k));
      assert text == [text[0]] + text[1..];
    }
  }

  lemma QuotedRuns(depth: nat, text: seq<Byte>)
    requires Runon(text)
    ensures Runs(Outside(depth), [QUOTE] + text + [QUOTE], Some(Outside(depth)))
  {
    hide Runs;
    var k, q := Outside(depth), InString(depth);
    RunsByte(k, QUOTE, q);
    RunonRuns(depth, text);
    RunsByte(q, QUOTE, k);
    RunsOn(k, [QUOTE], q, text, Some(q));
    RunsOn(k, [QUOTE] + text, q, [QUOTE], Some(k));
  }

  lemma {:induction false} PieceRuns(depth: nat, p: Piece)
    requires 0 < depth <= DEPTH_MAX && IsPiece(p)
    ensures Runs(Outside(depth), Spell(p), Fits(depth, Levels(p)))
    decreases p, 0
  {
    hide Runs;
    match p {
      case Loose(b) => DullRuns(depth, [b]);
      case Quoted(text) => QuotedRuns(depth, text);
      case Nested(left, pieces, right) =>
        if depth < DEPTH_MAX {
          PiecesRun(depth + 1, pieces);
        }
        BracketsRun(depth, left, SpellAll(pieces), right, LevelsOf(pieces));
    }
  }

  lemma {:induction false} PiecesRun(depth: nat, ps: seq<Piece>)
    requires 0 < depth <= DEPTH_MAX && ArePieces(ps)
    ensures Runs(Outside(depth), SpellAll(ps), Fits(depth, LevelsOf(ps)))
    decreases ps, 1
  {
    hide Runs;
    var k := Outside(depth);
    if ps == [] {
      RunsNothing(k);
    } else {
      PieceRuns(depth, ps[0]);
      PiecesRun(depth, ps[1..]);
      RunsThen(k, Spell(ps[0]), depth + Levels(ps[0]) <= DEPTH_MAX, k, SpellAll(ps[1..]), Fits(depth, LevelsOf(ps[1..])));
    }
  }

  /** A structure is passed over whole. */
  lemma StructureTaken(p: Piece, rest: seq<Byte>)
    requires IsStructure(p)
    ensures SkipFrom(Spell(p) + rest, SKIP_START) == Some(rest)
  {
    hide Runs;
    var body := SpellAll(p.pieces);
    PiecesRun(1, p.pieces);
    assert Spell(p) + rest == [p.left] + (body + ([p.right] + rest));
    assert (Spell(p) + rest)[1..] == body + ([p.right] + rest);
    assert SkipByte(SKIP_START, p.left) == SkipOn(Outside(1));
    RunsAt(Outside(1), body, Some(Outside(1)), [p.right] + rest);
    assert ([p.right] + rest)[1..] == rest;
  }

  lemma RunsAt(k: Skipper, a: seq<Byte>, r: Option<Skipper>, rest: seq<Byte>)
    requires Runs(k, a, r)
    ensures RunsBefore(k, a, r, rest)
  {
  }

  // --------------------------------------------------------------------------------------
  // And back
  // --------------------------------------------------------------------------------------

  lemma InsideString(s: seq<Byte>, depth: nat)
    ensures SkipFrom(s, InString(depth))
         == if s == [] then None
            else if s[0] == QUOTE then SkipFrom(s[1..], Outside(depth))
            else if s[0] != BACKSLASH then SkipFrom(s[1..], InString(depth))
            else if |s| < 2 then None
            else SkipFrom(s[2..], InString(depth))
  {
    if |s| >= 2 && s[0] == BACKSLASH {
      assert s[1..][1..] == s[2..];
      assert SkipFrom(s, InString(depth)) == SkipFrom(s[1..], Skipper(depth, true, true));
    }
  }

  lemma OutsideString(s: seq<Byte>, depth: nat)
    requires 0 < depth <= 32
    ensures SkipFrom(s, Outside(depth))
         == if s == [] then None
            else if s[0] == QUOTE then SkipFrom(s[1..], InString(depth))
            else if s[0] in [LBRACE, LBRACKET] then (if depth == 32 then None else SkipFrom(s[1..], Outside(depth + 1)))
            else if s[0] !in [RBRACE, RBRACKET] then SkipFrom(s[1..], Outside(depth))
            else if depth == 1 then Some(s[1..])
            else SkipFrom(s[1..], Outside(depth - 1))
  {
  }

  /** From inside a string the skipper gets to its end and goes on from there. */
  lemma {:induction false} StringPassed(s: seq<Byte>, depth: nat) returns (text: seq<Byte>)
    requires SkipFrom(s, InString(depth)).Some?
    ensures Runon(text) && |text| < |s| && s == text + ([QUOTE] + s[|text| + 1..])
    ensures SkipFrom(s[|text| + 1..], Outside(depth)) == SkipFrom(s, InString(depth))
    decreases |s|
  {
    hide SkipFrom;
    InsideString(s, depth);
    if s[0] == QUOTE {
      text := [];
      assert s == [QUOTE] + s[1..];
      assert s == [] + ([QUOTE] + s[1..]);
    } else {
      var head := if s[0] == BACKSLASH then s[..2] else s[..1];
      var t := StringPassed(s[|head|..], depth);
      text := head + t;
      assert text[|head|..] == t;
      assert s[|text| + 1..] == s[|head|..][|t| + 1..];
      assert s == head + s[|head|..];
    }
  }

  /** What closes the structures that are open: the rest of each, and its bracket, the innermost first. */
  datatype Tail = Tail(pieces: seq<Piece>, right: Byte)

  function SpellTails(ts: seq<Tail>): seq<Byte> {
    if ts == [] then [] else SpellAll(ts[0].pieces) + ([ts[0].right] + SpellTails(ts[1..]))
  }

  predicate AreTails(ts: seq<Tail>) {
    ts == []
    || (&& ArePieces(ts[0].pieces) && ts[0].right in [RBRACE, RBRACKET] && |ts| + LevelsOf(ts[0].pieces) <= 32
        && AreTails(ts[1..]))
  }

  /** One piece more at the front of the innermost. */
  lemma TailsWith(p: Piece, ts: seq<Tail>) returns (us: seq<Tail>)
    requires IsPiece(p) && ts != [] && AreTails(ts) && |ts| + Levels(p) <= 32
    ensures |us| == |ts| && AreTails(us) && SpellTails(us) == Spell(p) + SpellTails(ts)
  {
    us := [Tail([p] + ts[0].pieces, ts[0].right)] + ts[1..];
    assert us[1..] == ts[1..];
    assert us[0].pieces[1..] == ts[0].pieces;
  }

  /** The innermost is itself a piece of the one around it. */
  lemma TailsNested(left: Byte, ts: seq<Tail>) returns (us: seq<Tail>)
    requires left in [LBRACE, LBRACKET] && |ts| >= 2 && AreTails(ts)
    ensures |us| == |ts| - 1 && AreTails(us) && SpellTails(us) == [left] + SpellTails(ts)
  {
    var p := Nested(left, ts[0].pieces, ts[0].right);
    us := TailsWith(p, ts[1..]);
    var a, b := SpellAll(ts[0].pieces), SpellTails(ts[1..]);
    assert [left] + a + [ts[0].right] + b == [left] + (a + ([ts[0].right] + b));
  }

  /** Whatever the skipper gets through, it has seen that many structures closed. */
  lemma {:induction false} StructuresPassed(s: seq<Byte>, depth: nat) returns (ts: seq<Tail>)
    requires 0 < depth <= 32 && SkipFrom(s, Outside(depth)).Some?
    ensures |ts| == depth && AreTails(ts) && s == SpellTails(ts) + SkipFrom(s, Outside(depth)).value
    decreases |s|
  {
    hide SpellTails, AreTails, Spell, SpellAll, SkipFrom, Runon;
    OutsideString(s, depth);
    var rest := SkipFrom(s, Outside(depth)).value;
    var b := s[0];
    assert s == [b] + s[1..];
    if b == QUOTE {
      var text := StringPassed(s[1..], depth);
      var more := s[1..][|text| + 1..];
      ts := StructuresPassed(more, depth);
      var us := ts;
      QuotedPiece(text);
      ts := TailsWith(Quoted(text), ts);
      assert [QUOTE] + (text + ([QUOTE] + (SpellTails(us) + rest))) == ([QUOTE] + text + [QUOTE]) + SpellTails(us) + rest;
    } else if b == LBRACE || b == LBRACKET {
      ts := StructuresPassed(s[1..], depth + 1);
      var us := ts;
      ts := TailsNested(b, ts);
      assert [b] + (SpellTails(us) + rest) == [b] + SpellTails(us) + rest;
    } else if b == RBRACE || b == RBRACKET {
      if depth == 1 {
        ts := [Tail([], b)];
        OneClosed(b);
        assert [b] + rest == s;
      } else {
        var us := StructuresPassed(s[1..], depth - 1);
        ts := [Tail([], b)] + us;
        ClosedFirst(b, us);
        assert [b] + (SpellTails(us) + rest) == [b] + SpellTails(us) + rest;
      }
    } else {
      ts := StructuresPassed(s[1..], depth);
      var us := ts;
      LoosePiece(b);
      ts := TailsWith(Loose(b), ts);
      assert [b] + (SpellTails(us) + rest) == [b] + SpellTails(us) + rest;
    }
  }

  lemma QuotedPiece(text: seq<Byte>)
    ensures Runon(text) ==> IsPiece(Quoted(text))
    ensures Spell(Quoted(text)) == [QUOTE] + text + [QUOTE] && Levels(Quoted(text)) == 0
  {
  }

  lemma LoosePiece(b: Byte)
    ensures NestsNothing(b) ==> IsPiece(Loose(b))
    ensures Spell(Loose(b)) == [b] && Levels(Loose(b)) == 0
  {
  }

  lemma OneClosed(right: Byte)
    requires right in [RBRACE, RBRACKET]
    ensures AreTails([Tail([], right)]) && SpellTails([Tail([], right)]) == [right]
  {
    assert [Tail([], right)][1..] == [];
    assert SpellAll([]) == [] && LevelsOf([]) == 0 && ArePieces([]);
    assert [] + ([right] + []) == [right];
  }

  lemma ClosedFirst(right: Byte, ts: seq<Tail>)
    requires right in [RBRACE, RBRACKET] && AreTails(ts) && |ts| + 1 <= 32
    ensures AreTails([Tail([], right)] + ts) && SpellTails([Tail([], right)] + ts) == [right] + SpellTails(ts)
  {
    assert ([Tail([], right)] + ts)[1..] == ts;
    assert SpellAll([]) == [] && LevelsOf([]) == 0 && ArePieces([]);
    assert [] + ([right] + SpellTails(ts)) == [right] + SpellTails(ts);
  }

  /** Whatever is passed over as a structure is one. */
  lemma StructureSeen(s: seq<Byte>) returns (p: Piece)
    requires s != [] && s[0] in [LBRACE, LBRACKET] && SkipFrom(s, SKIP_START).Some?
    ensures IsStructure(p) && s == Spell(p) + SkipFrom(s, SKIP_START).value
  {
    assert SkipByte(SKIP_START, s[0]) == SkipOn(Outside(1));
    var rest := SkipFrom(s, SKIP_START).value;
    var ts := StructuresPassed(s[1..], 1);
    p := Nested(s[0], ts[0].pieces, ts[0].right);
    assert ts[1..] == [];
    var a := SpellAll(ts[0].pieces);
    assert SpellTails(ts) == a + ([ts[0].right] + []);
    assert s == [s[0]] + s[1..];
    assert [s[0]] + ((a + ([ts[0].right] + [])) + rest) == [s[0]] + a + [ts[0].right] + rest;
  }

  // --------------------------------------------------------------------------------------
  // Values
  // --------------------------------------------------------------------------------------

  ghost predicate IsString(v: seq<Byte>) {
    exists items :: ValidItems(items) && v == PrintString(items)
  }

  ghost predicate Balances(v: seq<Byte>) {
    exists p :: IsStructure(p) && v == Spell(p)
  }

  /** A word, a number that is read whole, a string, or a structure. */
  ghost predicate IsValue(lib: NumLib, v: seq<Byte>) {
    v in [TRUE_TEXT, FALSE_TEXT, NULL_TEXT] || (ValidNumber(v) && Readable(lib, v)) || IsString(v) || Balances(v)
  }

  /** The whitespace at the front. */
  function Lead(s: seq<Byte>): (w: seq<Byte>)
    ensures s == w + SkipWs(s) && AllWs(w)
  {
    LeadIsWs(s);
    s[..|s| - |SkipWs(s)|]
  }

  lemma {:induction false} LeadIsWs(s: seq<Byte>)
    ensures s[|s| - |SkipWs(s)|..] == SkipWs(s) && AllWs(s[..|s| - |SkipWs(s)|])
  {
    if s != [] && IsWs(s[0]) {
      LeadIsWs(s[1..]);
      var n := |s| - |SkipWs(s)|;
      assert s[n..] == s[1..][n - 1..];
      assert s[..n] == [s[0]] + s[1..][..n - 1];
    } else {
      assert s[0..] == s && s[..0] == [];
    }
  }

  /** A string that is read is a string literal. */
  lemma {:induction false} BodySpelled(s: seq<Byte>) returns (items: seq<Item>)
    requires StringBody(s).Some?
    ensures ValidItems(items) && s == PrintItems(items) + ([QUOTE] + StringBody(s).value.1)
    decreases |s|
  {
    hide Utf8, Hex4, Combine;
    var rest := StringBody(s).value.1;
    if s[0] == QUOTE {
      items := [];
      assert [] + ([QUOTE] + rest) == s;
    } else if s[0] != BACKSLASH {
      var more := BodySpelled(s[1..]);
      items := ItemFirst(Plain(s[0]), more, s[1..], rest);
      assert s == [s[0]] + s[1..];
    } else if s[1] != LOWER_U {
      var more := BodySpelled(s[2..]);
      items := ItemFirst(Escape(s[1]), more, s[2..], rest);
      assert s == [s[0], s[1]] + s[2..];
    } else {
      items := UnicodeSpelled(s);
    }
  }

  lemma ItemFirst(it: Item, more: seq<Item>, t: seq<Byte>, rest: seq<Byte>) returns (items: seq<Item>)
    requires ValidItem(it) && ValidItems(more) && t == PrintItems(more) + ([QUOTE] + rest)
    ensures items == [it] + more && ValidItems(items) && PrintItem(it) + t == PrintItems(items) + ([QUOTE] + rest)
  {
    items := [it] + more;
    assert items[1..] == more;
    assert PrintItem(it) + (PrintItems(more) + ([QUOTE] + rest)) == PrintItem(it) + PrintItems(more) + ([QUOTE] + rest);
  }

  lemma {:induction false} UnicodeSpelled(s: seq<Byte>) returns (items: seq<Item>)
    requires |s| >= 2 && s[0] == BACKSLASH && s[1] == LOWER_U && StringBody(s).Some?
    ensures ValidItems(items) && s == PrintItems(items) + ([QUOTE] + StringBody(s).value.1)
    decreases |s|, 0
  {
    hide Utf8, Hex4, Combine, PrintItems;
    var rest := StringBody(s).value.1;
    var hex := s[2..][..4];
    var t := s[2..][4..];
    assert ReadHex4(s[2..]) == Some((Hex4(hex), t));
    assert s == PrintItem(Unicode(hex)) + t;
    var low := if IsHigh(Hex4(hex)) then ReadLow(t) else None;
    if low.Some? {
      var hex2, u := t[2..][..4], t[2..][4..];
      assert t == PrintItem(Unicode(hex2)) + u;
      var more := BodySpelled(u);
      items := ItemFirst(Unicode(hex2), more, u, rest);
      items := ItemFirst(Unicode(hex), items, t, rest);
    } else {
      var more := BodySpelled(t);
      items := ItemFirst(Unicode(hex), more, t, rest);
    }
  }

  lemma StringSpelled(s: seq<Byte>) returns (items: seq<Item>)
    requires ReadString(s).Some?
    ensures ValidItems(items) && s == Lead(s) + (PrintString(items) + ReadString(s).value.1)
    ensures ReadString(s).value.0 == Meaning(items)
  {
    hide PrintItems, StringBody, Meaning;
    var t, rest := SkipWs(s), ReadString(s).value.1;
    items := BodySpelled(t[1..]);
    assert t == [QUOTE] + t[1..];
    assert [QUOTE] + (PrintItems(items) + ([QUOTE] + rest)) == [QUOTE] + PrintItems(items) + [QUOTE] + rest;
    ReadStringPrinted(Lead(s), items, rest);
  }

  lemma {:induction false} TokenIsNumber(s: seq<Byte>)
    ensures forall i :: 0 <= i < TokenLength(s) ==> IsNumberByte(s[i])
  {
    if s != [] && IsNumberByte(s[0]) {
      TokenIsNumber(s[1..]);
      forall i | 0 <= i < TokenLength(s)
        ensures IsNumberByte(s[i])
      {
        assert i > 0 ==> s[i] == s[1..][i - 1];
      }
    }
  }

  /** What is passed over is a value. */
  lemma ValuePassed(lib: NumLib, s: seq<Byte>) returns (v: seq<Byte>)
    requires SkipValue(lib, s).Some?
    ensures IsValue(lib, v) && s == Lead(s) + (v + SkipValue(lib, s).value)
  {
    hide SkipFrom, StringBody, ReadString, PrintString, Spell, IsStructure, Lead;
    var t, rest := SkipWs(s), SkipValue(lib, s).value;
    if KindOf(s) == StringKind {
      var items := StringSpelled(s);
      v := PrintString(items);
    } else if KindOf(s) == NumberKind {
      TokenIsNumber(t);
      v := t[..TokenLength(t)];
      assert t == v + rest;
    } else if KindOf(s) in {ObjectKind, ArrayKind} {
      var p := StructureSeen(t);
      v := Spell(p);
    } else {
      v := Word(KindOf(s)).value;
      assert t == v + rest;
    }
  }

  /** How a value begins. */
  lemma ValueBegins(lib: NumLib, v: seq<Byte>)
    requires IsValue(lib, v)
    ensures v != [] && !IsWs(v[0])
    ensures v[0] == LBRACE || v[0] == LBRACKET <==> Balances(v)
    ensures v[0] == QUOTE <==> IsString(v)
    ensures StartsNumber(v[0]) <==> ValidNumber(v)
    ensures ValidNumber(v) ==> Readable(lib, v)
    ensures v[0] == LOWER_T <==> v == TRUE_TEXT
    ensures v[0] == LOWER_F <==> v == FALSE_TEXT
    ensures v[0] == LOWER_N <==> v == NULL_TEXT
  {
    hide PrintItems, SpellAll, ArePieces, LevelsOf, Readable;
  }

  /** And every value is passed over, whatever whitespace is before it. */
  lemma ValueTaken(lib: NumLib, w: seq<Byte>, v: seq<Byte>, tail: seq<Byte>)
    requires AllWs(w) && IsValue(lib, v) && Boundary(tail)
    ensures SkipValue(lib, w + (v + tail)) == Some(tail)
  {
    hide SkipFrom, ReadString, ReadNumber, ReadLiteral, PrintString, Spell, IsStructure, Lead, Balances, IsString, IsValue;
    ValueBegins(lib, v);
    SkipWsTo(w, v + tail);
    assert (v + tail)[0] == v[0];
    ValueKinds(lib, v);
    if Balances(v) {
      BalancedTaken(v, tail);
    } else if IsString(v) {
      StringTaken(w, v, tail);
    } else if ValidNumber(v) {
      ReadNumberPrinted(lib, w, v, tail);
    } else if v == TRUE_TEXT {
      ReadLiteralPrinted(w, TrueKind, tail);
    } else if v == FALSE_TEXT {
      ReadLiteralPrinted(w, FalseKind, tail);
    } else {
      ReadLiteralPrinted(w, NullKind, tail);
    }
  }

  lemma ValueKinds(lib: NumLib, v: seq<Byte>)
    requires IsValue(lib, v)
    ensures Balances(v) || IsString(v) || ValidNumber(v) || v == TRUE_TEXT || v == FALSE_TEXT || v == NULL_TEXT
  {
    hide Balances, IsString, ValidNumber;
  }

  lemma BalancedTaken(v: seq<Byte>, tail: seq<Byte>)
    requires Balances(v)
    ensures SkipFrom(v + tail, SKIP_START) == Some(tail)
  {
    hide IsStructure, Spell, SkipFrom;
    var p :| IsStructure(p) && v == Spell(p);
    StructureTaken(p, tail);
  }

  lemma StringTaken(w: seq<Byte>, v: seq<Byte>, tail: seq<Byte>)
    requires AllWs(w) && IsString(v)
    ensures ReadString(w + (v + tail)).Some? && ReadString(w + (v + tail)).value.1 == tail
  {
    hide PrintString, ReadString;
    var items :| ValidItems(items) && v == PrintString(items);
    ReadStringPrinted(w, items, tail);
  }
}
