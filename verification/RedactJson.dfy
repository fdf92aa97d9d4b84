/**
 * The raw-byte redactor on JSON: masking the printed text is printing the masked value. The scan
 * knows nothing of JSON, and still takes out exactly the string values of the members whose
 * spelled key ends in `"deviceid`, wherever they are nested, and leaves everything else alone.
 */
module RedactJson {
  import opened Bytes
  import opened Json
  import opened Text
  import opened Redact

  /** The scan takes `raw`, the text between a key's quotes, for a DeviceID. */
  predicate NamesDevice(raw: seq<Byte>) {
    |raw| >= 8 && CiEqual(raw[|raw| - 8..], KEY) && (|raw| == 8 || raw[|raw| - 9] == QUOTE)
  }

  function MaskText(n: nat): (r: seq<Byte>)
    ensures |r| == n
    ensures forall k :: 0 <= k < n ==> r[k] == MaskByte(k)
  {
    seq(n, k requires 0 <= k < n => MaskByte(k))
  }

  function Redacted(v: Value): Value
    decreases v, 0
  {
    match v
    case Array(blank, elements) => Array(blank, RedactedElements(elements))
    case Object(blank, members) => Object(blank, RedactedMembers(members))
    case _ => v
  }

  function RedactedElements(es: seq<Element>): (r: seq<Element>)
    ensures |r| == |es|
    decreases es, 1
  {
    if es == [] then [] else [es[0].(value := Redacted(es[0].value))] + RedactedElements(es[1..])
  }

  /** A masked string: plain characters, as many as the octets of its spelling. */
  function Masked(items: seq<Item>): seq<Item> {
    PlainItems(MaskText(|PrintItems(items)|))
  }

  function RedactedMembers(ms: seq<Member>): (r: seq<Member>)
    ensures |r| == |ms|
    decreases ms, 1
  {
    if ms == [] then []
    else
      var v := ms[0].value;
      [ms[0].(value := if v.Text? && NamesDevice(PrintItems(ms[0].key)) then Value.Text(Masked(v.items)) else Redacted(v))]
      + RedactedMembers(ms[1..])
  }

  // --------------------------------------------------------------------------------------
  // One byte at a time
  // --------------------------------------------------------------------------------------

  lemma MaskStep(s: seq<Byte>)
    requires s != []
    ensures match ContentStart(s)
            case None => Mask(s) == [s[0]] + Mask(s[1..])
            case Some(a) =>
              var n := ContentLength(s[a..]);
              a + n < |s| ==> Mask(s) == s[..a] + (MaskText(n) + ([s[a + n]] + Mask(s[a + n + 1..])))
  {
    hide ContentStart, ContentLength, MaskByte, PaintBehind, Paint;
    PaintStep(s);
    match ContentStart(s) {
      case None => CellBytesConcat([Cell(s[0], false)], Paint(s[1..]));
      case Some(a) =>
        var n := ContentLength(s[a..]);
        if a + n < |s| {
          CellsOfSpan(s, a, n);
        }
    }
  }

  lemma CellsOfSpan(s: seq<Byte>, a: nat, n: nat)
    requires a + n < |s|
    ensures CellBytes(Clear(s[..a]) + Hidden(n) + PaintBehind(s, a + n))
         == s[..a] + (MaskText(n) + ([s[a + n]] + Mask(s[a + n + 1..])))
  {
    hide Paint, MaskByte;
    var z := Mask(s[a + n + 1..]);
    BehindIs(s, a + n);
    CellBytesConcat([Cell(s[a + n], false)], Paint(s[a + n + 1..]));
    CellBytesConcat(Clear(s[..a]) + Hidden(n), PaintBehind(s, a + n));
    CellBytesConcat(Clear(s[..a]), Hidden(n));
    assert CellBytes(Clear(s[..a])) == s[..a];
    assert CellBytes(Hidden(n)) == MaskText(n);
    assert s[..a] + MaskText(n) + ([s[a + n]] + z) == s[..a] + (MaskText(n) + ([s[a + n]] + z));
  }

  lemma BehindIs(s: seq<Byte>, e: nat)
    requires e < |s|
    ensures PaintBehind(s, e) == [Cell(s[e], false)] + Paint(s[e + 1..])
  {
  }

  lemma CellBytesConcat(a: seq<Cell>, b: seq<Cell>)
    ensures CellBytes(a + b) == CellBytes(a) + CellBytes(b)
  {
  }

  lemma MaskPasses(b: Byte, t: seq<Byte>)
    requires ContentStart([b] + t) == None
    ensures Mask([b] + t) == [b] + Mask(t)
  {
    hide ContentStart, Mask;
    assert ([b] + t)[1..] == t;
    MaskStep([b] + t);
  }

  lemma {:induction false} MaskDull(w: seq<Byte>, t: seq<Byte>)
    requires QUOTE !in w
    ensures Mask(w + t) == w + Mask(t)
  {
    hide Mask;
    if w == [] {
      assert w + t == t && w + Mask(t) == Mask(t);
    } else {
      assert w + t == [w[0]] + (w[1..] + t);
      MaskPasses(w[0], w[1..] + t);
      MaskDull(w[1..], t);
      assert w + Mask(t) == [w[0]] + (w[1..] + Mask(t));
    }
  }

  lemma KeyLetters(b: Byte, i: nat)
    requires i < 8 && Lower(b) == Lower(KEY[i])
    ensures b != QUOTE && b != BACKSLASH && !IsWs(b)
    ensures i == 0 ==> Lower(b) == 100
  {
  }

  /** Nothing that continues a key follows. */
  predicate NotKeyLike(tail: seq<Byte>) {
    tail == [] || Lower(tail[0]) != 100
  }

  lemma KeyBegins(s: seq<Byte>)
    ensures KeyAtHead(s) ==> |s| > 1 && Lower(s[1]) == 100
  {
    if KeyAtHead(s) {
      assert Lower(s[1..9][0]) == Lower(KEY[0]);
      KeyLetters(s[1], 0);
    }
  }

  lemma MaskClosing(tail: seq<Byte>)
    requires NotKeyLike(tail)
    ensures Mask([QUOTE] + tail) == [QUOTE] + Mask(tail)
  {
    hide Mask, KeyAtHead;
    KeyBegins([QUOTE] + tail);
    MaskPasses(QUOTE, tail);
  }

  // --------------------------------------------------------------------------------------
  // Strings
  // --------------------------------------------------------------------------------------

  /** Quotes inside a literal are escaped. */
  predicate QuotesEscaped(r: seq<Byte>) {
    forall k :: 1 <= k < |r| && r[k] == QUOTE ==> r[k - 1] == BACKSLASH
  }

  /** `r`, followed by a quote, ends in a DeviceID key. */
  predicate Match(r: seq<Byte>) {
    |r| >= 9 && r[|r| - 9] == QUOTE && CiEqual(r[|r| - 8..], KEY)
  }

  /** No colon and opening quote follow. */
  predicate NoString(tail: seq<Byte>) {
    var colon := Spaces(tail);
    || colon >= |tail| || tail[colon] != COLON
    || (var quote := colon + 1 + Spaces(tail[colon + 1..]); quote >= |tail| || tail[quote] != QUOTE)
  }

  lemma HeadMatches(r: seq<Byte>, tail: seq<Byte>)
    requires r != [] && QuotesEscaped(r)
    ensures KeyAtHead(r + ([QUOTE] + tail)) <==> |r| == 9 && Match(r)
  {
    var s := r + ([QUOTE] + tail);
    if KeyAtHead(s) {
      var word := s[1..9];
      assert forall i :: 0 <= i < 8 ==> word[i] == s[i + 1] && Lower(word[i]) == Lower(KEY[i]);
      if |r| < 9 {
        assert s[|r|] == QUOTE;
        KeyLetters(s[|r|], |r| - 1);
      } else if |r| > 9 {
        assert s[9] == r[9] && s[8] == r[8];
        KeyLetters(s[8], 7);
      } else {
        assert r[1..] == word;
      }
    }
    if |r| == 9 && Match(r) {
      assert s[1..9] == r[1..] && s[9] == QUOTE;
    }
  }

  lemma HeadContent(r: seq<Byte>, tail: seq<Byte>)
    requires r != [] && QuotesEscaped(r) && (NoString(tail) || !Match(r))
    ensures ContentStart(r + ([QUOTE] + tail)) == None
  {
    HeadMatches(r, tail);
    var s := r + ([QUOTE] + tail);
    if KeyAtHead(s) {
      assert s[10..] == tail;
      var colon := Spaces(tail);
      if colon < |tail| {
        assert s[10 + colon] == tail[colon];
        assert s[10 + colon + 1..] == tail[colon + 1..];
        var quote := colon + 1 + Spaces(tail[colon + 1..]);
        if quote < |tail| {
          assert s[10 + quote] == tail[quote];
        }
      }
    }
  }

  /** A literal that is no key, or no DeviceID, is left alone. */
  lemma {:induction false} MaskLiteral(r: seq<Byte>, tail: seq<Byte>)
    requires QuotesEscaped(r) && (NoString(tail) || !Match(r))
    ensures Mask(r + ([QUOTE] + tail)) == r + Mask([QUOTE] + tail)
  {
    hide Mask, NoString;
    if r == [] {
      assert r + ([QUOTE] + tail) == [QUOTE] + tail;
      assert r + Mask([QUOTE] + tail) == Mask([QUOTE] + tail);
    } else {
      var t := r[1..] + ([QUOTE] + tail);
      assert r + ([QUOTE] + tail) == [r[0]] + t;
      HeadContent(r, tail);
      MaskPasses(r[0], t);
      if Match(r[1..]) {
        assert r[1..][|r| - 9..] == r[|r| - 8..];
      }
      MaskLiteral(r[1..], tail);
      assert r + Mask([QUOTE] + tail) == [r[0]] + (r[1..] + Mask([QUOTE] + tail));
    }
  }

  /** From behind a key's closing quote to behind the closing quote of its string value. */
  function KeyedString(w1: seq<Byte>, w2: seq<Byte>, content: seq<Byte>, rest: seq<Byte>): seq<Byte> {
    w1 + ([COLON] + (w2 + ([QUOTE] + (content + ([QUOTE] + rest)))))
  }

  lemma {:induction false} SpacesOver(w: seq<Byte>, b: Byte, t: seq<Byte>)
    requires AllWs(w) && !IsWs(b)
    ensures Spaces(w + ([b] + t)) == |w|
  {
    if w == [] {
      assert w + ([b] + t) == [b] + t;
    } else {
      assert (w + ([b] + t))[1..] == w[1..] + ([b] + t);
      SpacesOver(w[1..], b, t);
    }
  }

  lemma {:induction false} ContentLengthPrinted(items: seq<Item>, rest: seq<Byte>)
    requires ValidItems(items)
    ensures ContentLength(PrintItems(items) + ([QUOTE] + rest)) == |PrintItems(items)|
  {
    if items == [] {
      assert PrintItems(items) + ([QUOTE] + rest) == [QUOTE] + rest;
    } else {
      var more := PrintItems(items[1..]) + ([QUOTE] + rest);
      var s := PrintItems(items) + ([QUOTE] + rest);
      assert s == PrintItem(items[0]) + more;
      ContentLengthPrinted(items[1..], rest);
      ContentLengthItem(items[0], more);
    }
  }

  lemma ContentLengthItem(it: Item, more: seq<Byte>)
    requires ValidItem(it) && more != []
    ensures ContentLength(PrintItem(it) + more) == |PrintItem(it)| + ContentLength(more)
  {
    match it {
      case Plain(b) => assert ([b] + more)[1..] == more;
      case Escape(c) => assert ([BACKSLASH, c] + more)[2..] == more;
      case Unicode(hex) =>
        assert ([BACKSLASH, LOWER_U] + hex + more)[2..] == hex + more;
        ContentLengthHex(hex, more);
    }
  }

  lemma {:induction false} ContentLengthHex(h: seq<Byte>, more: seq<Byte>)
    requires forall i :: 0 <= i < |h| ==> IsHex(h[i])
    ensures ContentLength(h + more) == |h| + ContentLength(more)
  {
    if h == [] {
      assert h + more == more;
    } else {
      assert (h + more)[1..] == h[1..] + more;
      ContentLengthHex(h[1..], more);
    }
  }

  /** Where the scan finds the value's content to begin. */
  lemma ContentStartNamed(r: seq<Byte>, w1: seq<Byte>, w2: seq<Byte>, t: seq<Byte>)
    requires |r| == 9 && Match(r) && QuotesEscaped(r) && AllWs(w1) && AllWs(w2)
    ensures var s := r + ([QUOTE] + (w1 + ([COLON] + (w2 + ([QUOTE] + t)))));
            var a := |r| + |w1| + |w2| + 3;
            ContentStart(s) == Some(a) && a <= |s| && s[a..] == t
  {
    hide Match, QuotesEscaped, KeyAtHead;
    var t3 := w2 + ([QUOTE] + t);
    var tail := w1 + ([COLON] + t3);
    var s := r + ([QUOTE] + tail);
    HeadMatches(r, tail);
    assert |s| >= 10 && s[10..] == tail;
    SpacesOver(w1, COLON, t3);
    var colon := 10 + |w1|;
    assert s[colon..] == [COLON] + t3;
    assert s[colon] == COLON && s[colon + 1..] == t3;
    SpacesOver(w2, QUOTE, t);
    var quote := colon + 1 + |w2|;
    assert s[quote..] == [QUOTE] + t;
    assert s[quote] == QUOTE && s[quote + 1..] == t;
  }

  /** The content of a DeviceID value, and only it, is overwritten: at the key itself. */
  lemma MaskNamedHere(r: seq<Byte>, w1: seq<Byte>, w2: seq<Byte>, items: seq<Item>, rest: seq<Byte>)
    requires |r| == 9 && Match(r) && QuotesEscaped(r) && AllWs(w1) && AllWs(w2) && ValidItems(items)
    ensures Mask(r + ([QUOTE] + KeyedString(w1, w2, PrintItems(items), rest)))
         == r + ([QUOTE] + KeyedString(w1, w2, MaskText(|PrintItems(items)|), Mask(rest)))
  {
    hide Mask, PrintItems, Match, QuotesEscaped, ContentStart, ContentLength;
    var content := PrintItems(items);
    var n := |content|;
    var t := content + ([QUOTE] + rest);
    var s := r + ([QUOTE] + KeyedString(w1, w2, content, rest));
    var a := |r| + |w1| + |w2| + 3;
    ContentStartNamed(r, w1, w2, t);
    ContentLengthPrinted(items, rest);
    assert s[a + n..] == s[a..][n..] == [QUOTE] + rest;
    assert s[a + n] == QUOTE && s[a + n + 1..] == rest by {
      assert s[a + n..][0] == QUOTE && s[a + n..][1..] == rest;
    }
    MaskStep(s);
    NamedPieces(r, w1, w2, content, rest, MaskText(n) + ([QUOTE] + Mask(rest)));
  }

  lemma NamedPieces(r: seq<Byte>, w1: seq<Byte>, w2: seq<Byte>, content: seq<Byte>, rest: seq<Byte>, z: seq<Byte>)
    ensures var s := r + ([QUOTE] + KeyedString(w1, w2, content, rest));
            var a := |r| + |w1| + |w2| + 3;
            a <= |s| && s[..a] + z == r + ([QUOTE] + (w1 + ([COLON] + (w2 + ([QUOTE] + z)))))
  {
    var s := r + ([QUOTE] + KeyedString(w1, w2, content, rest));
    var a := |r| + |w1| + |w2| + 3;
    var p := r + ([QUOTE] + (w1 + ([COLON] + (w2 + [QUOTE]))));
    assert s == p + (content + ([QUOTE] + rest));
    assert s[..a] == p;
  }

  lemma {:induction false} MaskNamed(r: seq<Byte>, w1: seq<Byte>, w2: seq<Byte>, items: seq<Item>, rest: seq<Byte>)
    requires Match(r) && QuotesEscaped(r) && AllWs(w1) && AllWs(w2) && ValidItems(items)
    ensures Mask(r + ([QUOTE] + KeyedString(w1, w2, PrintItems(items), rest)))
         == r + ([QUOTE] + KeyedString(w1, w2, MaskText(|PrintItems(items)|), Mask(rest)))
    decreases |r|
  {
    hide Mask, PrintItems, KeyedString, KeyAtHead, ContentStart;
    var tail := KeyedString(w1, w2, PrintItems(items), rest);
    var after := [QUOTE] + KeyedString(w1, w2, MaskText(|PrintItems(items)|), Mask(rest));
    if |r| == 9 {
      MaskNamedHere(r, w1, w2, items, rest);
    } else {
      var t := r[1..] + ([QUOTE] + tail);
      assert r + ([QUOTE] + tail) == [r[0]] + t;
      HeadMatches(r, tail);
      assert ContentStart([r[0]] + t) == None by { NoKeyNoContent([r[0]] + t); }
      MaskPasses(r[0], t);
      assert r[1..][|r| - 9..] == r[|r| - 8..];
      MaskNamed(r[1..], w1, w2, items, rest);
      assert r + after == [r[0]] + (r[1..] + after);
    }
  }

  lemma NoKeyNoContent(s: seq<Byte>)
    requires !KeyAtHead(s)
    ensures ContentStart(s) == None
  {
  }

  predicate SlashBefore(p: seq<Byte>, k: nat) {
    1 <= k <= |p| && p[k - 1] == BACKSLASH
  }

  predicate SlashedQuotes(p: seq<Byte>) {
    forall k :: 0 <= k < |p| && p[k] == QUOTE ==> SlashBefore(p, k)
  }

  lemma ItemQuotes(it: Item)
    requires ValidItem(it)
    ensures SlashedQuotes(PrintItem(it))
  {
    if it.Unicode? {
      assert forall i :: 0 <= i < 4 ==> it.hex[i] != QUOTE;
    }
  }

  /** Every quote printed inside a literal has its backslash before it. */
  lemma {:induction false} PrintedQuotes(items: seq<Item>)
    requires ValidItems(items)
    ensures SlashedQuotes(PrintItems(items))
  {
    if items != [] {
      var h, t := PrintItem(items[0]), PrintItems(items[1..]);
      PrintedQuotes(items[1..]);
      forall k | 0 <= k < |h + t| && (h + t)[k] == QUOTE
        ensures SlashBefore(h + t, k)
      {
        if k >= |h| {
          assert t[k - |h|] == QUOTE && SlashBefore(t, k - |h|);
        } else {
          ItemQuotes(items[0]);
          assert h[k] == QUOTE && SlashBefore(h, k);
        }
      }
    }
  }

  lemma OpenedLiteral(items: seq<Item>)
    requires ValidItems(items)
    ensures QuotesEscaped([QUOTE] + PrintItems(items))
    ensures Match([QUOTE] + PrintItems(items)) <==> NamesDevice(PrintItems(items))
  {
    PrintedQuotes(items);
    var p := PrintItems(items);
    var r := [QUOTE] + p;
    forall k | 1 <= k < |r| && r[k] == QUOTE
      ensures r[k - 1] == BACKSLASH
    {
      assert p[k - 1] == QUOTE && SlashBefore(p, k - 1);
    }
    if |p| >= 8 {
      assert r[|r| - 8..] == p[|p| - 8..];
    }
  }

  // --------------------------------------------------------------------------------------
  // Values
  // --------------------------------------------------------------------------------------

  predicate Closer(t: seq<Byte>) {
    t != [] && (t[0] == COMMA || t[0] == RBRACE || t[0] == RBRACKET)
  }

  /** Behind a value: perhaps whitespace, then a comma or a bracket. */
  predicate Closes(t: seq<Byte>) {
    NoString(t) && NotKeyLike(t)
  }

  lemma ClosesOver(w: seq<Byte>, t: seq<Byte>)
    requires AllWs(w) && Closer(t)
    ensures Closes(w + t)
  {
    assert t == [t[0]] + t[1..];
    SpacesOver(w, t[0], t[1..]);
  }

  lemma MaskString(items: seq<Item>, tail: seq<Byte>)
    requires ValidItems(items) && Closes(tail)
    ensures Mask(PrintString(items) + tail) == PrintString(items) + Mask(tail)
  {
    hide Mask, PrintItems, Match, NamesDevice, NoString, QuotesEscaped;
    var r := [QUOTE] + PrintItems(items);
    OpenedLiteral(items);
    assert PrintString(items) + tail == r + ([QUOTE] + tail);
    MaskLiteral(r, tail);
    MaskClosing(tail);
    assert PrintString(items) + Mask(tail) == r + ([QUOTE] + Mask(tail));
  }

  lemma MaskWs(w: seq<Byte>, t: seq<Byte>)
    requires AllWs(w)
    ensures Mask(w + t) == w + Mask(t)
  {
    hide Mask;
    MaskDull(w, t);
  }

  lemma MaskByteDull(b: Byte, t: seq<Byte>)
    requires b != QUOTE
    ensures Mask([b] + t) == [b] + Mask(t)
  {
    hide Mask;
    MaskDull([b], t);
  }

  lemma {:induction false} MaskValue(v: Value, tail: seq<Byte>)
    requires Valid(v) && (v.Text? ==> Closes(tail))
    ensures Mask(Print(v) + tail) == Print(Redacted(v)) + Mask(tail)
    decreases v, 0
  {
    hide Mask, Closes, PrintString;
    match v {
      case Null => MaskDull(NULL_TEXT, tail);
      case True => MaskDull(TRUE_TEXT, tail);
      case False => MaskDull(FALSE_TEXT, tail);
      case Number(text) => MaskDull(text, tail);
      case Text(items) => MaskString(items, tail);
      case Array(blank, elements) =>
        MaskElements(elements, true, [RBRACKET] + tail);
        MaskContainer(LBRACKET, blank, PrintElements(elements, true), PrintElements(RedactedElements(elements), true),
                      RBRACKET, tail);
      case Object(blank, members) =>
        MaskMembers(members, true, [RBRACE] + tail);
        MaskContainer(LBRACE, blank, PrintMembers(members, true), PrintMembers(RedactedMembers(members), true),
                      RBRACE, tail);
    }
  }

  lemma MaskContainer(left: Byte, blank: seq<Byte>, s: seq<Byte>, z: seq<Byte>, right: Byte, tail: seq<Byte>)
    requires left != QUOTE && right != QUOTE && AllWs(blank)
    requires Mask(s + ([right] + tail)) == z + Mask([right] + tail)
    ensures Mask([left] + blank + s + [right] + tail) == [left] + blank + z + [right] + Mask(tail)
  {
    hide Mask;
    var t := s + ([right] + tail);
    assert [left] + blank + s + [right] + tail == [left] + (blank + t);
    MaskByteDull(left, blank + t);
    MaskWs(blank, t);
    MaskByteDull(right, tail);
    assert [left] + blank + z + [right] + Mask(tail) == [left] + (blank + (z + ([right] + Mask(tail))));
  }

  lemma {:induction false} MaskElements(es: seq<Element>, first: bool, tail: seq<Byte>)
    requires ValidElements(es) && Closer(tail)
    ensures Mask(PrintElements(es, first) + tail) == PrintElements(RedactedElements(es), first) + Mask(tail)
    decreases es, 1
  {
    hide Mask, Closes;
    if es == [] {
      assert PrintElements(es, first) + tail == tail && PrintElements([], first) + Mask(tail) == Mask(tail);
    } else {
      var comma := if first then [] else [COMMA];
      var e := es[0];
      var rest := PrintElements(es[1..], false) + tail;
      var done := PrintElements(RedactedElements(es[1..]), false) + Mask(tail);
      assert RedactedElements(es)[1..] == RedactedElements(es[1..]);
      MaskElements(es[1..], false, tail);
      MaskWs(e.after, rest);
      assert Closer(rest) by {
        if es[1..] == [] {
          assert rest == tail;
        } else {
          assert rest[0] == COMMA;
        }
      }
      ClosesOver(e.after, rest);
      MaskValue(e.value, e.after + rest);
      MaskWs(e.before, Print(e.value) + (e.after + rest));
      MaskDull(comma, e.before + (Print(e.value) + (e.after + rest)));
      Chain(comma, e.before, Print(e.value), e.after, PrintElements(es[1..], false), tail);
      Chain(comma, e.before, Print(Redacted(e.value)), e.after, PrintElements(RedactedElements(es[1..]), false), Mask(tail));
    }
  }

  lemma Chain(a: seq<Byte>, b: seq<Byte>, c: seq<Byte>, d: seq<Byte>, e: seq<Byte>, tail: seq<Byte>)
    ensures a + (b + (c + (d + e))) + tail == a + (b + (c + (d + (e + tail))))
  {
    assert d + e + tail == d + (e + tail);
    assert c + (d + e) + tail == c + (d + e + tail);
    assert b + (c + (d + e)) + tail == b + (c + (d + e) + tail);
    assert a + (b + (c + (d + e))) + tail == a + (b + (c + (d + e)) + tail);
  }

  /** A member once its value has been seen to. */
  function RedactedMember(m: Member): Member {
    m.(value := if m.value.Text? && NamesDevice(PrintItems(m.key)) then Value.Text(Masked(m.value.items)) else Redacted(m.value))
  }

  lemma MembersUnroll(ms: seq<Member>, first: bool, tail: seq<Byte>)
    requires ms != []
    ensures PrintMembers(ms, first) + tail
         == (if first then [] else [COMMA]) + (PrintMember(ms[0]) + (PrintMembers(ms[1..], false) + tail))
    ensures RedactedMembers(ms)[0] == RedactedMember(ms[0]) && RedactedMembers(ms)[1..] == RedactedMembers(ms[1..])
    ensures ms[1..] != [] ==> Closer(PrintMembers(ms[1..], false))
  {
    hide PrintMember, NamesDevice, Masked;
    var comma, m, r := if first then [] else [COMMA], PrintMember(ms[0]), PrintMembers(ms[1..], false);
    assert comma + (m + r) + tail == comma + (m + (r + tail));
  }

  lemma {:induction false} MaskMembers(ms: seq<Member>, first: bool, tail: seq<Byte>)
    requires ValidMembers(ms) && Closer(tail)
    ensures Mask(PrintMembers(ms, first) + tail) == PrintMembers(RedactedMembers(ms), first) + Mask(tail)
    decreases ms, 1
  {
    if ms == [] {
      NoMembers(first, tail);
      NoMembers(first, Mask(tail));
    } else {
      hide Mask, Closes, PrintMembers, PrintMember, RedactedMembers, NamesDevice, Redacted, Print;
      var comma := if first then [] else [COMMA];
      var m := ms[0];
      var rest := PrintMembers(ms[1..], false) + tail;
      MembersUnroll(ms, first, tail);
      MembersUnroll(RedactedMembers(ms), first, Mask(tail));
      MaskMembers(ms[1..], false, tail);
      assert Closer(rest) by {
        if ms[1..] == [] {
          NoMembers(false, tail);
        }
      }
      ClosesOver(m.after, rest);
      MaskValue(m.value, m.after + rest);
      MaskMember(m, rest);
      MaskDull(comma, PrintMember(m) + rest);
    }
  }

  lemma NoMembers(first: bool, tail: seq<Byte>)
    ensures PrintMembers([], first) + tail == tail && RedactedMembers([]) == []
  {
  }

  lemma MaskMember(m: Member, rest: seq<Byte>)
    requires ValidMember(m)
    requires if m.value.Text? && NamesDevice(PrintItems(m.key)) then true
             else Mask(Print(m.value) + (m.after + rest)) == Print(Redacted(m.value)) + Mask(m.after + rest)
    ensures Mask(PrintMember(m) + rest) == PrintMember(RedactedMember(m)) + Mask(rest)
  {
    hide Mask, Print, NamesDevice, PrintItems, Redacted, PrintString;
    var key := PrintString(m.key);
    var n := RedactedMember(m);
    MaskWs(m.after, rest);
    if m.value.Text? && NamesDevice(PrintItems(m.key)) {
      MaskNamedMember(m, m.value.items, rest);
    } else {
      MaskOtherMember(m, m.after + rest);
    }
    var x := m.afterKey + ([COLON] + (m.beforeValue + (Print(m.value) + (m.after + rest))));
    var y := m.afterKey + ([COLON] + (m.beforeValue + (Print(n.value) + (m.after + Mask(rest)))));
    assert Mask(key + x) == key + y;
    MaskWs(m.before, key + x);
    MemberChain(m, m.value, rest);
    MemberChain(m, n.value, Mask(rest));
    assert PrintMember(n) == PrintMember(m.(value := n.value));
  }

  lemma MemberChain(m: Member, v: Value, tail: seq<Byte>)
    ensures PrintMember(m.(value := v)) + tail
         == m.before + (PrintString(m.key) + (m.afterKey + ([COLON] + (m.beforeValue + (Print(v) + (m.after + tail))))))
  {
    hide Print, PrintString;
    var k, p := PrintString(m.key), Print(v);
    var u := m.beforeValue + (p + m.after);
    Chain(m.before, k, m.afterKey, [COLON], u, tail);
    assert u + tail == m.beforeValue + (p + (m.after + tail));
  }

  lemma MaskNamedMember(m: Member, items: seq<Item>, rest: seq<Byte>)
    requires ValidMember(m) && m.value == Value.Text(items) && NamesDevice(PrintItems(m.key))
    requires Mask(m.after + rest) == m.after + Mask(rest)
    ensures Mask(PrintString(m.key) + (m.afterKey + ([COLON] + (m.beforeValue + (Print(m.value) + (m.after + rest))))))
         == PrintString(m.key)
            + (m.afterKey + ([COLON] + (m.beforeValue + (Print(Value.Text(Masked(items))) + (m.after + Mask(rest))))))
  {
    hide Mask, PrintItems, Match, NamesDevice, QuotesEscaped, MaskText;
    var r := [QUOTE] + PrintItems(m.key);
    var raw, mask := PrintItems(items), MaskText(|PrintItems(items)|);
    OpenedLiteral(m.key);
    MaskNamed(r, m.afterKey, m.beforeValue, items, m.after + rest);
    PlainItemsPrint(mask);
    QuotedChain(m.key, m.afterKey, m.beforeValue, raw, m.after + rest);
    QuotedChain(m.key, m.afterKey, m.beforeValue, mask, m.after + Mask(rest));
    assert Print(m.value) == [QUOTE] + raw + [QUOTE];
    assert Print(Value.Text(Masked(items))) == [QUOTE] + mask + [QUOTE];
  }

  lemma QuotedChain(key: seq<Item>, w1: seq<Byte>, w2: seq<Byte>, content: seq<Byte>, rest: seq<Byte>)
    ensures [QUOTE] + PrintItems(key) + ([QUOTE] + KeyedString(w1, w2, content, rest))
         == PrintString(key) + (w1 + ([COLON] + (w2 + ([QUOTE] + content + [QUOTE] + rest))))
  {
    hide PrintItems;
    assert [QUOTE] + content + [QUOTE] + rest == [QUOTE] + (content + ([QUOTE] + rest));
    var x := KeyedString(w1, w2, content, rest);
    assert [QUOTE] + PrintItems(key) + ([QUOTE] + x) == [QUOTE] + PrintItems(key) + [QUOTE] + x;
  }

  lemma MaskOtherMember(m: Member, behind: seq<Byte>)
    requires ValidMember(m) && !(m.value.Text? && NamesDevice(PrintItems(m.key)))
    requires Mask(Print(m.value) + behind) == Print(Redacted(m.value)) + Mask(behind)
    ensures Mask(PrintString(m.key) + (m.afterKey + ([COLON] + (m.beforeValue + (Print(m.value) + behind)))))
         == PrintString(m.key)
            + (m.afterKey + ([COLON] + (m.beforeValue + (Print(Redacted(m.value)) + Mask(behind)))))
  {
    hide Mask, PrintItems, Match, NamesDevice, QuotesEscaped, NoString, Print, Redacted;
    var r := [QUOTE] + PrintItems(m.key);
    var t := m.beforeValue + (Print(m.value) + behind);
    var x := m.afterKey + ([COLON] + t);
    OpenedLiteral(m.key);
    assert PrintString(m.key) + x == r + ([QUOTE] + x);
    if !m.value.Text? {
      NoStringAhead(m, behind);
    }
    MaskLiteral(r, x);
    assert NotKeyLike(x) by {
      if m.afterKey == [] {
        assert x == [COLON] + t;
      } else {
        assert x[0] == m.afterKey[0];
      }
    }
    MaskClosing(x);
    MaskWs(m.afterKey, [COLON] + t);
    MaskByteDull(COLON, t);
    MaskWs(m.beforeValue, Print(m.value) + behind);
    assert r + ([QUOTE] + Mask(x)) == PrintString(m.key) + Mask(x);
  }

  lemma NoStringAhead(m: Member, behind: seq<Byte>)
    requires ValidMember(m) && !m.value.Text?
    ensures NoString(m.afterKey + ([COLON] + (m.beforeValue + (Print(m.value) + behind))))
  {
    var p := Print(m.value) + behind;
    var t := m.beforeValue + p;
    var x := m.afterKey + ([COLON] + t);
    assert Print(m.value) != [] && Print(m.value)[0] != QUOTE && !IsWs(Print(m.value)[0]);
    assert p == [p[0]] + p[1..] && p[0] == Print(m.value)[0];
    SpacesOver(m.afterKey, COLON, t);
    SpacesOver(m.beforeValue, p[0], p[1..]);
    assert x[|m.afterKey| + 1..] == t;
  }

  /**
   * Masking the printed text is printing the masked value: nothing but the content of the named
   * members' strings changes, and no string that is not such a value is ever mistaken for one.
   */
  lemma MaskCommutes(v: Value)
    requires v.Object? && Valid(v)
    ensures Mask(Print(v)) == Print(Redacted(v))
  {
    hide Mask, Print, Redacted;
    MaskValue(v, []);
    assert Print(v) + [] == Print(v);
    assert Mask([]) == [];
    assert Print(Redacted(v)) + [] == Print(Redacted(v));
  }
}
