/**
 * Which texts decode, both ways: exactly the objects whose members are separated by commas, each a
 * string, a colon and a value, where a known section is an object of the same kind.
 */
module Accepted {
  import opened Bytes
  import opened Json
  import opened Text
  import opened Numbers
  import opened Message
  import opened Reader
  import opened Decode
  import opened DecodeJson
  import opened Grammar

  /** Whose members they are: a message's, a response's, or a section's. */
  datatype Place = OfMessage | OfResponse | OfSection

  /** The members whose value, if it is an object, is read as a section. */
  predicate Opens(place: Place, key: seq<Byte>) {
    match place
    case OfMessage => Lookup(ROOT_KEYS, key).Some? && Lookup(ROOT_KEYS, key).value.0 in {BallDataKey, ClubDataKey, OptionsKey}
    case OfResponse => Lookup(RESPONSE_KEYS, key).Some? && Lookup(RESPONSE_KEYS, key).value.0 == PlayerKey
    case OfSection => false
  }

  // --------------------------------------------------------------------------------------
  // The grammar
  // --------------------------------------------------------------------------------------

  /** A member, with the comma that goes before it unless it is the first, and what follows it. */
  datatype Row = Row(gap: seq<Byte>, before: seq<Byte>, key: seq<Item>, afterKey: seq<Byte>, beforeValue: seq<Byte>,
                     value: seq<Byte>, rest: seq<Byte>)

  predicate BlankRow(r: Row) {
    AllWs(r.gap) && AllWs(r.before) && AllWs(r.afterKey) && AllWs(r.beforeValue)
  }

  /** From the value on. */
  function Behind(r: Row): seq<Byte> {
    r.beforeValue + (r.value + r.rest)
  }

  predicate IsRow(s: seq<Byte>, first: bool, r: Row): (b: bool)
    ensures b ==> |r.value| < |s| && |r.rest| < |s| && ValidItems(r.key)
  {
    && BlankRow(r) && ValidItems(r.key)
    && s == (if first then [] else r.gap + [COMMA]) + (r.before + (PrintString(r.key) + (r.afterKey + ([COLON] + Behind(r)))))
  }

  /** The name as far as it is kept. */
  function NameOf(r: Row): seq<Byte>
    requires ValidItems(r.key)
  {
    CStr(Field(64, Meaning(r.key)))
  }

  /** From behind the opening brace of an object to just behind its closing one. */
  ghost predicate Rows(lib: NumLib, place: Place, s: seq<Byte>, first: bool)
    decreases |s|
  {
    || (s != [] && s[|s| - 1] == RBRACE && AllWs(s[..|s| - 1]))
    || exists r :: IsRow(s, first, r) && RowValue(lib, place, r) && Rows(lib, place, r.rest, false)
  }

  ghost predicate RowValue(lib: NumLib, place: Place, r: Row)
    requires ValidItems(r.key)
    decreases |r.value|
  {
    if Opens(place, NameOf(r)) && r.value != [] && r.value[0] == LBRACE then Rows(lib, OfSection, r.value[1..], true)
    else IsValue(lib, r.value)
  }

  /** An object, with whitespace around it. */
  ghost predicate IsObject(lib: NumLib, place: Place, s: seq<Byte>) {
    exists w, rows, behind :: AllWs(w) && AllWs(behind) && s == w + ([LBRACE] + (rows + behind)) && Rows(lib, place, rows, true)
  }

  // --------------------------------------------------------------------------------------
  // Getting past it
  // --------------------------------------------------------------------------------------

  /** What is left behind the members, whatever becomes of their values. */
  function Past(lib: NumLib, place: Place, s: seq<Byte>, first: bool): (r: Option<seq<Byte>>)
    ensures r.Some? ==> |r.value| < |s|
    decreases |s|
  {
    match NextMember(s, first)
    case BadMember => None
    case End(rest) => Some(rest)
    case Named(key, u) =>
      match PastValue(lib, place, key, u)
      case None => None
      case Some(rest) => Past(lib, place, rest, false)
  }

  function PastValue(lib: NumLib, place: Place, key: seq<Byte>, u: seq<Byte>): (r: Option<seq<Byte>>)
    ensures r.Some? ==> |r.value| < |u|
    decreases |u|
  {
    match if Opens(place, key) then OpenSection(u) else None
    case Some(body) => Past(lib, OfSection, body, true)
    case None => SkipValue(lib, u)
  }

  /** The members' readers go as far as the skipper and no further. */
  lemma ReadersSkip(lib: NumLib, s: seq<Byte>, size: nat)
    requires size > 0
    ensures var g := NumberMember(lib, s); SkipValue(lib, s) == if g.Malformed? then None else Some(g.rest)
    ensures var g := BoolMember(lib, s); SkipValue(lib, s) == if g.Malformed? then None else Some(g.rest)
    ensures var g := StringMember(lib, s, size); SkipValue(lib, s) == if g.Malformed? then None else Some(g.rest)
  {
    hide ReadNumber, ReadString, ReadLiteral, SkipFrom, SkipWs, CStr, Field, CiEqual, Ascii;
  }

  lemma {:induction false} NumbersPast<F>(lib: NumLib, tab: seq<Key<F>>, s: seq<Byte>, first: bool, t: Tally<F, Double>)
    ensures var r := NumericMembers(lib, tab, s, first, t);
            Past(lib, OfSection, s, first) == if r.Some? then Some(r.value.1) else None
    decreases |s|
  {
    hide NextMember, NumberMember, SkipValue, Lookup;
    match NextMember(s, first) {
      case BadMember =>
      case End(_) =>
      case Named(key, u) =>
        ReadersSkip(lib, u, 1);
        match Lookup(tab, key) {
          case None =>
            if SkipValue(lib, u).Some? {
              NumbersPast(lib, tab, SkipValue(lib, u).value, false, t.(unknown := CountUnknown(t.unknown)));
            }
          case Some((id, mismatch)) =>
            var g := NumberMember(lib, u);
            if !g.Malformed? {
              NumbersPast(lib, tab, g.rest, false, Enter(t, id, mismatch, g));
            }
        }
    }
  }

  lemma {:induction false} OptionsPast(lib: NumLib, s: seq<Byte>, first: bool, t: Tally<OptionField, bool>)
    ensures var r := OptionMembers(lib, s, first, t);
            Past(lib, OfSection, s, first) == if r.Some? then Some(r.value.1) else None
    decreases |s|
  {
    hide NextMember, BoolMember, SkipValue, Lookup;
    match NextMember(s, first) {
      case BadMember =>
      case End(_) =>
      case Named(key, u) =>
        ReadersSkip(lib, u, 1);
        match Lookup(OPTION_KEYS, key) {
          case None =>
            if SkipValue(lib, u).Some? {
              OptionsPast(lib, SkipValue(lib, u).value, false, t.(unknown := CountUnknown(t.unknown)));
            }
          case Some((id, mismatch)) =>
            var g := BoolMember(lib, u);
            if !g.Malformed? {
              OptionsPast(lib, g.rest, false, Enter(t, id, mismatch, g));
            }
        }
    }
  }

  lemma RootValuePast(lib: NumLib, id: RootKey, key: seq<Byte>, u: seq<Byte>, d: Draft)
    requires Lookup(ROOT_KEYS, key).Some? && Lookup(ROOT_KEYS, key).value.0 == id
    ensures var r := RootValue(lib, id, u, d);
            PastValue(lib, OfMessage, key, u) == if r.Some? then Some(r.value.1) else None
  {
    hide NumberMember, StringMember, SkipValue, Lookup, OpenSection, NumericMembers, OptionMembers, Past, ClampInt64, IsIntegral;
    ReadersSkip(lib, u, 64);
    ReadersSkip(lib, u, 16);
    ReadersSkip(lib, u, 8);
    var body := OpenSection(u);
    if body.Some? {
      NumbersPast(lib, BALL_KEYS, body.value, true, Tally(d.ball, d.flags, d.unknown));
      NumbersPast(lib, CLUB_KEYS, body.value, true, Tally(d.club, d.flags, d.unknown));
      OptionsPast(lib, body.value, true, Tally(d.options, d.flags, d.unknown));
    }
  }

  lemma {:induction false} RootPast(lib: NumLib, s: seq<Byte>, first: bool, d: Draft)
    ensures var r := RootMembers(lib, s, first, d);
            Past(lib, OfMessage, s, first) == if r.Some? then Some(r.value.1) else None
    decreases |s|
  {
    hide NextMember, RootValue, SkipValue, Lookup, OpenSection;
    match NextMember(s, first) {
      case BadMember =>
      case End(_) =>
      case Named(key, u) =>
        match Lookup(ROOT_KEYS, key) {
          case None =>
            if SkipValue(lib, u).Some? {
              RootPast(lib, SkipValue(lib, u).value, false, d.(unknown := CountUnknown(d.unknown)));
            }
          case Some((id, mismatch)) =>
            var d1 := d.(flags := Noted(d.flags, mismatch, KeyCaseMismatch));
            RootValuePast(lib, id, key, u, d1);
            var r := RootValue(lib, id, u, d1);
            if r.Some? {
              RootPast(lib, r.value.1, false, r.value.0);
            }
        }
    }
  }

  lemma {:induction false} PlayerPast(lib: NumLib, s: seq<Byte>, first: bool, p: PlayerInfo)
    ensures var r := PlayerMembers(lib, s, first, p);
            Past(lib, OfSection, s, first) == if r.Some? then Some(r.value.1) else None
    decreases |s|
  {
    hide NextMember, NumberMember, StringMember, SkipValue, Lookup, HandedParse, ClubParse;
    match NextMember(s, first) {
      case BadMember =>
      case End(_) =>
      case Named(key, u) =>
        ReadersSkip(lib, u, CODE_TEXT_MAX);
        ReadersSkip(lib, u, SURFACE_MAX);
        match Lookup(PLAYER_KEYS, key) {
          case None =>
            if SkipValue(lib, u).Some? {
              PlayerPast(lib, SkipValue(lib, u).value, false, p);
            }
          case Some((id, _)) =>
            var r := PlayerValue(lib, id, u, p);
            if r.Some? {
              PlayerPast(lib, r.value.1, false, r.value.0);
            }
        }
    }
  }

  lemma {:induction false} ResponsePast(lib: NumLib, s: seq<Byte>, first: bool, q: Response)
    ensures var r := ResponseMembers(lib, s, first, q);
            Past(lib, OfResponse, s, first) == if r.Some? then Some(r.value.1) else None
    decreases |s|
  {
    hide NextMember, NumberMember, StringMember, SkipValue, Lookup, OpenSection, PlayerMembers, ClampInt32;
    match NextMember(s, first) {
      case BadMember =>
      case End(_) =>
      case Named(key, u) =>
        ReadersSkip(lib, u, RESPONSE_TEXT_MAX);
        match Lookup(RESPONSE_KEYS, key) {
          case None =>
            if SkipValue(lib, u).Some? {
              ResponsePast(lib, SkipValue(lib, u).value, false, q);
            }
          case Some((id, _)) =>
            if OpenSection(u).Some? {
              PlayerPast(lib, OpenSection(u).value, true, q.player);
            }
            var r := ResponseValue(lib, id, u, q);
            if r.Some? {
              ResponsePast(lib, r.value.1, false, r.value.0);
            }
        }
    }
  }

  // --------------------------------------------------------------------------------------
  // What is got past is an object
  // --------------------------------------------------------------------------------------

  /** What an octet accepted leaves. */
  lemma Accepts(s: seq<Byte>, c: Byte)
    ensures Accept(s, c).Some? ==> s == Lead(s) + ([c] + Accept(s, c).value)
    ensures Accept(s, c).Some? <==> SkipWs(s) != [] && SkipWs(s)[0] == c
  {
    var t := SkipWs(s);
    if t != [] && t[0] == c {
      assert t == [c] + t[1..];
    }
  }

  /** A member read is a row as far as its colon; `v` is its value and `rest` what follows. */
  lemma NextReads(s: seq<Byte>, first: bool, v: seq<Byte>, rest: seq<Byte>) returns (r: Row)
    requires NextMember(s, first).Named?
    requires var u := NextMember(s, first).rest; u == Lead(u) + (v + rest)
    ensures IsRow(s, first, r) && r.value == v && r.rest == rest && NameOf(r) == NextMember(s, first).key
  {
    hide ReadString, PrintString, Meaning, CStr, Field, SkipWs, Accept;
    var t := if first then s else Accept(s, COMMA).value;
    Accepts(s, COMMA);
    var items := StringSpelled(t);
    var u := ReadString(t).value.1;
    Accepts(u, COLON);
    var w := Accept(u, COLON).value;
    r := Row(Lead(s), Lead(t), items, Lead(u), Lead(w), v, rest);
    assert w == Behind(r);
    assert u == r.afterKey + ([COLON] + Behind(r));
    assert t == r.before + (PrintString(items) + (r.afterKey + ([COLON] + Behind(r))));
    if first {
      assert s == [] + t;
    } else {
      assert s == r.gap + ([COMMA] + t);
      assert r.gap + ([COMMA] + t) == r.gap + [COMMA] + t;
    }
  }

  lemma Ended(lib: NumLib, place: Place, w: seq<Byte>, first: bool)
    requires AllWs(w)
    ensures Rows(lib, place, w + [RBRACE], first)
  {
    assert (w + [RBRACE])[..|w|] == w;
  }

  lemma OneRow(lib: NumLib, place: Place, s: seq<Byte>, first: bool, r: Row)
    requires IsRow(s, first, r) && RowValue(lib, place, r) && Rows(lib, place, r.rest, false)
    ensures Rows(lib, place, s, first)
  {
  }

  /** A section is opened exactly at a brace. */
  lemma SectionOpens(u: seq<Byte>)
    ensures OpenSection(u) == Accept(u, LBRACE)
  {
  }

  /** A row cut off behind its value's member, and what follows left for later. */
  lemma RowCut(s: seq<Byte>, first: bool, r: Row, t: seq<Byte>, rest: seq<Byte>)
    requires IsRow(s, first, r) && r.rest == t + rest
    ensures |s| >= |rest| && IsRow(s[..|s| - |rest|], first, r.(rest := t)) && s == s[..|s| - |rest|] + rest
  {
    hide PrintString;
    var q := r.(rest := t);
    var head := (if first then [] else r.gap + [COMMA]);
    assert Behind(r) == Behind(q) + rest;
    var body := head + (q.before + (PrintString(q.key) + (q.afterKey + ([COLON] + Behind(q)))));
    assert s == body + rest;
    assert s[..|s| - |rest|] == body;
  }

  /** Members got past are the rows of an object. */
  lemma {:induction false} PastReads(lib: NumLib, place: Place, s: seq<Byte>, first: bool)
    requires Past(lib, place, s, first).Some?
    ensures var n := |s| - |Past(lib, place, s, first).value|;
            s == s[..n] + Past(lib, place, s, first).value && Rows(lib, place, s[..n], first)
    decreases |s|
  {
    hide NextMember, SkipValue, Rows, RowValue, IsRow, OpenSection, Opens, IsValue, Lead, SkipWs, Accept;
    var rest := Past(lib, place, s, first).value;
    var n := |s| - |rest|;
    match NextMember(s, first) {
      case End(_) =>
        NextEnds(s, first);
        Accepts(s, RBRACE);
        assert s == (Lead(s) + [RBRACE]) + rest;
        assert s[..n] == Lead(s) + [RBRACE];
        Ended(lib, place, Lead(s), first);
      case Named(key, u) =>
        var more := PastValue(lib, place, key, u).value;
        PastReads(lib, place, more, false);
        var t := more[..|more| - |rest|];
        var v := ValueReads(lib, place, key, u);
        var r := NextReads(s, first, v, more);
        RowReads(lib, place, key, u, v, r);
        RowCut(s, first, r, t, rest);
        SameValue(lib, place, r, t);
        OneRow(lib, place, s[..n], first, r.(rest := t));
    }
  }

  lemma NextEnds(s: seq<Byte>, first: bool)
    requires NextMember(s, first).End?
    ensures Accept(s, RBRACE) == Some(NextMember(s, first).rest)
  {
  }

  lemma SameValue(lib: NumLib, place: Place, r: Row, t: seq<Byte>)
    requires ValidItems(r.key) && RowValue(lib, place, r)
    ensures RowValue(lib, place, r.(rest := t))
  {
    hide Rows, IsValue, Opens;
  }

  /** The value got past, whichever kind it is. */
  lemma {:induction false} ValueReads(lib: NumLib, place: Place, key: seq<Byte>, u: seq<Byte>) returns (v: seq<Byte>)
    requires PastValue(lib, place, key, u).Some?
    ensures u == Lead(u) + (v + PastValue(lib, place, key, u).value)
    ensures if Opens(place, key) && v != [] && v[0] == LBRACE then Rows(lib, OfSection, v[1..], true) else IsValue(lib, v)
    decreases |u|
  {
    hide SkipValue, Rows, Opens, IsValue, OpenSection, Lead, SkipWs, Accept;
    var more := PastValue(lib, place, key, u).value;
    SectionOpens(u);
    Accepts(u, LBRACE);
    if Opens(place, key) && OpenSection(u).Some? {
      var body := OpenSection(u).value;
      PastReads(lib, OfSection, body, true);
      var rows := body[..|body| - |more|];
      v := [LBRACE] + rows;
      assert v[1..] == rows;
      assert [LBRACE] + (rows + more) == ([LBRACE] + rows) + more;
    } else {
      v := ValuePassed(lib, u);
      if v != [] && v[0] == LBRACE {
        LeadThen(u, v + more);
        assert (v + more)[0] == LBRACE;
      }
    }
  }

  lemma LeadThen(u: seq<Byte>, t: seq<Byte>)
    requires u == Lead(u) + t
    ensures t == SkipWs(u)
  {
  }

  lemma RowReads(lib: NumLib, place: Place, key: seq<Byte>, u: seq<Byte>, v: seq<Byte>, r: Row)
    requires ValidItems(r.key) && NameOf(r) == key && r.value == v
    requires if Opens(place, key) && v != [] && v[0] == LBRACE then Rows(lib, OfSection, v[1..], true) else IsValue(lib, v)
    ensures RowValue(lib, place, r)
  {
    hide Rows, IsValue, Opens, NameOf;
  }

  // --------------------------------------------------------------------------------------
  // And every object is got past
  // --------------------------------------------------------------------------------------

  /** What follows a value does not go on with a number. */
  lemma RowsBegin(lib: NumLib, place: Place, s: seq<Byte>, tail: seq<Byte>)
    requires Rows(lib, place, s, false)
    ensures Boundary(s + tail)
  {
    hide RowValue, PrintString, Rows;
    RowsSplit(lib, place, s, false);
    if s[|s| - 1] == RBRACE && AllWs(s[..|s| - 1]) {
      assert s[0] == RBRACE || s[0] == s[..|s| - 1][0];
    } else {
      var r :| IsRow(s, false, r) && RowValue(lib, place, r) && Rows(lib, place, r.rest, false);
      assert s[0] == (r.gap + [COMMA])[0];
    }
  }

  lemma RowsSplit(lib: NumLib, place: Place, s: seq<Byte>, first: bool)
    requires Rows(lib, place, s, first)
    ensures s != []
    ensures (s[|s| - 1] == RBRACE && AllWs(s[..|s| - 1]))
            || exists r :: IsRow(s, first, r) && RowValue(lib, place, r) && Rows(lib, place, r.rest, false)
  {
  }

  /** A row's member is read, whatever follows the rows. */
  lemma RowNext(s: seq<Byte>, first: bool, r: Row, tail: seq<Byte>)
    requires IsRow(s, first, r)
    ensures NextMember(s + tail, first) == Named(NameOf(r), r.beforeValue + (r.value + (r.rest + tail)))
  {
    hide ReadString, PrintString, Meaning, CStr, Field, SkipWs, Accept;
    var behind := r.beforeValue + (r.value + (r.rest + tail));
    assert Behind(r) + tail == behind;
    var u := r.afterKey + ([COLON] + behind);
    assert (r.afterKey + ([COLON] + Behind(r))) + tail == u;
    var k := PrintString(r.key) + u;
    var t := r.before + k;
    assert (r.before + (PrintString(r.key) + (r.afterKey + ([COLON] + Behind(r))))) + tail == t;
    AcceptPrinted(r.afterKey, COLON, behind);
    ReadStringPrinted(r.before, r.key, u);
    assert k[0] == QUOTE by { QuoteFirst(r.key, u); }
    if first {
      assert s + tail == t;
      AcceptOther(r.before, k, RBRACE);
    } else {
      assert s + tail == r.gap + ([COMMA] + t);
      AcceptOther(r.gap, [COMMA] + t, RBRACE);
      AcceptPrinted(r.gap, COMMA, t);
    }
  }

  lemma QuoteFirst(items: seq<Item>, u: seq<Byte>)
    ensures PrintString(items) + u != [] && (PrintString(items) + u)[0] == QUOTE
  {
  }

  /** The rows of an object are got past, whatever follows. */
  lemma {:induction false} RowsPast(lib: NumLib, place: Place, s: seq<Byte>, tail: seq<Byte>, first: bool)
    requires Rows(lib, place, s, first)
    ensures Past(lib, place, s + tail, first) == Some(tail)
    decreases |s|, 1
  {
    hide NextMember, SkipValue, Rows, RowValue, OpenSection, Opens, IsValue, Lead, SkipWs, Accept, PastValue, IsRow;
    RowsSplit(lib, place, s, first);
    if s[|s| - 1] == RBRACE && AllWs(s[..|s| - 1]) {
      var w := s[..|s| - 1];
      assert s + tail == w + ([RBRACE] + tail);
      AcceptPrinted(w, RBRACE, tail);
      EndsNext(s + tail, first);
    } else {
      var r :| IsRow(s, first, r) && RowValue(lib, place, r) && Rows(lib, place, r.rest, false);
      RowNext(s, first, r, tail);
      RowFields(s, first, r);
      RowValuePast(lib, place, r, tail);
      RowsPast(lib, place, r.rest, tail, false);
    }
  }

  lemma EndsNext(s: seq<Byte>, first: bool)
    requires Accept(s, RBRACE).Some?
    ensures NextMember(s, first) == End(Accept(s, RBRACE).value)
  {
  }

  lemma RowFields(s: seq<Byte>, first: bool, r: Row)
    requires IsRow(s, first, r)
    ensures ValidItems(r.key) && AllWs(r.beforeValue) && |r.rest| < |s| && |r.value| < |s|
  {
  }

  lemma {:induction false} RowValuePast(lib: NumLib, place: Place, r: Row, tail: seq<Byte>)
    requires ValidItems(r.key) && AllWs(r.beforeValue) && RowValue(lib, place, r) && Rows(lib, place, r.rest, false)
    ensures PastValue(lib, place, NameOf(r), r.beforeValue + (r.value + (r.rest + tail))) == Some(r.rest + tail)
    decreases |r.value|
  {
    hide SkipValue, Rows, OpenSection, Opens, IsValue, Lead, SkipWs, Accept, Past, NameOf;
    var more := r.rest + tail;
    var u := r.beforeValue + (r.value + more);
    SectionOpens(u);
    if Opens(place, NameOf(r)) && r.value != [] && r.value[0] == LBRACE {
      var rows := r.value[1..];
      assert r.value + more == [LBRACE] + (rows + more);
      AcceptPrinted(r.beforeValue, LBRACE, rows + more);
      RowsPast(lib, OfSection, rows, more, true);
    } else {
      RowsBegin(lib, place, r.rest, tail);
      ValueBegins(lib, r.value);
      ValueTaken(lib, r.beforeValue, r.value, more);
      if Opens(place, NameOf(r)) {
        assert (r.value + more)[0] == r.value[0];
        AcceptOther(r.beforeValue, r.value + more, LBRACE);
      }
    }
  }

  // --------------------------------------------------------------------------------------
  // Exactly
  // --------------------------------------------------------------------------------------

  lemma BlankLeft(s: seq<Byte>)
    ensures SkipWs(s) == [] <==> AllWs(s)
  {
    LeadIsWs(s);
    if SkipWs(s) == [] {
      assert s[..|s|] == s;
    } else {
      assert s == Lead(s) + SkipWs(s);
      assert s[|Lead(s)|] == SkipWs(s)[0];
    }
  }

  /** An object and nothing else is got past whole, exactly. */
  lemma ObjectPast(lib: NumLib, place: Place, s: seq<Byte>)
    ensures IsObject(lib, place, s) <==>
              && Accept(s, LBRACE).Some? && Past(lib, place, Accept(s, LBRACE).value, true).Some?
              && SkipWs(Past(lib, place, Accept(s, LBRACE).value, true).value) == []
  {
    hide Past, Rows, SkipWs, Accept, Lead;
    if IsObject(lib, place, s) {
      var w, rows, behind :| AllWs(w) && AllWs(behind) && s == w + ([LBRACE] + (rows + behind)) && Rows(lib, place, rows, true);
      AcceptPrinted(w, LBRACE, rows + behind);
      RowsPast(lib, place, rows, behind, true);
      BlankLeft(behind);
    }
    Accepts(s, LBRACE);
    if Accept(s, LBRACE).Some? {
      var body := Accept(s, LBRACE).value;
      if Past(lib, place, body, true).Some? {
        var behind := Past(lib, place, body, true).value;
        PastReads(lib, place, body, true);
        BlankLeft(behind);
        var rows := body[..|body| - |behind|];
        assert s == Lead(s) + ([LBRACE] + (rows + behind));
      }
    }
  }

  /** A text decodes as a message exactly if it is an object, as far as the decoder looks at it. */
  lemma MessageExactly(lib: NumLib, s: seq<Byte>)
    ensures DecodeMessage(lib, s).Some? <==> IsObject(lib, OfMessage, s)
  {
    hide RootMembers, Past, IsObject, Finish, SkipWs, Accept;
    ObjectPast(lib, OfMessage, s);
    if Accept(s, LBRACE).Some? {
      RootPast(lib, Accept(s, LBRACE).value, true, BLANK);
    }
  }

  /** And the same of a response. */
  lemma ResponseExactly(lib: NumLib, s: seq<Byte>)
    ensures DecodeResponse(lib, s).Some? <==> IsObject(lib, OfResponse, s)
  {
    hide ResponseMembers, Past, IsObject, SkipWs, Accept;
    ObjectPast(lib, OfResponse, s);
    if Accept(s, LBRACE).Some? {
      ResponsePast(lib, Accept(s, LBRACE).value, true, NO_RESPONSE);
    }
  }
}
