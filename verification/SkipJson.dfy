/** The structure skipper on well-formed JSON: a nested value is passed over whole, up to the depth bound. */
module SkipJson {
  import opened Bytes
  import opened Json
  import opened Reader

  function Outside(depth: nat): Skipper {
    Skipper(depth, false, false)
  }

  function InString(depth: nat): Skipper {
    Skipper(depth, true, false)
  }

  ghost predicate RunsBefore(k: Skipper, a: seq<Byte>, r: Option<Skipper>, rest: seq<Byte>) {
    SkipFrom(a + rest, k) == if r.Some? then SkipFrom(rest, r.value) else None
  }

  /** Over the bytes `a` the skipper goes from `k` to `r`, or gives up if `r` is `None`, whatever follows. */
  ghost predicate Runs(k: Skipper, a: seq<Byte>, r: Option<Skipper>) {
    forall rest: seq<Byte> :: RunsBefore(k, a, r, rest)
  }

  lemma RunsOn(k: Skipper, a: seq<Byte>, k2: Skipper, b: seq<Byte>, r: Option<Skipper>)
    requires Runs(k, a, Some(k2)) && Runs(k2, b, r)
    ensures Runs(k, a + b, r)
  {
    forall rest: seq<Byte>
      ensures RunsBefore(k, a + b, r, rest)
    {
      assert a + b + rest == a + (b + rest);
      assert RunsBefore(k, a, Some(k2), b + rest);
      assert RunsBefore(k2, b, r, rest);
    }
  }

  lemma RunsOut(k: Skipper, a: seq<Byte>, b: seq<Byte>)
    requires Runs(k, a, None)
    ensures Runs(k, a + b, None)
  {
    forall rest: seq<Byte>
      ensures RunsBefore(k, a + b, None, rest)
    {
      assert a + b + rest == a + (b + rest);
      assert RunsBefore(k, a, None, b + rest);
    }
  }

  /** The two ways of going on, in one. */
  lemma RunsThen(k: Skipper, a: seq<Byte>, fits: bool, k2: Skipper, b: seq<Byte>, r: Option<Skipper>)
    requires Runs(k, a, if fits then Some(k2) else None)
    requires fits ==> Runs(k2, b, r)
    ensures Runs(k, a + b, if fits then r else None)
  {
    if fits {
      RunsOn(k, a, k2, b, r);
    } else {
      RunsOut(k, a, b);
    }
  }

  lemma RunsByte(k: Skipper, c: Byte, k2: Skipper)
    requires SkipByte(k, c) == SkipOn(k2)
    ensures Runs(k, [c], Some(k2))
  {
    forall rest: seq<Byte>
      ensures RunsBefore(k, [c], Some(k2), rest)
    {
      assert ([c] + rest)[1..] == rest;
    }
  }

  lemma RunsNothing(k: Skipper)
    ensures Runs(k, [], Some(k))
  {
    forall rest: seq<Byte>
      ensures RunsBefore(k, [], Some(k), rest)
    {
      assert [] + rest == rest;
    }
  }

  predicate NestsNothing(b: Byte) {
    b != QUOTE && b != LBRACE && b != RBRACE && b != LBRACKET && b != RBRACKET
  }

  lemma {:induction false} DullRuns(depth: nat, s: seq<Byte>)
    requires forall i :: 0 <= i < |s| ==> NestsNothing(s[i])
    ensures Runs(Outside(depth), s, Some(Outside(depth)))
  {
    var k := Outside(depth);
    if s == [] {
      RunsNothing(k);
    } else {
      RunsByte(k, s[0], k);
      DullRuns(depth, s[1..]);
      RunsOn(k, [s[0]], k, s[1..], Some(k));
      assert s == [s[0]] + s[1..];
    }
  }

  lemma EscapedRuns(depth: nat, c: Byte)
    ensures Runs(InString(depth), [BACKSLASH, c], Some(InString(depth)))
  {
    var k := InString(depth);
    var e := Skipper(depth, true, true);
    RunsByte(k, BACKSLASH, e);
    RunsByte(e, c, k);
    RunsOn(k, [BACKSLASH], e, [c], Some(k));
    assert [BACKSLASH] + [c] == [BACKSLASH, c];
  }

  lemma {:induction false} PlainRuns(depth: nat, s: seq<Byte>)
    requires forall i :: 0 <= i < |s| ==> s[i] != QUOTE && s[i] != BACKSLASH
    ensures Runs(InString(depth), s, Some(InString(depth)))
  {
    var k := InString(depth);
    if s == [] {
      RunsNothing(k);
    } else {
      RunsByte(k, s[0], k);
      PlainRuns(depth, s[1..]);
      RunsOn(k, [s[0]], k, s[1..], Some(k));
      assert s == [s[0]] + s[1..];
    }
  }

  lemma {:induction false} ItemsRun(depth: nat, items: seq<Item>)
    requires ValidItems(items)
    ensures Runs(InString(depth), PrintItems(items), Some(InString(depth)))
  {
    var k := InString(depth);
    if items == [] {
      RunsNothing(k);
    } else {
      match items[0] {
        case Plain(b) => PlainRuns(depth, [b]);
        case Escape(c) => EscapedRuns(depth, c);
        case Unicode(hex) =>
          EscapedRuns(depth, LOWER_U);
          PlainRuns(depth, hex);
          RunsOn(k, [BACKSLASH, LOWER_U], k, hex, Some(k));
      }
      ItemsRun(depth, items[1..]);
      RunsOn(k, PrintItem(items[0]), k, PrintItems(items[1..]), Some(k));
    }
  }

  lemma StringRuns(depth: nat, items: seq<Item>)
    requires ValidItems(items)
    ensures Runs(Outside(depth), PrintString(items), Some(Outside(depth)))
  {
    var k, q := Outside(depth), InString(depth);
    RunsByte(k, QUOTE, q);
    ItemsRun(depth, items);
    RunsByte(q, QUOTE, k);
    RunsOn(k, [QUOTE], q, PrintItems(items), Some(q));
    RunsOn(k, [QUOTE] + PrintItems(items), q, [QUOTE], Some(k));
  }

  /** The skipper back at `depth`, unless `height` more levels are too many. */
  function Fits(depth: nat, height: nat): Option<Skipper> {
    if depth + height <= DEPTH_MAX then Some(Outside(depth)) else None
  }

  /** Between brackets, blank space and then the contents. */
  lemma BlankThen(depth: nat, blank: seq<Byte>, s: seq<Byte>, r: Option<Skipper>)
    requires AllWs(blank) && Runs(Outside(depth), s, r)
    ensures Runs(Outside(depth), blank + s, r)
  {
    DullRuns(depth, blank);
    RunsOn(Outside(depth), blank, Outside(depth), s, r);
  }

  lemma BracketsRun(depth: nat, left: Byte, body: seq<Byte>, right: Byte, height: nat)
    requires 0 < depth <= DEPTH_MAX
    requires left in [LBRACE, LBRACKET] && right in [RBRACE, RBRACKET]
    requires Runs(Outside(depth + 1), body, Fits(depth + 1, height)) || depth + 1 > DEPTH_MAX
    ensures Runs(Outside(depth), [left] + body + [right], Fits(depth, height + 1))
  {
    var k, in1 := Outside(depth), Outside(depth + 1);
    if depth == DEPTH_MAX {
      forall rest: seq<Byte>
        ensures RunsBefore(k, [left], None, rest)
      {
        assert ([left] + rest)[0] == left;
      }
      RunsOut(k, [left], body);
      RunsOut(k, [left] + body, [right]);
    } else {
      RunsByte(k, left, in1);
      RunsOn(k, [left], in1, body, Fits(depth + 1, height));
      RunsByte(in1, right, k);
      RunsThen(k, [left] + body, depth + 1 + height <= DEPTH_MAX, in1, [right], Some(k));
    }
  }

  lemma ContainerRuns(depth: nat, left: Byte, blank: seq<Byte>, s: seq<Byte>, right: Byte, height: nat)
    requires 0 < depth <= DEPTH_MAX && AllWs(blank)
    requires left in [LBRACE, LBRACKET] && right in [RBRACE, RBRACKET]
    requires depth < DEPTH_MAX ==> Runs(Outside(depth + 1), s, Fits(depth + 1, height))
    ensures Runs(Outside(depth), [left] + blank + s + [right], Fits(depth, height + 1))
  {
    if depth < DEPTH_MAX {
      BlankThen(depth + 1, blank, s, Fits(depth + 1, height));
    }
    BracketsRun(depth, left, blank + s, right, height);
    assert [left] + blank + s + [right] == [left] + (blank + s) + [right];
  }

  lemma {:induction false} ValueRuns(depth: nat, v: Value)
    requires 0 < depth <= DEPTH_MAX && Valid(v)
    ensures Runs(Outside(depth), Print(v), Fits(depth, Height(v)))
    decreases v, 0
  {
    hide Runs;
    match v {
      case Null => DullRuns(depth, Print(v));
      case True => DullRuns(depth, Print(v));
      case False => DullRuns(depth, Print(v));
      case Number(text) => DullRuns(depth, text);
      case Text(items) => StringRuns(depth, items);
      case Array(blank, elements) =>
        if depth < DEPTH_MAX {
          ElementsRun(depth + 1, elements, true);
        }
        ContainerRuns(depth, LBRACKET, blank, PrintElements(elements, true), RBRACKET, ElementsHeight(elements));
      case Object(blank, members) =>
        if depth < DEPTH_MAX {
          MembersRun(depth + 1, members, true);
        }
        ContainerRuns(depth, LBRACE, blank, PrintMembers(members, true), RBRACE, MembersHeight(members));
    }
  }

  lemma {:induction false} ElementsRun(depth: nat, es: seq<Element>, first: bool)
    requires 0 < depth <= DEPTH_MAX && ValidElements(es)
    ensures Runs(Outside(depth), PrintElements(es, first), Fits(depth, ElementsHeight(es)))
    decreases es, 1
  {
    var k := Outside(depth);
    if es == [] {
      RunsNothing(k);
    } else {
      var comma := if first then [] else [COMMA];
      var v, rest := es[0].value, PrintElements(es[1..], false);
      var fits := depth + Height(v) <= DEPTH_MAX;
      ElementsRun(depth, es[1..], false);
      DullRuns(depth, es[0].after);
      RunsOn(k, es[0].after, k, rest, Fits(depth, ElementsHeight(es[1..])));
      ValueRuns(depth, v);
      RunsThen(k, Print(v), fits, k, es[0].after + rest, Fits(depth, ElementsHeight(es[1..])));
      DullRuns(depth, es[0].before);
      DullRuns(depth, comma);
      RunsOn(k, es[0].before, k, Print(v) + (es[0].after + rest), Fits(depth, ElementsHeight(es)));
      RunsOn(k, comma, k, es[0].before + (Print(v) + (es[0].after + rest)), Fits(depth, ElementsHeight(es)));
    }
  }

  lemma {:induction false} MembersRun(depth: nat, ms: seq<Member>, first: bool)
    requires 0 < depth <= DEPTH_MAX && ValidMembers(ms)
    ensures Runs(Outside(depth), PrintMembers(ms, first), Fits(depth, MembersHeight(ms)))
    decreases ms, 1
  {
    var k := Outside(depth);
    if ms == [] {
      RunsNothing(k);
    } else {
      var comma := if first then [] else [COMMA];
      var v, rest := ms[0].value, PrintMembers(ms[1..], false);
      var fits := depth + Height(v) <= DEPTH_MAX;
      MembersRun(depth, ms[1..], false);
      MemberRuns(depth, ms[0]);
      RunsThen(k, PrintMember(ms[0]), fits, k, rest, Fits(depth, MembersHeight(ms[1..])));
      DullRuns(depth, comma);
      RunsOn(k, comma, k, PrintMember(ms[0]) + rest, Fits(depth, MembersHeight(ms)));
    }
  }

  lemma {:induction false} MemberRuns(depth: nat, m: Member)
    requires 0 < depth <= DEPTH_MAX && ValidMember(m)
    ensures Runs(Outside(depth), PrintMember(m), Fits(depth, Height(m.value)))
    decreases m, 1
  {
    var k, r := Outside(depth), Fits(depth, Height(m.value));
    var t1 := Print(m.value) + m.after;
    var t2 := m.beforeValue + t1;
    var t3 := [COLON] + t2;
    var t4 := m.afterKey + t3;
    ValueRuns(depth, m.value);
    DullRuns(depth, m.after);
    RunsThen(k, Print(m.value), r.Some?, k, m.after, Some(k));
    DullRuns(depth, m.beforeValue);
    RunsOn(k, m.beforeValue, k, t1, r);
    DullRuns(depth, [COLON]);
    RunsOn(k, [COLON], k, t2, r);
    DullRuns(depth, m.afterKey);
    RunsOn(k, m.afterKey, k, t3, r);
    StringRuns(depth, m.key);
    RunsOn(k, PrintString(m.key), k, t4, r);
    DullRuns(depth, m.before);
    RunsOn(k, m.before, k, PrintString(m.key) + t4, r);
  }

  /** A nested value is consumed whole, exactly when it is at most 32 levels deep. */
  lemma StructureSkipped(v: Value, rest: seq<Byte>)
    requires Valid(v) && (v.Array? || v.Object?)
    ensures SkipFrom(Print(v) + rest, SKIP_START) == if Height(v) <= DEPTH_MAX then Some(rest) else None
  {
    var left: Byte, right: Byte, body, h;
    if v.Array? {
      left, right, body, h := LBRACKET, RBRACKET, v.blank + PrintElements(v.elements, true), ElementsHeight(v.elements);
      ElementsRun(1, v.elements, true);
      BlankThen(1, v.blank, PrintElements(v.elements, true), Fits(1, h));
    } else {
      left, right, body, h := LBRACE, RBRACE, v.blank + PrintMembers(v.members, true), MembersHeight(v.members);
      MembersRun(1, v.members, true);
      BlankThen(1, v.blank, PrintMembers(v.members, true), Fits(1, h));
    }
    assert Print(v) == [left] + body + [right];
    assert Print(v) + rest == [left] + (body + ([right] + rest));
    assert (Print(v) + rest)[1..] == body + ([right] + rest);
    assert SkipByte(SKIP_START, left) == SkipOn(Outside(1));
    assert RunsBefore(Outside(1), body, Fits(1, h), [right] + rest);
    assert ([right] + rest)[1..] == rest;
  }
}
