/** Well-formed JSON under the framer: every printed object is one whole object of the stream. */
module FrameJson {
  import opened Bytes
  import opened Frame
  import opened Json

  /** Outside string literals, `depth` braces down. */
  function At(depth: nat): State {
    State(depth, false, false)
  }

  /** The bytes of `s` only extend the open object. */
  ghost predicate Extends(c: Cut, s: seq<Byte>) {
    CutBytes(c, s) == c.(open := c.open + s)
  }

  /** From state `f`, the bytes of `s` only extend the open object and lead back to `f`. */
  ghost predicate Transparent(f: State, s: seq<Byte>) {
    forall c: Cut | c.state == f && !c.bad :: Extends(c, s)
  }

  lemma ExtendsConcat(c: Cut, a: seq<Byte>, b: seq<Byte>)
    requires Extends(c, a) && Extends(c.(open := c.open + a), b)
    ensures Extends(c, a + b)
  {
    CutConcat(c, a, b);
    assert c.open + a + b == c.open + (a + b);
  }

  lemma TransparentConcat(f: State, a: seq<Byte>, b: seq<Byte>)
    requires Transparent(f, a) && Transparent(f, b)
    ensures Transparent(f, a + b)
  {
    hide Extends;
    forall c: Cut | c.state == f && !c.bad
      ensures Extends(c, a + b)
    {
      ExtendsConcat(c, a, b);
    }
  }

  lemma TransparentByte(f: State, b: Byte)
    requires Advance(f, b) == (f, Inside)
    ensures Transparent(f, [b])
  {
    forall c: Cut | c.state == f && !c.bad
      ensures Extends(c, [b])
    {
      CutSnoc(c, [], b);
      assert [] + [b] == [b];
    }
  }

  lemma EmptyTransparent(f: State)
    ensures Transparent(f, [])
  {
    forall c: Cut | c.state == f && !c.bad
      ensures Extends(c, [])
    {
      assert c.open + [] == c.open;
    }
  }

  predicate FramesNothing(b: Byte) {
    b != QUOTE && b != LBRACE && b != RBRACE
  }

  lemma {:induction false} DullTransparent(depth: nat, s: seq<Byte>)
    requires depth > 0 && forall i :: 0 <= i < |s| ==> FramesNothing(s[i])
    ensures Transparent(At(depth), s)
  {
    if s == [] {
      EmptyTransparent(At(depth));
    } else {
      TransparentByte(At(depth), s[0]);
      DullTransparent(depth, s[1..]);
      TransparentConcat(At(depth), [s[0]], s[1..]);
      assert s == [s[0]] + s[1..];
    }
  }

  lemma ItemTransparent(depth: nat, it: Item)
    requires depth > 0 && ValidItem(it)
    ensures Transparent(State(depth, true, false), PrintItem(it))
  {
    var f := State(depth, true, false);
    match it {
      case Plain(b) => TransparentByte(f, b);
      case Escape(ch) => EscapedTransparent(f, ch);
      case Unicode(hex) =>
        EscapedTransparent(f, LOWER_U);
        TransparentByte(f, hex[0]);
        TransparentByte(f, hex[1]);
        TransparentByte(f, hex[2]);
        TransparentByte(f, hex[3]);
        TransparentConcat(f, [hex[0]], [hex[1]]);
        TransparentConcat(f, [hex[2]], [hex[3]]);
        TransparentConcat(f, [hex[0]] + [hex[1]], [hex[2]] + [hex[3]]);
        assert hex == [hex[0]] + [hex[1]] + ([hex[2]] + [hex[3]]);
        TransparentConcat(f, [BACKSLASH, LOWER_U], hex);
    }
  }

  lemma EscapedTransparent(f: State, b: Byte)
    requires f.depth > 0 && f.inString && !f.escape
    ensures Transparent(f, [BACKSLASH, b])
  {
    forall c: Cut | c.state == f && !c.bad
      ensures Extends(c, [BACKSLASH, b])
    {
      CutSnoc(c, [BACKSLASH], b);
      CutSnoc(c, [], BACKSLASH);
      assert [] + [BACKSLASH] == [BACKSLASH] && [BACKSLASH] + [b] == [BACKSLASH, b];
      assert c.open + [BACKSLASH] + [b] == c.open + [BACKSLASH, b];
    }
  }

  lemma {:induction false} ItemsTransparent(depth: nat, items: seq<Item>)
    requires depth > 0 && ValidItems(items)
    ensures Transparent(State(depth, true, false), PrintItems(items))
  {
    if items == [] {
      EmptyTransparent(State(depth, true, false));
    } else {
      ItemTransparent(depth, items[0]);
      ItemsTransparent(depth, items[1..]);
      TransparentConcat(State(depth, true, false), PrintItem(items[0]), PrintItems(items[1..]));
    }
  }

  /**
   * From `c`, the byte `left` leads into state `g`, `body` is transparent there, and the byte
   * `right` leads back.
   */
  lemma Enclosed(c: Cut, left: Byte, g: State, body: seq<Byte>, right: Byte)
    requires !c.bad && Advance(c.state, left) == (g, Inside) && Advance(g, right) == (c.state, Inside)
    requires Transparent(g, body)
    ensures Extends(c, [left] + body + [right])
  {
    var d := c.(open := c.open + [left], state := g);
    var e := d.(open := d.open + body);
    CutConcat(c, [left] + body, [right]);
    CutConcat(c, [left], body);
    assert CutBytes(c, [left]) == d by {
      CutSnoc(c, [], left);
      assert [] + [left] == [left];
    }
    assert Extends(d, body);
    assert CutBytes(e, [right]) == CutByte(e, right) by {
      CutSnoc(e, [], right);
      assert [] + [right] == [right];
    }
    assert c.open + [left] + body + [right] == c.open + ([left] + body + [right]);
  }

  /** Whatever braces, quotes or backslashes a string carries, the framer comes back unchanged. */
  lemma StringTransparent(depth: nat, items: seq<Item>)
    requires depth > 0 && ValidItems(items)
    ensures Transparent(At(depth), PrintString(items))
  {
    hide Extends;
    ItemsTransparent(depth, items);
    forall c: Cut | c.state == At(depth) && !c.bad
      ensures Extends(c, PrintString(items))
    {
      Enclosed(c, QUOTE, State(depth, true, false), PrintItems(items), QUOTE);
    }
  }

  lemma BracesTransparent(depth: nat, body: seq<Byte>)
    requires 0 < depth < DEPTH_WRAP - 1 && Transparent(At(depth + 1), body)
    ensures Transparent(At(depth), [LBRACE] + body + [RBRACE])
  {
    hide Extends;
    forall c: Cut | c.state == At(depth) && !c.bad
      ensures Extends(c, [LBRACE] + body + [RBRACE])
    {
      Enclosed(c, LBRACE, At(depth + 1), body, RBRACE);
    }
  }

  lemma {:induction false} ValueTransparent(depth: nat, v: Value)
    requires depth > 0 && Valid(v) && depth + Height(v) < DEPTH_WRAP
    ensures Transparent(At(depth), Print(v))
    decreases v, 0
  {
    match v {
      case Null => DullTransparent(depth, Print(v));
      case True => DullTransparent(depth, Print(v));
      case False => DullTransparent(depth, Print(v));
      case Number(text) => DullTransparent(depth, text);
      case Text(items) => StringTransparent(depth, items);
      case Array(blank, elements) =>
        DullTransparent(depth, [LBRACKET] + blank);
        ElementsTransparent(depth, elements, true);
        DullTransparent(depth, [RBRACKET]);
        TransparentConcat(At(depth), [LBRACKET] + blank, PrintElements(elements, true));
        TransparentConcat(At(depth), [LBRACKET] + blank + PrintElements(elements, true), [RBRACKET]);
      case Object(blank, members) =>
        var body := blank + PrintMembers(members, true);
        BodyTransparent(depth + 1, v);
        BracesTransparent(depth, body);
        assert Print(v) == [LBRACE] + body + [RBRACE];
    }
  }

  lemma {:induction false} BodyTransparent(depth: nat, v: Value)
    requires v.Object? && Valid(v) && depth > 0 && depth - 1 + Height(v) < DEPTH_WRAP
    ensures Transparent(At(depth), v.blank + PrintMembers(v.members, true))
    decreases v.members, 2
  {
    DullTransparent(depth, v.blank);
    MembersTransparent(depth, v.members, true);
    TransparentConcat(At(depth), v.blank, PrintMembers(v.members, true));
  }

  lemma {:induction false} ElementsTransparent(depth: nat, es: seq<Element>, first: bool)
    requires depth > 0 && ValidElements(es) && depth + ElementsHeight(es) < DEPTH_WRAP
    ensures Transparent(At(depth), PrintElements(es, first))
    decreases es, 1
  {
    var f := At(depth);
    if es == [] {
      DullTransparent(depth, []);
    } else {
      var comma := if first then [] else [COMMA];
      var rest := PrintElements(es[1..], false);
      DullTransparent(depth, comma);
      DullTransparent(depth, es[0].before);
      DullTransparent(depth, es[0].after);
      ValueTransparent(depth, es[0].value);
      ElementsTransparent(depth, es[1..], false);
      TransparentConcat(f, es[0].after, rest);
      TransparentConcat(f, Print(es[0].value), es[0].after + rest);
      TransparentConcat(f, es[0].before, Print(es[0].value) + (es[0].after + rest));
      TransparentConcat(f, comma, es[0].before + (Print(es[0].value) + (es[0].after + rest)));
    }
  }

  lemma {:induction false} MembersTransparent(depth: nat, ms: seq<Member>, first: bool)
    requires depth > 0 && ValidMembers(ms) && depth + MembersHeight(ms) < DEPTH_WRAP
    ensures Transparent(At(depth), PrintMembers(ms, first))
    decreases ms, 1
  {
    var f := At(depth);
    if ms == [] {
      DullTransparent(depth, []);
    } else {
      var comma := if first then [] else [COMMA];
      DullTransparent(depth, comma);
      MemberTransparent(depth, ms[0]);
      MembersTransparent(depth, ms[1..], false);
      TransparentConcat(f, PrintMember(ms[0]), PrintMembers(ms[1..], false));
      TransparentConcat(f, comma, PrintMember(ms[0]) + PrintMembers(ms[1..], false));
    }
  }

  lemma {:induction false} MemberTransparent(depth: nat, m: Member)
    requires depth > 0 && ValidMember(m) && depth + Height(m.value) < DEPTH_WRAP
    ensures Transparent(At(depth), PrintMember(m))
    decreases m, 1
  {
    var f := At(depth);
    var t1 := Print(m.value) + m.after;
    var t2 := m.beforeValue + t1;
    var t3 := [COLON] + t2;
    var t4 := m.afterKey + t3;
    var t5 := PrintString(m.key) + t4;
    DullTransparent(depth, m.after);
    ValueTransparent(depth, m.value);
    TransparentConcat(f, Print(m.value), m.after);
    DullTransparent(depth, m.beforeValue);
    TransparentConcat(f, m.beforeValue, t1);
    DullTransparent(depth, [COLON]);
    TransparentConcat(f, [COLON], t2);
    DullTransparent(depth, m.afterKey);
    TransparentConcat(f, m.afterKey, t3);
    StringTransparent(depth, m.key);
    TransparentConcat(f, PrintString(m.key), t4);
    DullTransparent(depth, m.before);
    TransparentConcat(f, m.before, t5);
  }

  /** A printed JSON object is one whole object to the framer, whatever its strings and spacing. */
  lemma PrintedObject(v: Value)
    requires v.Object? && Valid(v) && Height(v) < DEPTH_WRAP
    ensures IsObject(Print(v))
  {
    var body := v.blank + PrintMembers(v.members, true);
    BodyTransparent(1, v);
    assert Print(v) == [LBRACE] + body + [RBRACE];
    CutConcat(NOTHING, [LBRACE] + body, [RBRACE]);
    CutConcat(NOTHING, [LBRACE], body);
    CutSnoc(NOTHING, [], LBRACE);
    assert [] + [LBRACE] == [LBRACE];
    var d := Cut([], [LBRACE], At(1), false);
    var e := d.(open := d.open + body);
    CutSnoc(e, [], RBRACE);
    assert [] + [RBRACE] == [RBRACE];
    assert [] + [[LBRACE] + body + [RBRACE]] == [Print(v)];
  }
}
