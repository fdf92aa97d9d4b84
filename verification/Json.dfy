/**
 * JSON values as they stand on the wire: the abstract value together with the spelling of its
 * strings and numbers and the whitespace around every token (RFC 8259, sections 2 to 7).
 */
module Json {
  import opened Bytes

  /** One character of a string literal, as spelled. */
  datatype Item =
    | Plain(b: Byte)
    | Escape(c: Byte)
    | Unicode(hex: seq<Byte>)

  datatype Value =
    | Null
    | True
    | False
    | Number(text: seq<Byte>)
    | Text(items: seq<Item>)
    | Array(blank: seq<Byte>, elements: seq<Element>)
    | Object(blank: seq<Byte>, members: seq<Member>)

  datatype Element = Element(before: seq<Byte>, value: Value, after: seq<Byte>)

  datatype Member = Member(before: seq<Byte>, key: seq<Item>, afterKey: seq<Byte>,
                           beforeValue: seq<Byte>, value: Value, after: seq<Byte>)

  predicate IsDigit(b: Byte) {
    ZERO <= b <= NINE
  }

  predicate IsNumberByte(b: Byte) {
    IsDigit(b) || b == MINUS || b == PLUS || b == DOT || b == LOWER_E || b == UPPER_E
  }

  predicate StartsNumber(b: Byte) {
    IsDigit(b) || b == MINUS || b == PLUS || b == DOT
  }

  predicate IsHex(b: Byte) {
    IsDigit(b) || LOWER_A <= b <= LOWER_F || UPPER_A <= b <= UPPER_F
  }

  predicate IsEscapable(c: Byte) {
    c in [QUOTE, BACKSLASH, SLASH, LOWER_B, LOWER_F, LOWER_N, LOWER_R, LOWER_T]
  }

  predicate ValidItem(it: Item) {
    match it
    case Plain(b) => b != QUOTE && b != BACKSLASH
    case Escape(c) => IsEscapable(c)
    case Unicode(hex) => |hex| == 4 && forall i :: 0 <= i < 4 ==> IsHex(hex[i])
  }

  predicate ValidItems(items: seq<Item>) {
    forall i :: 0 <= i < |items| ==> ValidItem(items[i])
  }

  predicate ValidNumber(text: seq<Byte>) {
    && text != [] && StartsNumber(text[0])
    && forall i :: 0 <= i < |text| ==> IsNumberByte(text[i])
  }

  predicate Valid(v: Value)
    decreases v, 0
  {
    match v
    case Null => true
    case True => true
    case False => true
    case Number(text) => ValidNumber(text)
    case Text(items) => ValidItems(items)
    case Array(blank, elements) => AllWs(blank) && ValidElements(elements)
    case Object(blank, members) => AllWs(blank) && ValidMembers(members)
  }

  predicate ValidElements(es: seq<Element>)
    decreases es, 1
  {
    es == [] ||
    (AllWs(es[0].before) && AllWs(es[0].after) && Valid(es[0].value) && ValidElements(es[1..]))
  }

  predicate ValidMembers(ms: seq<Member>)
    decreases ms, 1
  {
    ms == [] ||
    (&& AllWs(ms[0].before) && AllWs(ms[0].afterKey) && AllWs(ms[0].beforeValue) && AllWs(ms[0].after)
     && ValidItems(ms[0].key) && Valid(ms[0].value) && ValidMembers(ms[1..]))
  }

  lemma {:induction false} ValidConcat(a: seq<Member>, b: seq<Member>)
    requires ValidMembers(a) && ValidMembers(b)
    ensures ValidMembers(a + b)
    decreases a
  {
    if a == [] {
      assert a + b == b;
    } else {
      assert (a + b)[1..] == a[1..] + b;
      ValidConcat(a[1..], b);
    }
  }

  predicate ValidMember(m: Member) {
    && AllWs(m.before) && AllWs(m.afterKey) && AllWs(m.beforeValue) && AllWs(m.after)
    && ValidItems(m.key) && Valid(m.value)
  }

  // --------------------------------------------------------------------------------------
  // Printing
  // --------------------------------------------------------------------------------------

  function PrintItem(it: Item): seq<Byte> {
    match it
    case Plain(b) => [b]
    case Escape(c) => [BACKSLASH, c]
    case Unicode(hex) => [BACKSLASH, LOWER_U] + hex
  }

  function PrintItems(items: seq<Item>): seq<Byte> {
    if items == [] then [] else PrintItem(items[0]) + PrintItems(items[1..])
  }

  function PrintString(items: seq<Item>): seq<Byte> {
    [QUOTE] + PrintItems(items) + [QUOTE]
  }

  const TRUE_TEXT: seq<Byte> := [116, 114, 117, 101]
  const FALSE_TEXT: seq<Byte> := [102, 97, 108, 115, 101]
  const NULL_TEXT: seq<Byte> := [110, 117, 108, 108]

  function Print(v: Value): seq<Byte>
    decreases v, 0
  {
    match v
    case Null => NULL_TEXT
    case True => TRUE_TEXT
    case False => FALSE_TEXT
    case Number(text) => text
    case Text(items) => PrintString(items)
    case Array(blank, elements) => [LBRACKET] + blank + PrintElements(elements, true) + [RBRACKET]
    case Object(blank, members) => [LBRACE] + blank + PrintMembers(members, true) + [RBRACE]
  }

  function PrintElements(es: seq<Element>, first: bool): seq<Byte>
    decreases es, 1
  {
    if es == [] then []
    else (if first then [] else [COMMA])
         + (es[0].before + (Print(es[0].value) + (es[0].after + PrintElements(es[1..], false))))
  }

  function PrintMembers(ms: seq<Member>, first: bool): seq<Byte>
    decreases ms, 1
  {
    if ms == [] then []
    else (if first then [] else [COMMA]) + (PrintMember(ms[0]) + PrintMembers(ms[1..], false))
  }

  function PrintMember(m: Member): seq<Byte>
    decreases m, 1
  {
    m.before + (PrintString(m.key) + (m.afterKey + ([COLON] + (m.beforeValue + (Print(m.value) + m.after)))))
  }

  // --------------------------------------------------------------------------------------
  // Nesting
  // --------------------------------------------------------------------------------------

  function Max(a: nat, b: nat): nat {
    if a < b then b else a
  }

  /** How many objects and arrays are open at once, at most, while `v` is being read. */
  function Height(v: Value): nat
    decreases v, 0
  {
    match v
    case Array(_, elements) => 1 + ElementsHeight(elements)
    case Object(_, members) => 1 + MembersHeight(members)
    case _ => 0
  }

  function ElementsHeight(es: seq<Element>): nat
    decreases es, 1
  {
    if es == [] then 0 else Max(Height(es[0].value), ElementsHeight(es[1..]))
  }

  function MembersHeight(ms: seq<Member>): nat
    decreases ms, 1
  {
    if ms == [] then 0 else Max(Height(ms[0].value), MembersHeight(ms[1..]))
  }
}
