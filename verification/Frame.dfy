/**
 * The framer: an automaton that counts the braces no string holds.
 *
 * `Advance` is the automaton; `Framer` is the object that runs it in place; `CutBytes` is the
 * meaning of a byte stream under it, as the objects completed so far and what is still open.
 */
module Frame {
  import opened Bytes

  datatype Step = Skip | Open | Inside | Close | Garbage

  datatype State = State(depth: nat, inString: bool, escape: bool)

  /** `depth` is an unsigned 32-bit counter. */
  const DEPTH_WRAP: nat := 0x1_0000_0000

  const RESET: State := State(0, false, false)

  predicate InMessage(f: State) {
    f.depth > 0
  }

  function Advance(f: State, b: Byte): (r: (State, Step)) {
    if f.depth == 0 then
      if IsWs(b) then (f, Skip)
      else if b != LBRACE then (f, Garbage)
      else (f.(depth := 1), Open)
    else if f.inString then
      if f.escape then (f.(escape := false), Inside)
      else if b == BACKSLASH then (f.(escape := true), Inside)
      else if b == QUOTE then (f.(inString := false), Inside)
      else (f, Inside)
    else if b == QUOTE then (f.(inString := true), Inside)
    else if b == LBRACE then (f.(depth := (f.depth + 1) % DEPTH_WRAP), Inside)
    else if b == RBRACE then (f.(depth := f.depth - 1), if f.depth == 1 then Close else Inside)
    else (f, Inside)
  }

  class Framer {
    var depth: nat
    var inString: bool
    var escape: bool

    ghost function Abs(): State
      reads this
    {
      State(depth, inString, escape)
    }

    constructor ()
      ensures Abs() == RESET
    {
      depth, inString, escape := 0, false, false;
    }

    method Reset()
      modifies this
      ensures Abs() == RESET
    {
      depth, inString, escape := 0, false, false;
    }

    method Feed(b: Byte) returns (step: Step)
      modifies this
      ensures (Abs(), step) == Advance(old(Abs()), b)
    {
      if depth == 0 {
        if b == SPACE || b == TAB || b == LF || b == CR {
          return Skip;
        }
        if b != LBRACE {
          return Garbage;
        }
        depth := 1;
        return Open;
      }
      if inString {
        if escape {
          escape := false;
        } else if b == BACKSLASH {
          escape := true;
        } else if b == QUOTE {
          inString := false;
        }
        return Inside;
      }
      if b == QUOTE {
        inString := true;
      } else if b == LBRACE {
        depth := (depth + 1) % DEPTH_WRAP;
      } else if b == RBRACE {
        depth := depth - 1;
        if depth == 0 {
          return Close;
        }
      }
      return Inside;
    }
  }

  // --------------------------------------------------------------------------------------
  // What a stream of bytes means
  // --------------------------------------------------------------------------------------

  /** The objects completed so far, the bytes of the one still open, and whether garbage was met. */
  datatype Cut = Cut(objects: seq<seq<Byte>>, open: seq<Byte>, state: State, bad: bool)

  const NOTHING: Cut := Cut([], [], RESET, false)

  function CutByte(c: Cut, b: Byte): Cut {
    if c.bad then c
    else
      var (f, step) := Advance(c.state, b);
      match step
      case Skip => c
      case Open => c.(open := [b], state := f)
      case Inside => c.(open := c.open + [b], state := f)
      case Close => c.(objects := c.objects + [c.open + [b]], open := [], state := f)
      case Garbage => c.(bad := true)
  }

  function CutBytes(c: Cut, s: seq<Byte>): Cut
    decreases s
  {
    if s == [] then c else CutBytes(CutByte(c, s[0]), s[1..])
  }

  /** `o` is one whole object: the automaton completes it at its last byte and nothing before. */
  ghost predicate IsObject(o: seq<Byte>) {
    CutBytes(NOTHING, o) == Cut([o], [], RESET, false)
  }

  /** Cutting does not depend on how the stream was split into reads. */
  lemma {:induction false} CutConcat(c: Cut, a: seq<Byte>, b: seq<Byte>)
    ensures CutBytes(c, a + b) == CutBytes(CutBytes(c, a), b)
    decreases a
  {
    if a == [] {
      assert a + b == b;
    } else {
      assert (a + b)[1..] == a[1..] + b;
      CutConcat(CutByte(c, a[0]), a[1..], b);
    }
  }

  lemma CutSnoc(c: Cut, s: seq<Byte>, b: Byte)
    ensures CutBytes(c, s + [b]) == CutByte(CutBytes(c, s), b)
  {
    CutConcat(c, s, [b]);
    assert [b][1..] == [];
  }

  lemma {:induction false} CutWs(c: Cut, w: seq<Byte>)
    requires AllWs(w) && c.state.depth == 0
    ensures CutBytes(c, w) == c
  {
    if w != [] {
      CutWs(c, w[1..]);
    }
  }

  /** Completed objects are never taken back, and garbage is never forgotten. */
  lemma {:induction false} CutGrows(c: Cut, s: seq<Byte>)
    ensures c.objects <= CutBytes(c, s).objects
    ensures c.bad ==> CutBytes(c, s) == c
    decreases s
  {
    if s != [] {
      CutGrows(CutByte(c, s[0]), s[1..]);
    }
  }

  /** Objects already cut do not influence what is cut next. */
  lemma {:induction false} CutShift(c: Cut, done: seq<seq<Byte>>, s: seq<Byte>)
    ensures CutBytes(c.(objects := done + c.objects), s)
         == CutBytes(c, s).(objects := done + CutBytes(c, s).objects)
    decreases s
  {
    if s != [] {
      var next := CutByte(c, s[0]);
      assert CutByte(c.(objects := done + c.objects), s[0]).objects == done + next.objects;
      CutShift(next, done, s[1..]);
    }
  }

  // --------------------------------------------------------------------------------------
  // The stateless half
  // --------------------------------------------------------------------------------------

  datatype Found =
    | Complete(start: nat, end: nat)
    | Pending(start: nat)
    | Malformed(start: nat)

  /** What scanning on from `i` reports, an object having begun at `begin` if one is open. */
  function FindFrom(buf: seq<Byte>, i: nat, f: State, begin: nat): (r: Found)
    requires i <= |buf|
    decreases |buf| - i
  {
    if i == |buf| then Pending(begin)
    else
      var (g, step) := Advance(f, buf[i]);
      match step
      case Skip => FindFrom(buf, i + 1, g, begin)
      case Open => FindFrom(buf, i + 1, g, i)
      case Inside => FindFrom(buf, i + 1, g, begin)
      case Close => Complete(begin, i + 1)
      case Garbage => Malformed(i)
  }

  function Find(buf: seq<Byte>): Found {
    FindFrom(buf, 0, RESET, |buf|)
  }

  method FrameFind(buf: seq<Byte>) returns (r: Found)
    ensures r == Find(buf)
  {
    var f := new Framer();
    var begin: nat := |buf|;
    for i := 0 to |buf|
      invariant FindFrom(buf, i, f.Abs(), begin) == Find(buf)
      invariant fresh(f)
    {
      var step := f.Feed(buf[i]);
      match step {
        case Skip =>
        case Open => begin := i;
        case Inside =>
        case Close => return Complete(begin, i + 1);
        case Garbage => return Malformed(i);
      }
    }
    return Pending(begin);
  }

  /** Where `FindFrom` stands after `i` bytes, in terms of what those bytes have been cut into. */
  ghost predicate Standing(buf: seq<Byte>, i: nat, f: State, begin: nat) {
    && i <= |buf|
    && var c := CutBytes(NOTHING, buf[..i]);
    && c.objects == [] && !c.bad && c.state == f
    && (f.depth > 0 ==> begin <= i && c.open == buf[begin..i])
  }

  lemma StandingStep(buf: seq<Byte>, i: nat, f: State, begin: nat)
    requires Standing(buf, i, f, begin) && i < |buf|
    ensures CutBytes(NOTHING, buf[..i + 1]) == CutByte(CutBytes(NOTHING, buf[..i]), buf[i])
    ensures Advance(f, buf[i]).1 in {Skip, Inside} ==> Standing(buf, i + 1, Advance(f, buf[i]).0, begin)
    ensures Advance(f, buf[i]).1 == Open ==> Standing(buf, i + 1, Advance(f, buf[i]).0, i)
    ensures Advance(f, buf[i]).1 == Close ==>
              begin <= i && CutBytes(NOTHING, buf[..i + 1]).objects == [buf[begin..i + 1]]
  {
    assert buf[..i + 1] == buf[..i] + [buf[i]];
    CutSnoc(NOTHING, buf[..i], buf[i]);
    if f.depth > 0 {
      assert buf[begin..i] + [buf[i]] == buf[begin..i + 1];
    }
  }

  /** `e` is where the first object of `buf` ends. */
  ghost predicate FirstEndsAt(buf: seq<Byte>, e: nat) {
    && 0 < e <= |buf|
    && CutBytes(NOTHING, buf[..e]).objects != []
    && CutBytes(NOTHING, buf[..e - 1]).objects == []
  }

  lemma {:induction false} FindFromMeaning(buf: seq<Byte>, i: nat, f: State, begin: nat)
    requires Standing(buf, i, f, begin)
    ensures match FindFrom(buf, i, f, begin)
            case Complete(a, e) =>
              FirstEndsAt(buf, e) && a <= e && CutBytes(NOTHING, buf[..e]).objects == [buf[a..e]]
            case Pending(_) =>
              var c := CutBytes(NOTHING, buf); c.objects == [] && !c.bad
            case Malformed(a) =>
              var c := CutBytes(NOTHING, buf); a < |buf| && c.objects == [] && c.bad
    decreases |buf| - i
  {
    if i == |buf| {
      assert buf[..i] == buf;
    } else {
      StandingStep(buf, i, f, begin);
      var (g, step) := Advance(f, buf[i]);
      match step {
        case Skip => FindFromMeaning(buf, i + 1, g, begin);
        case Open => FindFromMeaning(buf, i + 1, g, i);
        case Inside => FindFromMeaning(buf, i + 1, g, begin);
        case Close =>
        case Garbage =>
          CutConcat(NOTHING, buf[..i + 1], buf[i + 1..]);
          assert buf[..i + 1] + buf[i + 1..] == buf;
          CutGrows(CutBytes(NOTHING, buf[..i + 1]), buf[i + 1..]);
      }
    }
  }

  /** The three answers of `gsp_frame_find`, each exactly when the stream's cut says so. */
  lemma FindMeaning(buf: seq<Byte>)
    ensures Find(buf).Complete? <==> CutBytes(NOTHING, buf).objects != []
    ensures Find(buf).Complete? ==>
              var Complete(a, e) := Find(buf);
              FirstEndsAt(buf, e) && a <= e && CutBytes(NOTHING, buf[..e]).objects == [buf[a..e]]
    ensures Find(buf).Malformed? <==>
              CutBytes(NOTHING, buf).objects == [] && CutBytes(NOTHING, buf).bad
  {
    assert buf[..0] == [];
    FindFromMeaning(buf, 0, RESET, |buf|);
    if Find(buf).Complete? {
      var e := Find(buf).end;
      CutConcat(NOTHING, buf[..e], buf[e..]);
      assert buf[..e] + buf[e..] == buf;
      CutGrows(CutBytes(NOTHING, buf[..e]), buf[e..]);
    }
  }

  /** The framer is never inside a string between messages, nor escaped outside a string. */
  predicate Sane(f: State) {
    (f.escape ==> f.inString) && (f.inString ==> f.depth > 0)
  }

  lemma {:induction false} CutSane(c: Cut, s: seq<Byte>)
    requires Sane(c.state)
    ensures Sane(CutBytes(c, s).state)
    decreases s
  {
    if s != [] {
      CutSane(CutByte(c, s[0]), s[1..]);
    }
  }

  /** Every object found is a whole object: nothing shorter than it was ever reported. */
  lemma FoundIsClean(buf: seq<Byte>)
    requires Find(buf).Complete?
    ensures var Complete(a, e) := Find(buf);
            a <= e <= |buf| && e > 0 && CutBytes(NOTHING, buf[..e]) == Cut([buf[a..e]], [], RESET, false)
  {
    FindMeaning(buf);
    var Complete(a, e) := Find(buf);
    var before := CutBytes(NOTHING, buf[..e - 1]);
    assert buf[..e] == buf[..e - 1] + [buf[e - 1]];
    CutSnoc(NOTHING, buf[..e - 1], buf[e - 1]);
    CutSane(NOTHING, buf[..e - 1]);
  }

  /** `gsp_frame_find` iterated: find an object, discard through its end, find the next. */
  ghost function FindAll(buf: seq<Byte>): seq<seq<Byte>>
    decreases |buf|
  {
    if Find(buf).Complete? then
      FoundIsClean(buf);
      var Complete(a, e) := Find(buf);
      [buf[a..e]] + FindAll(buf[e..])
    else []
  }

  /** The stateless driver, iterated, and the incremental automaton agree on every stream. */
  lemma {:induction false} FindAllIsCut(buf: seq<Byte>)
    ensures FindAll(buf) == CutBytes(NOTHING, buf).objects
    decreases |buf|
  {
    FindMeaning(buf);
    if Find(buf).Complete? {
      FoundIsClean(buf);
      var Complete(a, e) := Find(buf);
      var o := buf[a..e];
      FindAllIsCut(buf[e..]);
      assert buf == buf[..e] + buf[e..];
      CutConcat(NOTHING, buf[..e], buf[e..]);
      assert Cut([o], [], RESET, false) == NOTHING.(objects := [o] + NOTHING.objects);
      CutShift(NOTHING, [o], buf[e..]);
    }
  }

  /** Objects with whitespace before each and after the last. */
  function Weave(gaps: seq<seq<Byte>>, objects: seq<seq<Byte>>): seq<Byte>
    requires |gaps| == |objects| + 1
  {
    if objects == [] then gaps[0]
    else gaps[0] + objects[0] + Weave(gaps[1..], objects[1..])
  }

  lemma CutObject(done: seq<seq<Byte>>, o: seq<Byte>)
    requires IsObject(o)
    ensures CutBytes(Cut(done, [], RESET, false), o) == Cut(done + [o], [], RESET, false)
  {
    CutShift(NOTHING, done, o);
    assert NOTHING.(objects := done + NOTHING.objects) == Cut(done, [], RESET, false);
  }

  ghost predicate AllObjects(objects: seq<seq<Byte>>) {
    forall i :: 0 <= i < |objects| ==> IsObject(objects[i])
  }

  predicate AllGaps(gaps: seq<seq<Byte>>) {
    forall i :: 0 <= i < |gaps| ==> AllWs(gaps[i])
  }

  /** Whole objects, whatever whitespace separates them, are cut back into themselves. */
  lemma {:induction false} WeaveIsCut(done: seq<seq<Byte>>, gaps: seq<seq<Byte>>, objects: seq<seq<Byte>>)
    requires |gaps| == |objects| + 1 && AllGaps(gaps) && AllObjects(objects)
    ensures CutBytes(Cut(done, [], RESET, false), Weave(gaps, objects))
         == Cut(done + objects, [], RESET, false)
    decreases |objects|
  {
    var c := Cut(done, [], RESET, false);
    CutWs(c, gaps[0]);
    if objects == [] {
      assert done + objects == done;
    } else {
      var rest := Weave(gaps[1..], objects[1..]);
      var o := objects[0];
      calc {
        CutBytes(c, Weave(gaps, objects));
        { assert Weave(gaps, objects) == gaps[0] + (o + rest); CutConcat(c, gaps[0], o + rest); }
        CutBytes(c, o + rest);
        { CutConcat(c, o, rest); CutObject(done, o); }
        CutBytes(Cut(done + [o], [], RESET, false), rest);
        { WeaveIsCut(done + [o], gaps[1..], objects[1..]); }
        Cut(done + [o] + objects[1..], [], RESET, false);
        { assert done + [o] + objects[1..] == done + objects; }
        Cut(done + objects, [], RESET, false);
      }
    }
  }

  lemma {:induction false} CutSizes(c: Cut, s: seq<Byte>)
    requires c.objects == []
    ensures CutBytes(c, s).objects != [] ==> |CutBytes(c, s).objects[0]| <= |c.open| + |s|
    decreases s
  {
    if s != [] {
      var next := CutByte(c, s[0]);
      if next.objects == [] {
        CutSizes(next, s[1..]);
      } else {
        CutGrows(next, s[1..]);
      }
    }
  }

  /** No proper prefix of a whole object is reported complete, nor as garbage. */
  lemma ObjectPrefixPending(o: seq<Byte>, k: nat)
    requires IsObject(o) && k < |o|
    ensures CutBytes(NOTHING, o[..k]).objects == [] && !CutBytes(NOTHING, o[..k]).bad
    ensures Find(o[..k]).Pending?
  {
    var c := CutBytes(NOTHING, o[..k]);
    assert o == o[..k] + o[k..];
    CutConcat(NOTHING, o[..k], o[k..]);
    CutGrows(c, o[k..]);
    CutSizes(NOTHING, o[..k]);
    assert c.objects == [] || c.objects == [o];
    FindMeaning(o[..k]);
  }
}
