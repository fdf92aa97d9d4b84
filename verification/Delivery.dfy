/** What a host may rely on: a stream is delivered as the framer cuts it, and what can go missing. */
module Delivery {
  import opened Bytes
  import opened Numbers
  import P = Protocol
  import opened Decode
  import opened Events
  import opened EventLog
  import opened Hub
  import opened Conns
  import opened Frame
  import opened Serving
  import opened Streams
  import opened Fates
  import opened Sizes
  import opened Replies

  /** What every call leaves of a connection's buffer and history. */
  ghost predicate Followed(lib: NumLib, max: nat, c: Conn) {
    Resting(lib, max, c) && Told(lib, max, c, [])
  }

  lemma FreshIsFollowed(lib: NumLib, max: nat, c: Conn)
    requires c.rx == [] && c.scan == 0 && c.framer == RESET && c.story == NO_STORY
    ensures Followed(lib, max, c)
  {
    hide Good;
    EmptyIsFramed(lib, max, c);
  }

  lemma OfferTold(lib: NumLib, max: nat, c: Conn, data: seq<Byte>)
    requires Told(lib, max, c, [])
    ensures Told(lib, max, c.(story := c.story.(offered := c.story.offered + data)), data)
  {
    hide Good;
    assert c.story.fed + [] == c.story.fed;
    if Good(lib, max, c.story.offered + data) {
      GoodPrefix(lib, max, c.story.offered, data);
    }
  }

  lemma OfferFramed(lib: NumLib, max: nat, c: Conn, data: seq<Byte>)
    requires Framed(lib, max, c)
    ensures Framed(lib, max, c.(story := c.story.(offered := c.story.offered + data)))
  {
    hide Good;
    assert Seen(c.(story := c.story.(offered := c.story.offered + data))) == Seen(c);
  }

  lemma MissFramed(lib: NumLib, max: nat, c: Conn, n: nat)
    requires Framed(lib, max, c)
    ensures Framed(lib, max, Miss(c, n))
  {
    hide Good;
    assert Seen(Miss(c, n)) == Seen(c);
  }

  lemma RetainFollowed(lib: NumLib, max: nat, c: Conn, rest: seq<Byte>)
    requires Framed(lib, max, c) && !InMessage(c.framer) && c.scan == 0 && |c.rx| + |rest| <= max + 1
    requires Told(lib, max, c, rest)
    ensures Followed(lib, max, Append(c, rest))
  {
    hide Good, Framed;
    AppendFramed(lib, max, c, rest);
    var d := Append(c, rest);
    assert d.story.fed + [] == c.story.fed + rest;
  }

  lemma LoseFollowed(lib: NumLib, max: nat, c: Conn, rest: seq<Byte>)
    requires rest != [] && Told(lib, max, c, rest) && !InMessage(c.framer) && c.scan == 0
    ensures Followed(lib, max, Miss(ResetRx(c), |c.rx| + |rest|))
  {
    hide Good, Resting;
    var d := Miss(ResetRx(c), |c.rx| + |rest|);
    EmptyIsFramed(lib, max, d);
    LoseTold(lib, max, c, rest);
  }

  lemma LoseTold(lib: NumLib, max: nat, c: Conn, rest: seq<Byte>)
    requires rest != [] && Told(lib, max, c, rest) && !InMessage(c.framer) && c.scan == 0
    ensures Told(lib, max, Miss(ResetRx(c), |c.rx| + |rest|), [])
  {
    hide Good, Total;
  }

  lemma DrainedFollowed(lib: NumLib, max: nat, c: Conn, rest: seq<Byte>)
    requires Framed(lib, max, c) && Told(lib, max, c, rest)
    requires c.scan == |c.rx| && |c.rx| <= max && (!InMessage(c.framer) ==> c.rx == [])
    ensures Followed(lib, max, Miss(c, |rest|))
  {
    hide Good, Framed;
    MissFramed(lib, max, c, |rest|);
    if rest == [] {
      assert c.story.fed + rest == c.story.fed + [];
    }
  }

  /**
   * Every call keeps the buffer and its history in step. After an Ok at most `max` bytes are
   * left, all scanned; after a refusal everything left is still to be framed.
   */
  lemma TakeBytesFollowed(w: World, e: Env, c: Conn, data: seq<Byte>, at: int)
    requires e.log.cap > 0 && e.cfg.maxMessage < DEPTH_WRAP && Followed(w.lib, e.cfg.maxMessage, c)
    ensures var (f, d, status) := TakeBytes(w, e, c, data, at);
            && Followed(w.lib, e.cfg.maxMessage, d)
            && d.story.offered == c.story.offered + data
            && d.story.missing >= c.story.missing && d.story.errors >= c.story.errors && d.story.messages >= c.story.messages
            && (status == P.Ok ==> d.scan == |d.rx| && |d.rx| <= e.cfg.maxMessage)
            && (status == P.QueueFull ==> d.scan == 0 && !InMessage(d.framer))
            && (status == P.Ok || status == P.QueueFull)
  {
    hide Absorb, Good, Framed, Told, Followed;
    var lib, max := w.lib, e.cfg.maxMessage;
    FollowedFields(lib, max, c);
    var c0 := c.(story := c.story.(offered := c.story.offered + data));
    OfferTold(lib, max, c, data);
    OfferFramed(lib, max, c, data);
    AbsorbTold(w, e, c0, data, at);
    AbsorbKept(w, e, c0, data, at);
    var (e1, d, rest, full) := Absorb(w, e, c0, data, at);
    KeptFields(e, c0, e1, d);
    if full {
      if rest == [] || |rest| <= Room(e1, d) {
        RetainFollowed(lib, max, d, rest);
      } else {
        LoseFollowed(lib, max, d, rest);
      }
    } else {
      DrainedFollowed(lib, max, d, rest);
    }
  }

  lemma FollowedFields(lib: NumLib, max: nat, c: Conn)
    requires Followed(lib, max, c)
    ensures Framed(lib, max, c) && Told(lib, max, c, []) && c.scan <= |c.rx| && |c.rx| <= max + 1
  {
    hide Good;
  }

  lemma RestingFramer(lib: NumLib, max: nat, c: Conn)
    requires Followed(lib, max, c)
    ensures !InMessage(c.framer) ==> c.framer == RESET
  {
    hide Good;
  }

  lemma PutOffFollowed(lib: NumLib, max: nat, c: Conn, next: int)
    requires Followed(lib, max, c)
    ensures Followed(lib, max, c.(nextWrite := next))
  {
    hide Good;
    assert Seen(c.(nextWrite := next)) == Seen(c);
  }

  // --------------------------------------------------------------------------------------
  // What goes missing
  // --------------------------------------------------------------------------------------

  /** What a call finds: the bytes to be framed, those pending first, and what they will come to. */
  function Ahead(c: Conn, data: seq<Byte>): seq<Byte>
    requires c.scan <= |c.rx|
  {
    c.rx[c.scan..] + data
  }

  function FateAhead(lib: NumLib, e: Env, c: Conn, data: seq<Byte>): Fate
    requires c.scan <= |c.rx|
  {
    FateOf(lib, e.cfg, |e.writes|, Here(c), Ahead(c, data))
  }

  /** The buffer is full, and framing it will neither stop nor fail: new bytes have nowhere to go. */
  predicate NoRoom(lib: NumLib, e: Env, c: Conn, data: seq<Byte>)
    requires c.scan <= |c.rx|
  {
    |c.rx| == Capacity(e.cfg) && data != [] && FateAhead(lib, e, c, []) == Through
  }

  lemma AbsorbEmpty(w: World, e: Env, c: Conn, at: int)
    requires c.rx == [] && c.scan == 0
    ensures var (f, d, rest, full) := Absorb(w, e, c, [], at); rest == [] && !full && d.story.errors == c.story.errors && d.scan <= |d.rx|
  {
    var none: seq<Byte> := [];
    assert none[..0] == [] && none[0..] == [];
    NothingAppended(c, none);
  }

  lemma NothingAppended(c: Conn, more: seq<Byte>)
    requires more == []
    ensures Append(c, more) == c
  {
    assert c.rx + more == c.rx && c.story.fed + more == c.story.fed;
  }

  /** The part of what comes that is framed. */
  function Consumed(fate: Fate, ahead: seq<Byte>): seq<Byte> {
    if fate.Blocked? && fate.at <= |ahead| then ahead[..fate.at] else ahead
  }

  /** What the loop comes to: all taken, an error, a refusal at a message, or nothing taken at all. */
  ghost predicate Foretold(lib: NumLib, e: Env, c: Conn, data: seq<Byte>, f: Env, d: Conn, rest: seq<Byte>, full: bool)
    requires c.scan <= |c.rx|
  {
    var fate, ahead := FateAhead(lib, e, c, data), Ahead(c, data);
    && d.scan <= |d.rx|
    && (full <==> fate.Blocked?)
    && (!full ==> rest == [])
    && (d.story.errors > c.story.errors <==> fate == Faulty)
    && (fate != Faulty ==>
          && Here(d) == CutBytes(Here(c), Consumed(fate, ahead))
          && d.story.messages - c.story.messages == |d.story.delivered| - |c.story.delivered|)
    && (fate.Blocked? ==>
          && fate.at <= |ahead| && d.rx + rest == ahead[fate.at..]
          && |f.writes| == WaitingAfter(lib, e.cfg, |e.writes|, Here(c), ahead[..fate.at]))
  }

  lemma RoundFate(w: World, e: Env, c: Conn, data: seq<Byte>, at: int)
    requires e.log.cap > 0 && e.cfg.maxMessage < DEPTH_WRAP && Framed(w.lib, e.cfg.maxMessage, c) && c.scan <= |c.rx|
    ensures var n := Taken(e, c, data);
            Fated(w, e.cfg, |e.writes|, Here(c), Ahead(c, data[..n]), RoundOf(w, e, c, data, at))
  {
    hide Fated, FramePending, Framed, FateOf;
    var n := Taken(e, c, data);
    var c1 := Append(c, data[..n]);
    AppendFramed(w.lib, e.cfg.maxMessage, c, data[..n]);
    FramePendingFate(w, e, c1, at);
    assert c1.rx[c1.scan..] == Ahead(c, data[..n]);
    assert c1.rx[..c1.scan] == c.rx[..c.scan];
  }

  /** A round that takes everything there is room for, and the rest of the stream. */
  lemma RoundSplits(w: World, e: Env, c: Conn, data: seq<Byte>, at: int)
    requires e.log.cap > 0 && e.cfg.maxMessage < DEPTH_WRAP && Framed(w.lib, e.cfg.maxMessage, c) && c.scan <= |c.rx|
    ensures var n, t := Taken(e, c, data), RoundOf(w, e, c, data, at);
            var fate := FateAhead(w.lib, e, c, data);
            && t.conn.scan <= |t.conn.rx|
            && (FateAhead(w.lib, e, c, data[..n]) == Through <==> t.ending == Drained)
            && match t.ending
               case Discarded => fate == Faulty
               case Refused =>
                 && fate.Blocked? && fate.at <= |Ahead(c, data)| && t.conn.rx + data[n..] == Ahead(c, data)[fate.at..]
                 && |t.env.writes| == WaitingAfter(w.lib, e.cfg, |e.writes|, Here(c), Ahead(c, data)[..fate.at])
                 && Here(t.conn) == CutBytes(Here(c), Ahead(c, data)[..fate.at])
               case Drained =>
                 && t.conn.scan == |t.conn.rx|
                 && fate == Later(FateAhead(w.lib, t.env, t.conn, data[n..]), |Ahead(c, data[..n])|)
                 && Here(t.conn) == CutBytes(Here(c), Ahead(c, data[..n]))
                 && |t.env.writes| == WaitingAfter(w.lib, e.cfg, |e.writes|, Here(c), Ahead(c, data[..n]))
  {
    hide FramePending, Framed, FateOf, CutBytes, WaitingAfter;
    var n, t := Taken(e, c, data), RoundOf(w, e, c, data, at);
    var a := Ahead(c, data[..n]);
    RoundFate(w, e, c, data, at);
    assert Ahead(c, data) == a + data[n..];
    FateConcat(w.lib, e.cfg, |e.writes|, Here(c), a, data[n..]);
    var fate := FateOf(w.lib, e.cfg, |e.writes|, Here(c), a);
    if t.ending == Drained {
      assert Ahead(t.conn, data[n..]) == data[n..];
    } else if t.ending == Refused {
      assert (a + data[n..])[fate.at..] == a[fate.at..] + data[n..];
      assert (a + data[n..])[..fate.at] == a[..fate.at];
    }
  }

  lemma LaterForetold(lib: NumLib, e: Env, c: Conn, data: seq<Byte>, n: nat, e1: Env, c1: Conn,
                      f: Env, d: Conn, rest: seq<Byte>, full: bool)
    requires n <= |data| && c.scan <= |c.rx| && c1.scan == |c1.rx| && c1.story.errors == c.story.errors
    requires c1.story.messages - c.story.messages == |c1.story.delivered| - |c.story.delivered|
    requires Foretold(lib, e1, c1, data[n..], f, d, rest, full) && e1.cfg == e.cfg
    requires FateAhead(lib, e, c, data) == Later(FateAhead(lib, e1, c1, data[n..]), |Ahead(c, data[..n])|)
    requires Here(c1) == CutBytes(Here(c), Ahead(c, data[..n]))
    requires |e1.writes| == WaitingAfter(lib, e.cfg, |e.writes|, Here(c), Ahead(c, data[..n]))
    ensures Foretold(lib, e, c, data, f, d, rest, full)
  {
    hide FateAhead, Here, CutBytes, WaitingAfter;
    var a, b := Ahead(c, data[..n]), data[n..];
    var fate := FateAhead(lib, e1, c1, b);
    assert Ahead(c1, b) == b && Ahead(c, data) == a + b;
    CutConcat(Here(c), a, if fate.Blocked? then b[..fate.at] else b);
    if fate.Blocked? {
      assert (a + b)[fate.at + |a|..] == b[fate.at..] && (a + b)[..fate.at + |a|] == a + b[..fate.at];
      WaitingConcat(lib, e.cfg, |e.writes|, Here(c), a, b[..fate.at]);
    }
  }

  lemma {:induction false} AbsorbFate(w: World, e: Env, c: Conn, data: seq<Byte>, at: int)
    requires e.log.cap > 0 && e.cfg.maxMessage < DEPTH_WRAP
    requires Framed(w.lib, e.cfg.maxMessage, c) && |c.rx| <= Capacity(e.cfg) && Told(w.lib, e.cfg.maxMessage, c, data)
    requires c.scan <= |c.rx|
    ensures var (f, d, rest, full) := Absorb(w, e, c, data, at);
            if NoRoom(w.lib, e, c, data) then !full && rest == data && d.story.errors == c.story.errors
            else Foretold(w.lib, e, c, data, f, d, rest, full)
    decreases |data|, |c.rx|
  {
    hide Framed, Told, Good, Absorb, FateOf, RoundOf, Spoil, Here, FateAhead, WaitingAfter, CutBytes;
    var n, t := Taken(e, c, data), RoundOf(w, e, c, data, at);
    RoundTold(w, e, c, data, at);
    AbsorbRound(w, e, c, data, at);
    RoundSplits(w, e, c, data, at);
    FullBefore(w.lib, e, c, data);
    if t.ending == Discarded {
      var d := Spoil(t.conn, |data| - n);
      SpoilKeeps(t.conn, |data| - n);
      AbsorbEmpty(w, t.env, d, at);
    } else if t.ending == Drained && n != 0 && n != |data| {
      AbsorbFate(w, t.env, t.conn, data[n..], at);
      var (f, d, rest, full) := Absorb(w, t.env, t.conn, data[n..], at);
      LaterForetold(w.lib, e, c, data, n, t.env, t.conn, f, d, rest, full);
    }
  }

  lemma SpoilKeeps(c: Conn, n: nat)
    ensures Spoil(c, n).rx == c.rx && Spoil(c, n).scan == c.scan && Spoil(c, n).story.errors == c.story.errors
  {
  }

  /** A round that takes nothing although there is something has found the buffer full. */
  lemma FullBefore(lib: NumLib, e: Env, c: Conn, data: seq<Byte>)
    requires c.scan <= |c.rx| <= Capacity(e.cfg)
    ensures var n := Taken(e, c, data);
            && (n == 0 && data != [] ==> |c.rx| == Capacity(e.cfg) && data[..n] == [] && data[n..] == data)
            && (n != 0 ==> !NoRoom(lib, e, c, data))
            && (data == [] ==> !NoRoom(lib, e, c, data) && n == 0 && data[n..] == [] && data[..n] == data)
            && (n == |data| ==> data[n..] == [] && data[..n] == data)
  {
    hide FateOf;
  }

  /** What a call leaves of what a refusal found: all of it pending if the buffer can hold it, nothing if not. */
  function Lost(cfg: Config, fate: Fate, ahead: nat): nat {
    if fate.Blocked? && ahead - fate.at > Capacity(cfg) then ahead - fate.at else 0
  }

  /**
   * Exactly when and how many offered bytes go missing, told before the call. Either the buffer is
   * full and framing it will neither stop nor fail: then all the new bytes go, without a word. Or a
   * message begins with the write ring full, and from its first byte on there is more than the
   * buffer holds: then all of that goes, what was pending included. Otherwise nothing does; bytes
   * that fit the buffer as it stands never go missing.
   */
  lemma MissingExactly(w: World, e: Env, c: Conn, data: seq<Byte>, at: int)
    requires e.log.cap > 0 && e.cfg.maxMessage < DEPTH_WRAP && Followed(w.lib, e.cfg.maxMessage, c)
    requires c.scan <= |c.rx|
    ensures var (f, d, status) := TakeBytes(w, e, c, data, at);
            var fate := FateAhead(w.lib, e, c, data);
            && d.story.missing - c.story.missing
               == (if NoRoom(w.lib, e, c, data) then |data| else Lost(e.cfg, fate, |Ahead(c, data)|))
            && (status == P.QueueFull <==> !NoRoom(w.lib, e, c, data) && fate.Blocked?)
            && (d.story.errors > c.story.errors <==> !NoRoom(w.lib, e, c, data) && fate == Faulty)
            && (status == P.QueueFull ==>
                  |f.writes| == WaitingAfter(w.lib, e.cfg, |e.writes|, Here(c), Ahead(c, data)[..fate.at]))
            && (status == P.QueueFull ==>
                  d.rx == if Lost(e.cfg, fate, |Ahead(c, data)|) > 0 then [] else Ahead(c, data)[fate.at..])
            && (|c.rx| + |data| <= Capacity(e.cfg) ==> d.story.missing == c.story.missing)
  {
    hide Absorb, Good, Framed, Told, Followed, FateOf, Emit, WaitingAfter;
    var lib, max := w.lib, e.cfg.maxMessage;
    FollowedFields(lib, max, c);
    var c0 := c.(story := c.story.(offered := c.story.offered + data));
    OfferTold(lib, max, c, data);
    OfferFramed(lib, max, c, data);
    AbsorbTold(w, e, c0, data, at);
    AbsorbFate(w, e, c0, data, at);
    AbsorbKept(w, e, c0, data, at);
    var (e1, d, rest, full) := Absorb(w, e, c0, data, at);
    KeptFields(e, c0, e1, d);
  }

  /**
   * Every byte offered is one of these: whitespace between messages, part of a delivered object,
   * thrown away with a reported error, missing, or still pending.
   */
  lemma BytesAccounted(lib: NumLib, max: nat, c: Conn)
    requires Followed(lib, max, c)
    ensures |c.story.offered| == c.story.blank + c.story.carried + c.story.refused + c.story.missing + |c.rx|
    ensures c.story.errors == 0 ==> c.story.refused == 0
    ensures c.story.errors == 0 && c.story.missing == 0 ==> c.story.carried == Total(c.story.delivered)
  {
    hide Good, Framed;
  }

  lemma EqualFront(a: seq<Byte>, b: seq<Byte>, s: seq<Byte>)
    ensures a + s == b + s ==> a == b
  {
    if a + s == b + s {
      assert a == (a + s)[..|a|] && b == (b + s)[..|b|];
    }
  }

  /**
   * What the framer has been fed since the buffer was last emptied, after a call: everything before
   * it and the new bytes; but nothing new where they found no room, and nothing at all where the call
   * reported an error or lost what was pending.
   */
  lemma FedExactly(w: World, e: Env, c: Conn, data: seq<Byte>, at: int)
    requires e.log.cap > 0 && e.cfg.maxMessage < DEPTH_WRAP && Followed(w.lib, e.cfg.maxMessage, c)
    requires c.scan <= |c.rx|
    ensures var d := TakeBytes(w, e, c, data, at).1;
            var fate := FateAhead(w.lib, e, c, data);
            d.story.fed == if NoRoom(w.lib, e, c, data) then c.story.fed
                           else if fate == Faulty || Lost(e.cfg, fate, |Ahead(c, data)|) > 0 then []
                           else c.story.fed + data
  {
    hide Absorb, Good, Framed, Told, Followed, FateOf, Emit, WaitingAfter, CutBytes;
    var lib, max := w.lib, e.cfg.maxMessage;
    FollowedFields(lib, max, c);
    var c0 := c.(story := c.story.(offered := c.story.offered + data));
    OfferTold(lib, max, c, data);
    OfferFramed(lib, max, c, data);
    AbsorbTold(w, e, c0, data, at);
    AbsorbFate(w, e, c0, data, at);
    AbsorbFed(w, e, c0, data, at);
    AbsorbKept(w, e, c0, data, at);
    var (e1, d, rest, full) := Absorb(w, e, c0, data, at);
    KeptFields(e, c0, e1, d);
    if rest == [] {
      assert d.story.fed + rest == d.story.fed;
    }
    EqualFront(d.story.fed, c.story.fed, data);
  }

  /** Whatever has gone missing or been an error: what was delivered since the buffer was last emptied. */
  lemma DeliveredSince(lib: NumLib, max: nat, c: Conn)
    requires Followed(lib, max, c)
    ensures c.scan <= |c.rx| && Unscanned(c) <= |c.story.fed|
    ensures c.story.fed == Seen(c) + c.rx[c.scan..] && c.story.delivered == FindAll(Seen(c)) && Good(lib, max, Seen(c))
  {
    hide Good, Placed;
    FindAllIsCut(Seen(c));
  }

  // --------------------------------------------------------------------------------------
  // What is delivered, and what is answered
  // --------------------------------------------------------------------------------------

  /**
   * How many messages a call delivers, told before the call: the objects completed in the part of
   * the stream that will be framed.
   */
  lemma DeliveredExactly(w: World, e: Env, c: Conn, data: seq<Byte>, at: int)
    requires e.log.cap > 0 && e.cfg.maxMessage < DEPTH_WRAP && Followed(w.lib, e.cfg.maxMessage, c)
    requires c.scan <= |c.rx| && !NoRoom(w.lib, e, c, data)
    ensures var (f, d, status) := TakeBytes(w, e, c, data, at);
            var fate := FateAhead(w.lib, e, c, data);
            && (d.story.errors > c.story.errors <==> fate == Faulty)
            && (fate != Faulty ==>
                  && |c.story.delivered| <= |CutBytes(Here(c), Consumed(fate, Ahead(c, data))).objects|
                  && d.story.messages - c.story.messages
                     == |CutBytes(Here(c), Consumed(fate, Ahead(c, data))).objects| - |c.story.delivered|)
  {
    hide Absorb, Good, Framed, Told, Followed, FateOf, Emit, WaitingAfter, CutBytes, Consumed, Room;
    var lib, max := w.lib, e.cfg.maxMessage;
    FollowedFields(lib, max, c);
    var c0 := c.(story := c.story.(offered := c.story.offered + data));
    OfferTold(lib, max, c, data);
    OfferFramed(lib, max, c, data);
    AbsorbTold(w, e, c0, data, at);
    AbsorbFate(w, e, c0, data, at);
    CutGrows(Here(c), Consumed(FateAhead(lib, e, c, data), Ahead(c, data)));
  }

  /** Where the framer stands after a call: behind the part of the stream that was framed. */
  lemma HereAfter(w: World, e: Env, c: Conn, data: seq<Byte>, at: int)
    requires e.log.cap > 0 && e.cfg.maxMessage < DEPTH_WRAP && Followed(w.lib, e.cfg.maxMessage, c)
    requires c.scan <= |c.rx| && !NoRoom(w.lib, e, c, data) && FateAhead(w.lib, e, c, data) != Faulty
    requires Lost(e.cfg, FateAhead(w.lib, e, c, data), |Ahead(c, data)|) == 0
    ensures var (f, d, status) := TakeBytes(w, e, c, data, at);
            && d.scan <= |d.rx|
            && Here(d) == CutBytes(Here(c), Consumed(FateAhead(w.lib, e, c, data), Ahead(c, data)))
  {
    hide Absorb, Good, Framed, Told, Followed, FateOf, Emit, WaitingAfter, CutBytes, Consumed;
    var lib, max := w.lib, e.cfg.maxMessage;
    FollowedFields(lib, max, c);
    var c0 := c.(story := c.story.(offered := c.story.offered + data));
    OfferTold(lib, max, c, data);
    OfferFramed(lib, max, c, data);
    AbsorbTold(w, e, c0, data, at);
    AbsorbFate(w, e, c0, data, at);
    AbsorbKept(w, e, c0, data, at);
    var (e1, d, rest, full) := Absorb(w, e, c0, data, at);
    KeptFields(e, c0, e1, d);
  }

  /** The message being received is still being received after `data`. */
  predicate StaysOpen(max: nat, c: Conn, data: seq<Byte>)
    requires c.scan <= |c.rx|
  {
    var x := CutBytes(Here(c), Ahead(c, data));
    InMessage(c.framer) && |c.rx| + |data| <= max && x.objects == c.story.delivered && !x.bad
  }

  /** A message that completes nothing goes on growing. */
  lemma {:induction false} GoesOn(c: Cut, s: seq<Byte>)
    requires InMessage(c.state) && !c.bad && !CutBytes(c, s).bad && CutBytes(c, s).objects == c.objects
    requires c.state.depth + |s| < DEPTH_WRAP
    ensures InMessage(CutBytes(c, s).state) && CutBytes(c, s).open == c.open + s
    ensures s != [] ==> CutByte(c, s[0]).objects == c.objects && InMessage(CutByte(c, s[0]).state) && !CutByte(c, s[0]).bad
    decreases |s|
  {
    if s == [] {
      assert c.open + s == c.open;
    } else {
      var d := CutByte(c, s[0]);
      CutGrows(d, s[1..]);
      GoesOn(d, s[1..]);
      assert c.open + [s[0]] + s[1..] == c.open + s;
    }
  }

  lemma {:induction false} OpenIsThrough(lib: NumLib, cfg: Config, n: nat, c: Cut, s: seq<Byte>)
    requires InMessage(c.state) && !c.bad && CutBytes(c, s).objects == c.objects && c.state.depth + |s| < DEPTH_WRAP
    requires Fits(lib, cfg.maxMessage, CutBytes(c, s))
    ensures FateOf(lib, cfg, n, c, s) == Through
    decreases |s|
  {
    hide Deliverable, Waiting;
    if s != [] {
      var d := CutByte(c, s[0]);
      GoesOn(c, s);
      assert |d.open| <= |CutBytes(c, s).open| by { GoesOn(d, s[1..]); }
      OpenIsThrough(lib, cfg, Onwards(lib, cfg, n, c, d), d, s[1..]);
    }
  }

  /** Where framing stops before a message, the one that was being received has been completed. */
  lemma {:induction false} BlockedCompletes(lib: NumLib, cfg: Config, n: nat, c: Cut, s: seq<Byte>)
    requires InMessage(c.state) && !c.bad && c.state.depth <= |c.open| <= cfg.maxMessage < DEPTH_WRAP
    requires FateOf(lib, cfg, n, c, s).Blocked?
    ensures |CutBytes(c, s[..FateOf(lib, cfg, n, c, s).at]).objects| > |c.objects|
    decreases |s|
  {
    hide Deliverable, Waiting;
    var d := CutByte(c, s[0]);
    var m := Onwards(lib, cfg, n, c, d);
    var p := FateOf(lib, cfg, m, d, s[1..]).at;
    var a := s[..p + 1];
    assert a[0] == s[0] && a[1..] == s[1..][..p];
    if |d.objects| > |c.objects| {
      CutGrows(d, s[1..][..p]);
    } else {
      BlockedCompletes(lib, cfg, m, d, s[1..]);
    }
  }

  /** What is being received is nested no deeper than it is long. */
  lemma HereDepth(lib: NumLib, max: nat, c: Conn)
    requires Followed(lib, max, c) && InMessage(c.framer) && max < DEPTH_WRAP
    ensures c.scan == |c.rx| <= max && Here(c).state.depth <= |Here(c).open| <= max
  {
    hide Good;
    DepthBound(NOTHING, c.rx[..c.scan]);
  }

  /**
   * In one call as many replies are queued as messages are delivered and errors reported, exactly
   * if, when the call comes, a slot is free for the message being received, or these bytes do not
   * complete it.
   */
  lemma RepliesForetold(w: World, e: Env, c: Conn, data: seq<Byte>, at: int)
    requires e.log.cap > 0 && e.cfg.maxMessage < DEPTH_WRAP && Followed(w.lib, e.cfg.maxMessage, c)
    requires c.scan <= |c.rx| && AnswersFit(w.lib, e)
    ensures var (f, d, status) := TakeBytes(w, e, c, data, at);
            |f.trace| - |e.trace| == Completions(d) - Completions(c)
            <==> ReplyReady(e, c) || StaysOpen(e.cfg.maxMessage, c, data)
  {
    hide TakeBytes, Followed, TextFits, FateOf, CutBytes, Fits, Room, Here, Consumed, StaysOpen, FateAhead;
    var lib, max := w.lib, e.cfg.maxMessage;
    RepliesExactly(w, e, c, data, at);
    if !ReplyReady(e, c) {
      HereDepth(lib, max, c);
      DeliveredExactly(w, e, c, data, at);
      TakeBytesFollowed(w, e, c, data, at);
      CompletedExactly(lib, e, c, data);
    }
  }

  /** The message being received is completed unless it stays open. */
  lemma CompletedExactly(lib: NumLib, e: Env, c: Conn, data: seq<Byte>)
    requires e.cfg.maxMessage < DEPTH_WRAP && Followed(lib, e.cfg.maxMessage, c) && c.scan <= |c.rx| && InMessage(c.framer)
    ensures var fate := FateAhead(lib, e, c, data);
            fate != Faulty && |CutBytes(Here(c), Consumed(fate, Ahead(c, data))).objects| == |c.story.delivered|
            <==> StaysOpen(e.cfg.maxMessage, c, data)
  {
    hide Followed, Deliverable, CutBytes, FateOf;
    var max, s := e.cfg.maxMessage, Ahead(c, data);
    var fate := FateAhead(lib, e, c, data);
    HereDepth(lib, max, c);
    FitsHere(lib, max, c);
    if StaysOpen(max, c, data) {
      GoesOn(Here(c), s);
      StillFits(lib, max, Here(c), CutBytes(Here(c), s));
      OpenIsThrough(lib, e.cfg, |e.writes|, Here(c), s);
    } else if fate.Blocked? {
      BlockedCompletes(lib, e.cfg, |e.writes|, Here(c), s);
    } else if fate == Through {
      ThroughStays(lib, e.cfg, |e.writes|, Here(c), s);
    }
  }

  lemma FitsHere(lib: NumLib, max: nat, c: Conn)
    requires Followed(lib, max, c)
    ensures c.scan <= |c.rx| && Fits(lib, max, Here(c))
  {
    hide Good, Fits;
    SeenFits(lib, max, c);
  }

  lemma StillFits(lib: NumLib, max: nat, c: Cut, d: Cut)
    requires Fits(lib, max, c) && d.objects == c.objects && !d.bad && |d.open| <= max
    ensures Fits(lib, max, d)
  {
    hide Deliverable;
  }

  /** Framed through without completing anything, a message has stayed within the bound. */
  lemma {:induction false} ThroughStays(lib: NumLib, cfg: Config, n: nat, c: Cut, s: seq<Byte>)
    requires InMessage(c.state) && !c.bad && c.state.depth <= |c.open| <= cfg.maxMessage < DEPTH_WRAP
    requires FateOf(lib, cfg, n, c, s) == Through
    ensures |CutBytes(c, s).objects| > |c.objects|
            || (CutBytes(c, s).objects == c.objects && |c.open| + |s| <= cfg.maxMessage && !CutBytes(c, s).bad)
    decreases |s|
  {
    hide Deliverable, Waiting;
    if s != [] {
      var d := CutByte(c, s[0]);
      if |d.objects| > |c.objects| {
        CutGrows(d, s[1..]);
      } else {
        ThroughStays(lib, cfg, Onwards(lib, cfg, n, c, d), d, s[1..]);
      }
    }
  }

  // --------------------------------------------------------------------------------------
  // The stream theorem
  // --------------------------------------------------------------------------------------

  /**
   * When nothing has gone missing and everything has been scanned: errors were reported exactly if
   * the stream gave reason to, and otherwise exactly the objects were delivered that repeated
   * `gsp_frame_find` cuts from the whole stream, whatever the calls it came in.
   */
  lemma StreamDelivered(lib: NumLib, max: nat, c: Conn)
    requires Followed(lib, max, c) && c.story.missing == 0 && c.scan == |c.rx|
    ensures c.story.errors == 0 <==> Good(lib, max, c.story.offered)
    ensures c.story.errors == 0 ==>
              c.story.delivered == FindAll(c.story.offered) && c.rx == CutBytes(NOTHING, c.story.offered).open
  {
    hide Good;
    if c.story.errors == 0 {
      assert c.story.offered == c.story.fed == Seen(c) by {
        assert c.story.fed + [] == c.story.fed;
        assert c.story.fed[..|c.story.fed|] == c.story.fed;
      }
      FindAllIsCut(c.story.offered);
      assert c.rx[..|c.rx|] == c.rx;
    }
  }

  /** With bytes still pending behind a full write ring, what was delivered is the beginning of it. */
  lemma StreamPending(lib: NumLib, max: nat, c: Conn)
    requires Followed(lib, max, c) && c.story.missing == 0 && c.story.errors == 0
    ensures c.story.delivered <= FindAll(c.story.offered)
  {
    hide Good;
    var all := c.story.offered;
    assert all == c.story.fed + [] == Seen(c) + c.rx[c.scan..];
    CutConcat(NOTHING, Seen(c), c.rx[c.scan..]);
    CutGrows(Here(c), c.rx[c.scan..]);
    FindAllIsCut(all);
  }

  lemma {:induction false} OpenSize(c: Cut, s: seq<Byte>)
    ensures |CutBytes(c, s).open| <= |c.open| + |s| || |CutBytes(c, s).open| == 1
    ensures s == [] ==> CutBytes(c, s) == c
    decreases s
  {
    if s != [] {
      OpenSize(CutByte(c, s[0]), s[1..]);
    }
  }

  lemma {:induction false} WsIsGood(lib: NumLib, max: nat, a: seq<Byte>, gap: seq<Byte>)
    requires Good(lib, max, a) && AllWs(gap) && CutBytes(NOTHING, a).state.depth == 0
    ensures Good(lib, max, a + gap) && CutBytes(NOTHING, a + gap) == CutBytes(NOTHING, a)
    decreases |gap|
  {
    hide Good, Fits;
    if gap == [] {
      assert a + gap == a;
    } else {
      var n := |gap| - 1;
      WsIsGood(lib, max, a, gap[..n]);
      var b := a + gap[..n];
      assert a + gap == b + [gap[n]];
      CutSnoc(NOTHING, b, gap[n]);
      GoodFits(lib, max, b);
      GoodSnoc(lib, max, b, gap[n]);
    }
  }

  lemma GoodFits(lib: NumLib, max: nat, s: seq<Byte>)
    requires Good(lib, max, s)
    ensures Fits(lib, max, CutBytes(NOTHING, s))
  {
    hide Fits;
    assert FitsAt(lib, max, s, |s|);
    assert s[..|s|] == s;
  }

  lemma {:induction false} PartIsGood(lib: NumLib, max: nat, a: seq<Byte>, done: seq<seq<Byte>>, o: seq<Byte>, k: nat)
    requires Good(lib, max, a) && CutBytes(NOTHING, a) == Cut(done, [], RESET, false)
    requires IsObject(o) && Deliverable(lib, max, o) && k < |o| && max < DEPTH_WRAP && max >= 1
    ensures Good(lib, max, a + o[..k])
    ensures CutBytes(NOTHING, a + o[..k]) == CutBytes(Cut(done, [], RESET, false), o[..k])
    decreases k
  {
    hide Good, Deliverable;
    CutConcat(NOTHING, a, o[..k]);
    if k == 0 {
      assert a + o[..k] == a;
    } else {
      PartIsGood(lib, max, a, done, o, k - 1);
      assert a + o[..k] == a + o[..k - 1] + [o[k - 1]];
      GoodFits(lib, max, a);
      ObjectPrefixPending(o, k);
      CutShift(NOTHING, done, o[..k]);
      assert NOTHING.(objects := done + NOTHING.objects) == Cut(done, [], RESET, false);
      DeliverableSize(lib, max, o);
      OpenSize(NOTHING, o[..k]);
      assert done + [] == done;
      GoodSnoc(lib, max, a + o[..k - 1], o[k - 1]);
    }
  }

  lemma DeliverableSize(lib: NumLib, max: nat, o: seq<Byte>)
    requires Deliverable(lib, max, o)
    ensures |o| <= max + 1
  {
  }

  lemma ObjectIsGood(lib: NumLib, max: nat, a: seq<Byte>, done: seq<seq<Byte>>, o: seq<Byte>)
    requires Good(lib, max, a) && CutBytes(NOTHING, a) == Cut(done, [], RESET, false)
    requires IsObject(o) && Deliverable(lib, max, o) && 1 <= max < DEPTH_WRAP
    ensures Good(lib, max, a + o) && CutBytes(NOTHING, a + o) == Cut(done + [o], [], RESET, false)
  {
    hide Good, Deliverable;
    var n := |o| - 1;
    ObjectIsSomething(o);
    PartIsGood(lib, max, a, done, o, n);
    assert a + o == a + o[..n] + [o[n]];
    CutConcat(NOTHING, a, o);
    CutObject(done, o);
    GoodFits(lib, max, a);
    GoodSnoc(lib, max, a + o[..n], o[n]);
  }

  lemma ObjectIsSomething(o: seq<Byte>)
    requires IsObject(o)
    ensures |o| >= 1
  {
  }

  ghost predicate AllDeliverable(lib: NumLib, max: nat, objects: seq<seq<Byte>>) {
    forall i :: 0 <= i < |objects| ==> IsObject(objects[i]) && Deliverable(lib, max, objects[i])
  }

  lemma {:induction false} WeaveBehind(lib: NumLib, max: nat, a: seq<Byte>, done: seq<seq<Byte>>,
                                       gaps: seq<seq<Byte>>, objects: seq<seq<Byte>>)
    requires |gaps| == |objects| + 1 && AllGaps(gaps) && AllDeliverable(lib, max, objects) && 1 <= max < DEPTH_WRAP
    requires Good(lib, max, a) && CutBytes(NOTHING, a) == Cut(done, [], RESET, false)
    ensures Good(lib, max, a + Weave(gaps, objects))
    decreases |objects|
  {
    hide Good, Deliverable, IsObject, CutBytes;
    WsIsGood(lib, max, a, gaps[0]);
    if objects != [] {
      ObjectIsGood(lib, max, a + gaps[0], done, objects[0]);
      var b := a + gaps[0] + objects[0];
      WeaveBehind(lib, max, b, done + [objects[0]], gaps[1..], objects[1..]);
      assert a + Weave(gaps, objects) == b + Weave(gaps[1..], objects[1..]);
    }
  }

  /** Decodable objects within the bound, whatever whitespace is between them, are never an error. */
  lemma WeaveIsGood(lib: NumLib, max: nat, gaps: seq<seq<Byte>>, objects: seq<seq<Byte>>)
    requires |gaps| == |objects| + 1 && AllGaps(gaps) && AllDeliverable(lib, max, objects) && 1 <= max < DEPTH_WRAP
    ensures Good(lib, max, Weave(gaps, objects))
  {
    hide Deliverable, Weave;
    assert NOTHING == Cut([], [], RESET, false);
    var none: seq<Byte> := [];
    forall k | 0 <= k <= |none|
      ensures FitsAt(lib, max, none, k)
    {
      assert none[..k] == [];
    }
    WeaveBehind(lib, max, none, [], gaps, objects);
    assert none + Weave(gaps, objects) == Weave(gaps, objects);
  }

  /** The messages of a well-behaved client are all delivered, in order, and nothing else. */
  lemma ObjectsDelivered(lib: NumLib, max: nat, c: Conn, gaps: seq<seq<Byte>>, objects: seq<seq<Byte>>)
    requires Followed(lib, max, c) && c.story.missing == 0 && c.scan == |c.rx|
    requires |gaps| == |objects| + 1 && AllGaps(gaps) && AllDeliverable(lib, max, objects) && 1 <= max < DEPTH_WRAP
    requires c.story.offered == Weave(gaps, objects)
    ensures c.story.errors == 0 && c.story.delivered == objects && c.rx == []
  {
    hide Good, Deliverable, Weave, Followed;
    WeaveIsGood(lib, max, gaps, objects);
    StreamDelivered(lib, max, c);
    WeaveIsCut([], gaps, objects);
    assert AllObjects(objects);
    FindAllIsCut(c.story.offered);
    assert [] + objects == objects;
  }
}
