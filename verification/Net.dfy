/** The transport: sockets that do as they please, and a queue of requests for each. */
module Net {
  import opened Bytes
  import P = Protocol
  import opened Events
  import opened Rings
  import opened Hub
  import opened Server
  import opened Linking
  import Runs
  import Stalls
  import H = Host

  const RETRIES: nat := 4

  class Slot {
    const queue: Ring<Write>
    var inUse: bool
    var conn: nat
    var wantWrite: bool
    var resume: bool
    var offset: nat
    ghost var polled: seq<Write>
    ghost var sent: seq<Byte>
    ghost var answers: seq<Outcome>
    ghost var gone: Peer

    ghost function Parts(): set<object> {
      {this, queue, queue.slots}
    }

    ghost predicate Valid()
      reads this, queue
    {
      queue.Valid()
    }

    ghost function Abs(): Peer
      requires Valid()
      reads this, queue, queue.slots
    {
      Peer(inUse, conn, queue.View(), offset, wantWrite, polled, sent, answers)
    }

    constructor (size: nat)
      requires size > 0
      ensures Valid() && fresh(Parts()) && Abs() == NO_PEER && queue.slots.Length == size
    {
      queue := new Ring(size);
      inUse, conn, wantWrite, resume, offset := false, 0, false, false, 0;
      polled, sent, answers, gone := [], [], [], NO_PEER;
    }

    /** The slot given back; `gone` remembers what it was. */
    method Reset()
      requires Valid()
      modifies this, queue
      ensures Valid() && Abs() == NO_PEER && gone == old(Abs())
    {
      gone := Abs();
      queue.Clear();
      inUse, conn, wantWrite, resume, offset := false, 0, false, false, 0;
      polled, sent, answers := [], [], [];
    }

    method Begin(id: nat)
      requires Valid()
      modifies this, queue
      ensures Valid() && Abs() == NO_PEER.(inUse := true, conn := id)
    {
      queue.Clear();
      inUse, conn, wantWrite, offset := true, id, false, 0;
      polled, sent, answers := [], [], [];
    }

    /** The socket: it may do anything it is allowed to. What it answers and what it takes is history. */
    method Send(data: seq<Byte>) returns (o: Outcome)
      modifies this`answers, this`sent
      ensures o.Took? ==> o.n <= |data|
      ensures answers == old(answers) + [o] && sent == if o.Took? then old(sent) + data[..o.n] else old(sent)
    {
      if {
        case true =>
          var n: nat :| n <= |data|;
          o := Took(n);
        case true => o := WouldBlock;
        case true => o := Broken;
      }
      answers := answers + [o];
      sent := if o.Took? then sent + data[..o.n] else sent;
    }

    method Enqueue(x: Write)
      requires Valid() && queue.count < queue.slots.Length
      modifies this, queue, queue.slots
      ensures Valid() && Abs() == Enqueued(old(Abs()), x)
    {
      queue.Push(x);
      polled := polled + [x];
    }

    /** One send, of what is left of one request and never of more. */
    method SendSome() returns (o: Outcome, done: bool)
      requires Valid() && queue.count > 0 && Flowing(Abs())
      modifies this, queue
      ensures Valid() && Flowing(Abs())
      ensures old(Abs()).waiting != []
      ensures var p := old(Abs()).(answers := old(answers) + [o]);
              if o.Took? then p.offset + o.n <= |p.waiting[0].data| && Abs() == Accepted(p, o.n) else Abs() == p
      ensures queue.count == old(queue.count) - if done then 1 else 0
      ensures done <==> o == Took(LeftOf(old(Abs()), 0))
    {
      hide Flowing;
      ghost var p := Abs();
      assert |queue.View()| == queue.count;
      FirstOffset(p);
      var x := queue.Get(0);
      var left := x.data[offset..];
      o := Send(left);
      done := false;
      AnswerFlows(p, o);
      if o.Took? {
        assert left[..o.n] == x.data[offset..offset + o.n];
        AcceptedFlows(p.(answers := answers), o.n);
        if o.n < |left| {
          offset := offset + o.n;
        } else {
          offset := 0;
          queue.Drop();
          done := true;
        }
      }
    }

    /** `gs_net_flush`: one send per request until the queue is empty, or the socket will not. */
    method Flush() returns (failed: bool)
      requires Valid() && Flowing(Abs())
      modifies this, queue
      ensures Valid() && Flowing(Abs())
      ensures inUse == old(inUse) && conn == old(conn) && polled == old(polled)
      ensures Sent(old(Abs()), Abs(), failed)
    {
      hide Flowing, Accepted, Sent, Behind, LeftOf;
      failed := false;
      ghost var was := Abs();
      NoneSent(was);
      while queue.count > 0
        invariant Valid() && Flowing(Abs())
        invariant inUse == old(inUse) && conn == old(conn) && polled == old(polled)
        invariant !failed && Behind(was, Abs())
        decreases queue.count
      {
        ghost var p := Abs();
        assert |queue.View()| == queue.count;
        var o, done := SendSome();
        FirstOffset(p);
        NextSent(was, p, o);
        p := p.(answers := p.answers + [o]);
        if o.Took? {
          AcceptedKeeps(p, o.n);
        }
        if o == WouldBlock {
          wantWrite := true;
          WantsFlow(p, true);
          assert Abs() == p.(wants := true);
          return;
        }
        if o == Broken {
          return true;
        }
        if !done {
          wantWrite := true;
          WantsFlow(Accepted(p, o.n), true);
          assert Abs() == Accepted(p, o.n).(wants := true);
          return;
        }
      }
      assert |queue.View()| == 0;
      AllSent(was, Abs());
      WantsFlow(Abs(), false);
      wantWrite := false;
    }
  }

  // --------------------------------------------------------------------------------------
  // What a flush did
  // --------------------------------------------------------------------------------------

  /** What is left to send of the request at `i`. */
  function LeftOf(p: Peer, i: nat): nat
    requires i < |p.waiting|
  {
    var begun := if i == 0 then p.offset else 0;
    if begun <= |p.waiting[i].data| then |p.waiting[i].data| - begun else 0
  }

  /** Each of the answers took all that was left of one request. */
  predicate AllWhole(p: Peer, os: seq<Outcome>) {
    |os| <= |p.waiting| && forall i :: 0 <= i < |os| ==> os[i].Took? && os[i].n == LeftOf(p, i)
  }

  /** `q` is `p` after sends that each took one whole request, and took it off the queue. */
  predicate Behind(p: Peer, q: Peer) {
    && p.answers <= q.answers
    && var os := q.answers[|p.answers|..];
       && AllWhole(p, os) && q.waiting == p.waiting[|os|..] && q.offset == (if os == [] then p.offset else 0) && q.wants == p.wants
  }

  /**
   * `q` is `p` flushed. Failed exactly if the socket's last answer was an error; to be watched exactly
   * if the last one took less than was offered, or nothing for now; every other answer took one
   * whole request, and took it off the queue; and if the last one did so too, the queue is empty.
   */
  predicate Sent(p: Peer, q: Peer, failed: bool) {
    && p.answers <= q.answers
    && var os := q.answers[|p.answers|..];
       if AllWhole(p, os) then !failed && |os| == |p.waiting| && q.waiting == [] && q.offset == 0 && !q.wants
       else
         var k := |os| - 1;
         && k < |p.waiting| && AllWhole(p, os[..k]) && q.waiting == p.waiting[k..]
         && var begun := if k == 0 then p.offset else 0;
            match os[k]
            case Broken => failed && q.offset == begun && q.wants == p.wants
            case WouldBlock => !failed && q.offset == begun && q.wants
            case Took(n) => !failed && n < LeftOf(p, k) && q.offset == begun + n && q.wants
  }

  lemma NoneSent(p: Peer)
    ensures Behind(p, p)
  {
  }

  /** One send more. */
  lemma MoreWhole(was: Peer, p: Peer, o: Outcome)
    requires Behind(was, p) && p.waiting != [] && p.offset <= |p.waiting[0].data|
    ensures var os, all := p.answers[|was.answers|..], (p.answers + [o])[|was.answers|..];
            && all == os + [o] && |os| < |was.waiting| && LeftOf(p, 0) == LeftOf(was, |os|)
            && AllWhole(was, all[..|os|]) && (AllWhole(was, all) <==> o == Took(LeftOf(p, 0)))
  {
    var os, all := p.answers[|was.answers|..], (p.answers + [o])[|was.answers|..];
    assert all == os + [o] && all[..|os|] == os;
    if AllWhole(was, all) {
      assert all[|os|] == o;
    }
    forall i | 0 <= i < |os|
      ensures all[i].Took? && all[i].n == LeftOf(was, i)
    {
      assert all[i] == os[i];
    }
  }

  lemma WholeSent(was: Peer, p: Peer, n: nat)
    requires Behind(was, p) && p.waiting != [] && p.offset <= |p.waiting[0].data| && n == LeftOf(p, 0)
    ensures Behind(was, Accepted(p.(answers := p.answers + [Took(n)]), n))
  {
    MoreWhole(was, p, Took(n));
    hide AllWhole;
    var k := |p.answers| - |was.answers|;
    assert was.waiting[k..][1..] == was.waiting[k + 1..];
  }

  lemma PartSent(was: Peer, p: Peer, n: nat)
    requires Behind(was, p) && p.waiting != [] && p.offset <= |p.waiting[0].data| && n < LeftOf(p, 0)
    ensures Sent(was, Accepted(p.(answers := p.answers + [Took(n)]), n).(wants := true), false)
  {
    MoreWhole(was, p, Took(n));
    hide AllWhole, LeftOf;
    assert p.offset + n < |p.waiting[0].data| by {
      PartOf(p, n);
    }
  }

  lemma PartOf(p: Peer, n: nat)
    requires p.waiting != [] && p.offset <= |p.waiting[0].data| && n < LeftOf(p, 0)
    ensures p.offset + n < |p.waiting[0].data|
  {
  }

  lemma NotSent(was: Peer, p: Peer)
    requires Behind(was, p) && p.waiting != [] && p.offset <= |p.waiting[0].data|
    ensures Sent(was, p.(answers := p.answers + [WouldBlock], wants := true), false)
    ensures Sent(was, p.(answers := p.answers + [Broken]), true)
  {
    MoreWhole(was, p, WouldBlock);
    MoreWhole(was, p, Broken);
    hide AllWhole, LeftOf;
  }

  lemma NextSent(was: Peer, p: Peer, o: Outcome)
    requires Behind(was, p) && p.waiting != [] && p.offset <= |p.waiting[0].data|
    requires o.Took? ==> p.offset + o.n <= |p.waiting[0].data|
    ensures var q := p.(answers := p.answers + [o]);
            && (o == Took(LeftOf(p, 0)) ==> Behind(was, Accepted(q, o.n)))
            && (o.Took? && o.n != LeftOf(p, 0) ==> Sent(was, Accepted(q, o.n).(wants := true), false))
            && (o == WouldBlock ==> Sent(was, q.(wants := true), false))
            && (o == Broken ==> Sent(was, q, true))
  {
    hide Behind, Sent, Accepted;
    match o {
      case Took(n) =>
        if n == LeftOf(p, 0) {
          WholeSent(was, p, n);
        } else {
          PartSent(was, p, n);
        }
      case _ => NotSent(was, p);
    }
  }

  /** The queue has run empty. */
  lemma AllSent(was: Peer, p: Peer)
    requires Behind(was, p) && p.waiting == [] && Flowing(p)
    ensures Sent(was, p.(wants := false), false)
  {
  }

  lemma FirstOffset(p: Peer)
    requires Flowing(p) && p.waiting != []
    ensures p.offset <= |p.waiting[0].data|
  {
  }

  /** What the socket answered is no matter of bytes either. */
  lemma AnswerFlows(p: Peer, o: Outcome)
    requires Flowing(p)
    ensures Flowing(p.(answers := p.answers + [o]))
  {
  }

  /** Being watched is no matter of bytes. */
  lemma WantsFlow(p: Peer, wants: bool)
    requires Flowing(p)
    ensures Flowing(p.(wants := wants))
  {
  }

  lemma AcceptedKeeps(p: Peer, n: nat)
    requires p.waiting != [] && p.offset + n <= |p.waiting[0].data|
    ensures var q := Accepted(p, n); q.inUse == p.inUse && q.conn == p.conn && q.polled == p.polled
  {
  }

  // --------------------------------------------------------------------------------------
  // The transport
  // --------------------------------------------------------------------------------------

  class Net {
    const w: World
    const host: H.Host
    const slots: seq<Slot>
    var next: nat

    ghost function SlotParts(): set<object> {
      set i, o | 0 <= i < |slots| && o in slots[i].Parts() :: o
    }

    ghost predicate Apart() {
      && this !in host.Repr() && this !in SlotParts()
      && (forall i :: 0 <= i < |slots| ==> host.Repr() !! slots[i].Parts())
      && (forall i, j :: 0 <= i < j < |slots| ==> slots[i].Parts() !! slots[j].Parts())
    }

    ghost predicate Shape()
      reads this, host.Repr(), SlotParts()
    {
      Apart() && host.Valid() && next < WORD && forall i :: 0 <= i < |slots| ==> slots[i].Valid()
    }

    ghost function Table(): (r: seq<Peer>)
      requires Shape()
      reads this, host.Repr(), SlotParts()
      ensures |r| == |slots|
    {
      seq(|slots|, i requires 0 <= i < |slots| && Shape() reads this, host.Repr(), SlotParts() => slots[i].Abs())
    }

    /** What each slot was when it was last given back. */
    ghost function Gone(): (r: seq<Peer>)
      reads SlotParts()
      ensures |r| == |slots|
    {
      seq(|slots|, i requires 0 <= i < |slots| reads SlotParts() => assert slots[i] in slots[i].Parts(); slots[i].gone)
    }

    /** The same ids open here and in the server, and every live slot handed exactly what was polled for it. */
    ghost predicate Valid()
      reads this, host.Repr(), SlotParts()
    {
      Shape() && Linked(w, host.Abs(), Table()) && !host.Abs().env.closed
    }

    constructor (w: World, host: H.Host, all: seq<Slot>, queue: nat)
      requires host.Valid() && forall i :: 0 <= i < |all| ==> Unused(all[i], queue) && host.Repr() !! all[i].Parts()
      requires forall i, j :: 0 <= i < j < |all| ==> all[i].Parts() !! all[j].Parts()
      ensures Shape() && this.w == w && this.host == host && host.Valid() && host.Abs() == old(host.Abs())
      ensures forall i :: 0 <= i < |slots| ==> Table()[i] == NO_PEER
    {
      this.w, this.host, slots, next := w, host, all, 1;
    }

    /** `gsp_net_open`, but for the socket: a table of `size` slots beside a server with nothing open. */
    static method Create(w: World, host: H.Host, size: nat, queue: nat) returns (n: Net)
      requires host.Valid() && Runs.Inv(w, host.Abs()) && !host.Abs().env.closed && queue > 0
      requires forall id: nat :: !Runs.IsOpen(host.Abs().conns, id)
      ensures n.Valid() && n.host == host
    {
      hide *;
      ghost var s := host.Abs();
      var all := EmptyBeside(host, size, queue);
      n := new Net(w, host, all, queue);
      NoneLinked(w, s, n.Table());
      n.Pack();
    }

    /** Empty slots that share nothing with the server. */
    static method EmptyBeside(host: H.Host, size: nat, queue: nat) returns (all: seq<Slot>)
      requires host.Valid() && queue > 0
      ensures host.Valid() && host.Abs() == old(host.Abs())
      ensures forall i :: 0 <= i < |all| ==> Unused(all[i], queue) && host.Repr() !! all[i].Parts()
      ensures forall i, j :: 0 <= i < j < |all| ==> all[i].Parts() !! all[j].Parts()
    {
      hide Unused;
      all := Empty(size, queue);
    }

    static ghost predicate Unused(s: Slot, queue: nat)
      reads s, s.queue, s.queue.slots
    {
      s.Valid() && s.Abs() == NO_PEER && s.queue.slots.Length == queue
    }

    static method Empty(size: nat, queue: nat) returns (all: seq<Slot>)
      requires queue > 0
      ensures |all| == size
      ensures forall i :: 0 <= i < |all| ==> fresh(all[i].Parts()) && Unused(all[i], queue)
      ensures forall i, j :: 0 <= i < j < |all| ==> all[i].Parts() !! all[j].Parts()
    {
      all := [];
      while |all| < size
        invariant |all| <= size
        invariant forall i :: 0 <= i < |all| ==> fresh(all[i].Parts()) && Unused(all[i], queue)
        invariant forall i, j :: 0 <= i < j < |all| ==> all[i].Parts() !! all[j].Parts()
      {
        var s := new Slot(queue);
        all := all + [s];
      }
    }

    twostate lemma SlotChanged(i: nat)
      requires old(Shape()) && i < |slots| && slots[i].Valid()
      requires unchanged(this) && unchanged(host.Repr())
      requires forall j :: 0 <= j < |slots| && j != i ==> unchanged(slots[j], slots[j].queue, slots[j].queue.slots)
      ensures Shape() && host.Valid() && host.Abs() == old(host.Abs()) && Table() == old(Table())[i := slots[i].Abs()]
    {
    }

    twostate lemma HostChanged()
      requires old(Shape()) && host.Valid() && unchanged(this)
      requires forall j :: 0 <= j < |slots| ==> unchanged(slots[j], slots[j].queue, slots[j].queue.slots)
      ensures Shape() && Table() == old(Table())
    {
    }

    /** The next id is no part of the table. */
    twostate lemma NextMoved()
      requires old(Shape()) && next < WORD && unchanged(host.Repr())
      requires forall j :: 0 <= j < |slots| ==> unchanged(slots[j], slots[j].queue, slots[j].queue.slots)
      ensures Shape() && host.Valid() && host.Abs() == old(host.Abs()) && Table() == old(Table())
    {
    }

    /** Where a slot's objects are, and where they are not. */
    lemma SlotApart(i: nat)
      requires Shape() && i < |slots|
      ensures slots[i].Valid() && Table()[i] == slots[i].Abs() && host.Valid()
      ensures slots[i].Parts() == {slots[i], slots[i].queue, slots[i].queue.slots} && slots[i].Parts() <= SlotParts()
      ensures (forall o :: o in host.Repr() ==> o !in slots[i].Parts()) && this !in slots[i].Parts() && this !in host.Repr()
      ensures forall j :: 0 <= j < |slots| && j != i ==>
                slots[j] !in slots[i].Parts() && slots[j].queue !in slots[i].Parts() && slots[j].queue.slots !in slots[i].Parts()
    {
    }

    lemma HostApart()
      requires Shape()
      ensures host.Valid() && this !in host.Repr()
      ensures forall j :: 0 <= j < |slots| ==>
                slots[j] !in host.Repr() && slots[j].queue !in host.Repr() && slots[j].queue.slots !in host.Repr()
    {
    }

    lemma Unpack()
      requires Valid()
      ensures Shape() && host.Valid() && Linked(w, host.Abs(), Table()) && !host.Abs().env.closed
    {
      hide Linked;
    }

    lemma Pack()
      requires Shape() && host.Valid() && Linked(w, host.Abs(), Table()) && !host.Abs().env.closed
      ensures Valid()
    {
      hide Linked;
    }

    // ------------------------------------------------------------------------------------
    // Teardown
    // ------------------------------------------------------------------------------------

    /** The server's part of a teardown: it is told first. */
    method Report(i: nat, cause: CloseCause, now: int)
      requires Shape() && host.Valid() && Linked(w, host.Abs(), Table()) && !host.Abs().env.closed
      requires i < |slots| && slots[i].inUse
      modifies host.Repr()
      ensures Shape() && Table() == old(Table()) && host.Valid()
      ensures !host.Abs().env.closed && |host.Abs().env.writes| <= |old(host.Abs()).env.writes|
      ensures Linked(w, host.Abs(), Table()[i := NO_PEER])
      ensures host.Abs() == Closed(w, old(host.Abs()), old(slots[i].conn), cause, now).0
    {
      hide Linked, Table, Shape, Valid, Closed;
      HostApart();
      SlotApart(i);
      PeerOf(slots[i]);
      CloseLinked(w, host.Abs(), Table(), i, cause, now);
      ClosedWrites(w, host.Abs(), slots[i].conn, cause, now);
      var status := host.ClosedIn(w, slots[i].conn, cause, now);
      HostChanged();
    }

    /** `gs_net_drop`: the server is told, the slot is given back, and the id is open nowhere any more. */
    method Drop(i: nat, cause: CloseCause)
      requires Valid() && i < |slots|
      modifies this, host.Repr(), SlotParts()
      ensures Valid() && host.Valid() && |host.Abs().env.writes| <= |old(host.Abs()).env.writes|
      ensures !slots[i].inUse && next == old(next)
      ensures if old(slots[i].inUse) then
                && Shape() && Table() == old(Table())[i := NO_PEER] && slots[i].gone == old(Table())[i]
                && !Runs.IsOpen(host.Abs().conns, old(slots[i].conn))
                && ToldClosed(w, old(host.Abs()), host.Abs(), old(slots[i].conn), cause)
              else Shape() && Table() == old(Table()) && host.Abs() == old(host.Abs())
    {
      hide Linked, Table, Shape, Valid, Closed, Reported, ToldClosed, Runs.IsOpen;
      Unpack();
      SlotApart(i);
      if slots[i].inUse {
        var now: int :| now < TIME_NEVER;
        ghost var s, table, id := host.Abs(), Table(), slots[i].conn;
        PeerOf(slots[i]);
        Report(i, cause, now);
        EndedAt(w, s, host.Abs(), id, cause, now);
        SlotApart(i);
        Release(i);
        Unpack();
        OtherPeers(w, s, table, i);
        GoneFromTable(w, host.Abs(), table, i, id);
      }
    }

    method Release(i: nat)
      requires Shape() && i < |slots| && host.Valid() && !host.Abs().env.closed
      requires Linked(w, host.Abs(), Table()[i := NO_PEER])
      modifies slots[i].Parts()
      ensures Valid() && host.Valid() && host.Abs() == old(host.Abs())
      ensures Shape() && Table() == old(Table())[i := NO_PEER] && !slots[i].inUse && slots[i].gone == old(Table())[i]
    {
      hide Linked, Table, Shape, Valid;
      SlotApart(i);
      slots[i].Reset();
      PeerOf(slots[i]);
      SlotChanged(i);
      Pack();
    }

    // ------------------------------------------------------------------------------------
    // Writing
    // ------------------------------------------------------------------------------------

    method FlushQueue(i: nat) returns (failed: bool, ghost p: Peer)
      requires Shape() && i < |slots| && Flowing(slots[i].Abs())
      modifies slots[i].Parts()
      ensures Shape() && host.Valid() && host.Abs() == old(host.Abs()) && Table() == old(Table())[i := p]
      ensures Flowing(p) && p.inUse == old(slots[i].inUse) && p.conn == old(slots[i].conn) && p.polled == old(slots[i].polled)
      ensures Sent(old(slots[i].Abs()), p, failed)
    {
      hide Shape, Table, Flowing, Sent;
      SlotApart(i);
      failed := slots[i].Flush();
      SlotChanged(i);
      p := slots[i].Abs();
    }

    method FlushSlot(i: nat) returns (failed: bool)
      requires Valid() && i < |slots| && slots[i].inUse
      modifies slots[i].Parts()
      ensures Valid() && host.Valid() && host.Abs() == old(host.Abs())
      ensures Shape() && Flushed(old(Table()), Table(), i) && Sent(old(Table())[i], Table()[i], failed)
    {
      hide *;
      Unpack();
      SlotApart(i);
      PeerOf(slots[i]);
      ghost var s, table, p := host.Abs(), Table(), slots[i].Abs();
      SlotFlows(w, s, table, i);
      failed, p := FlushQueue(i);
      SentLinked(w, s, table, i, p);
      FlushedAt(table, i, p);
      Pack();
    }

    /**
     * `gs_net_flush`: the slot's requests go out as far as the socket's answers say; a socket that
     * fails is dropped, and no other slot is touched.
     */
    method Flush(i: nat)
      requires Valid() && i < |slots| && slots[i].inUse
      modifies this, host.Repr(), SlotParts()
      ensures Valid() && host.Valid() && |host.Abs().env.writes| <= |old(host.Abs()).env.writes|
      ensures Shape() && next == old(next)
      ensures slots[i].inUse == Table()[i].inUse
      ensures if slots[i].inUse then
                host.Abs() == old(host.Abs()) && Flushed(old(Table()), Table(), i) && Sent(old(Table())[i], Table()[i], false)
              else
                && Table() == old(Table())[i := NO_PEER] && Sent(old(Table())[i], slots[i].gone, true)
                && ToldClosed(w, old(host.Abs()), host.Abs(), old(slots[i].conn), TransportError)
    {
      hide Linked, Table, Shape, Valid, Flushed, Runs.IsOpen, Reported, ToldClosed, Sent;
      Unpack();
      SlotApart(i);
      ghost var table := Table();
      var failed := FlushSlot(i);
      Unpack();
      SlotApart(i);
      PeerOf(slots[i]);
      FlushedKeeps(table, Table(), i);
      assert slots[i].conn == old(slots[i].conn) && host.Abs() == old(host.Abs());
      if failed {
        Drop(i, TransportError);
        Unpack();
        SlotApart(i);
        PeerOf(slots[i]);
      }
    }

    /** Every live slot can take one more request. */
    ghost predicate Roomy(table: seq<Peer>)
      requires |table| == |slots|
    {
      forall i :: 0 <= i < |slots| && table[i].inUse ==> |table[i].waiting| < slots[i].queue.slots.Length
    }

    method HasRoom() returns (room: bool)
      requires Shape()
      ensures Shape() && Table() == old(Table()) && host.Abs() == old(host.Abs())
      ensures room <==> Roomy(Table())
    {
      for i := 0 to |slots|
        invariant forall j :: 0 <= j < i && Table()[j].inUse ==> |Table()[j].waiting| < slots[j].queue.slots.Length
      {
        assert Table()[i] == slots[i].Abs() && |slots[i].queue.View()| == slots[i].queue.count;
        if slots[i].inUse && slots[i].queue.count >= slots[i].queue.slots.Length {
          return false;
        }
      }
      return true;
    }

    method FindSlot(id: nat) returns (i: Option<nat>)
      requires Shape()
      ensures Shape() && Table() == old(Table()) && host.Abs() == old(host.Abs())
      ensures i.Some? ==> i.value < |slots| && slots[i.value].inUse && slots[i.value].conn == id
      ensures i == None ==> !InTable(Table(), id)
    {
      for k := 0 to |slots|
        invariant forall j :: 0 <= j < k ==> !(Table()[j].inUse && Table()[j].conn == id)
      {
        assert Table()[k] == slots[k].Abs();
        if slots[k].inUse && slots[k].conn == id {
          return Some(k);
        }
      }
      return None;
    }

    /** One request taken from the server, if it has one to give. */
    method Take() returns (x: Option<Write>, ghost s: Server)
      requires Valid()
      modifies host.Repr()
      ensures Shape() && host.Valid() && Table() == old(Table())
      ensures s == old(host.Abs()) && host.Abs() == PollWrites(s, 1).0
      ensures x == if PollWrites(s, 1).1 == [] then None else Some(PollWrites(s, 1).1[0])
    {
      hide *;
      Unpack();
      HostApart();
      s := host.Abs();
      var out := host.PollWritesIn(1);
      HostChanged();
      x := if out == [] then None else Some(out[0]);
    }

    method Deposit(i: nat, x: Write)
      requires Shape() && i < |slots| && slots[i].queue.count < slots[i].queue.slots.Length
      modifies slots[i].Parts()
      ensures Shape() && host.Valid() && host.Abs() == old(host.Abs())
      ensures Table() == old(Table())[i := Enqueued(old(Table())[i], x)] && slots[i].inUse == old(slots[i].inUse)
      ensures next == old(next)
    {
      hide Shape, Table;
      SlotApart(i);
      slots[i].Enqueue(x);
      SlotChanged(i);
    }

    /** The pump has nothing left to do: no room, or nothing to take. */
    ghost predicate Pumped()
      requires Shape()
      reads this, host.Repr(), SlotParts()
    {
      !Roomy(Table()) || PollWrites(host.Abs(), 1).1 == []
    }

    /**
     * One round of the pump. False when there is nothing to take or nowhere to put it, and then
     * nothing has changed; otherwise the request polled is now the last one of its connection's slot.
     */
    method PumpOne() returns (more: bool)
      requires Valid()
      modifies this, host.Repr(), SlotParts()
      ensures Valid() && host.Valid() && Shape() && next == old(next)
      ensures more ==> |host.Abs().env.writes| < |old(host.Abs()).env.writes|
      ensures more ==> PollWrites(old(host.Abs()), 1).1 != []
                       && Delivered(old(Table()), Table(), Gone(), PollWrites(old(host.Abs()), 1).1[0])
      ensures !more ==> Pumped() && Table() == old(Table()) && host.Abs() == old(host.Abs())
    {
      hide *;
      Unpack();
      var room := HasRoom();
      more := false;
      Pack();
      if room {
        HostApart();
        ghost var table := Table();
        LinkedInv(w, host.Abs(), table);
        PollLinked(w, host.Abs(), table);
        PollOneWrites(w, host.Abs());
        PollNothing(w, host.Abs());
        var x, s := Take();
        more := x.Some?;
        if more {
          more := Place(x.value, s);
        } else {
          Pack();
          NothingToTake();
        }
      } else {
        NoRoomLeft();
      }
    }

    lemma NothingToTake()
      requires Shape() && PollWrites(host.Abs(), 1).1 == []
      ensures Pumped()
    {
      hide Roomy, PollWrites, Shape;
    }

    lemma NoRoomLeft()
      requires Shape() && !Roomy(Table())
      ensures Pumped()
    {
      hide Roomy, PollWrites, Shape;
    }

    /** The request just taken goes to the slot of its connection, and out. */
    method Place(x: Write, ghost s: Server) returns (more: bool)
      requires Shape() && host.Valid() && !host.Abs().env.closed && InTable(Table(), x.conn)
      requires |host.Abs().env.writes| < |s.env.writes|
      requires forall i :: 0 <= i < |Table()| && Table()[i].inUse && Table()[i].conn == x.conn ==>
                 Linked(w, host.Abs(), Table()[i := Enqueued(Table()[i], x)])
      requires Roomy(Table())
      modifies this, host.Repr(), SlotParts()
      ensures Valid() && host.Valid() && Shape() && more && |host.Abs().env.writes| < |s.env.writes| && next == old(next)
      ensures Delivered(old(Table()), Table(), Gone(), x)
    {
      hide *;
      var i := FindSlot(x.conn);
      more := true;
      RoomAt(i.value);
      SlotApart(i.value);
      PeerOf(slots[i.value]);
      ghost var table := Table();
      Deposit(i.value, x);
      ghost var full := Table();
      Pack();
      Flush(i.value);
      SlotApart(i.value);
      PeerOf(slots[i.value]);
      GoneAt(i.value);
      DeliveredAt(table, full, Table(), Gone(), i.value, x);
    }

    lemma GoneAt(i: nat)
      requires i < |slots|
      ensures Gone()[i] == slots[i].gone
    {
    }

    lemma RoomAt(i: nat)
      requires Shape() && Roomy(Table()) && i < |slots| && slots[i].inUse
      ensures slots[i].queue.count < slots[i].queue.slots.Length
    {
      assert Table()[i] == slots[i].Abs() && |slots[i].queue.View()| == slots[i].queue.count;
    }

    /**
     * `gs_net_pump`: takes a request only while every live slot has room, so none ever overflows,
     * and stops only when one has none or the server has nothing to give. A slot it has not had to
     * drop is the same connection's, and what was handed to it before it still counts.
     */
    method Pump()
      requires Valid()
      modifies this, host.Repr(), SlotParts()
      ensures Valid() && host.Valid() && Shape() && Pumped() && next == old(next)
      ensures Onto(old(Table()), Table())
    {
      hide *;
      Unpack();
      ghost var table := Table();
      OntoSelf(table);
      var more := true;
      while more
        invariant Valid() && host.Valid() && Shape() && next == old(next)
        invariant Onto(table, Table()) && (!more ==> Pumped())
        decreases more, |host.Abs().env.writes|
      {
        ghost var before := Table();
        ghost var s := host.Abs();
        more := PumpOne();
        if more {
          DeliveredOnto(table, before, Table(), Gone(), PollWrites(s, 1).1[0]);
        }
      }
    }

    // ------------------------------------------------------------------------------------
    // Reading
    // ------------------------------------------------------------------------------------

    /** One call of `on_bytes`, at whatever time it is. */
    method FeedOnce(id: nat, data: seq<Byte>) returns (full: bool)
      requires Valid()
      modifies host.Repr()
      ensures Valid() && host.Valid() && Shape() && Table() == old(Table())
      ensures Fed(w, old(host.Abs()), host.Abs(), id, data, full)
    {
      hide *;
      Unpack();
      HostApart();
      var now: int :| now < TIME_NEVER;
      ghost var s := host.Abs();
      host.AbsIsScanned();
      LinkedInv(w, s, Table());
      BytesLinked(w, s, Table(), id, data, now);
      BytesStayOpen(w, s, id, data, now);
      var status := host.OnBytesIn(w, id, data, now);
      HostChanged();
      Pack();
      full := status == P.QueueFull;
      FedBy(w, s, host.Abs(), id, data, full, now);
    }

    /**
     * What a refused call came to: unless the socket was lost on the way, the slot is to be resumed
     * exactly if the last of the resumed calls, made on the server `last`, was refused as well; and
     * then there were as many as there may be.
     */
    ghost predicate CameTo(i: nat, id: nat, last: Server, attempts: nat)
      requires i < |slots| && host.Valid()
      reads slots[i], host.Repr()
    {
      slots[i].inUse ==>
        && Fed(w, last, host.Abs(), id, [], slots[i].resume)
        && (slots[i].resume ==> attempts == RETRIES)
    }

    /**
     * `gs_net_feed`: handed over once, and while that is refused pumped and resumed, `RETRIES` times at
     * most. `first` is the server after the one call with the bytes.
     */
    method Feed(i: nat, data: seq<Byte>) returns (ghost first: Server, ghost last: Server, ghost attempts: nat)
      requires Valid() && i < |slots|
      modifies this, host.Repr(), SlotParts()
      ensures Valid() && host.Valid() && Shape() && Onto(old(Table()), Table()) && attempts <= RETRIES
      ensures Fed(w, old(host.Abs()), first, old(slots[i].conn), data, attempts > 0)
      ensures if attempts == 0 then host.Abs() == first && !slots[i].resume
              else CameTo(i, old(slots[i].conn), last, attempts)
    {
      hide *;
      Unpack();
      SlotApart(i);
      ghost var s, table := host.Abs(), Table();
      OntoSelf(table);
      var id := slots[i].conn;
      var full := FeedOnce(id, data);
      ghost var refused := full;
      first, last := host.Abs(), s;
      assert Fed(w, s, first, id, data, refused);
      var attempt := 0;
      while full && attempt < RETRIES
        invariant Valid() && host.Valid() && Shape() && Onto(table, Table()) && attempt <= RETRIES
        invariant attempt == 0 ==> host.Abs() == first && full == refused
        invariant attempt > 0 ==> refused && Fed(w, last, host.Abs(), id, [], full)
        decreases RETRIES - attempt
      {
        attempt := attempt + 1;
        ghost var before := Table();
        Pump();
        OntoOn(table, before, Table());
        if !slots[i].inUse {
          attempts := attempt;
          Lost(i, id, last, attempts);
          return;
        }
        last := host.Abs();
        full := FeedOnce(id, []);
      }
      attempts := attempt;
      SomeRetries();
      SetResume(i, full);
      if attempts > 0 {
        Came(i, id, last, attempts);
      }
    }

    lemma SomeRetries()
      ensures RETRIES > 0
    {
    }

    lemma Lost(i: nat, id: nat, last: Server, attempts: nat)
      requires i < |slots| && host.Valid() && !slots[i].inUse
      ensures CameTo(i, id, last, attempts)
    {
    }

    lemma Came(i: nat, id: nat, last: Server, attempts: nat)
      requires i < |slots| && host.Valid() && Fed(w, last, host.Abs(), id, [], slots[i].resume)
      requires slots[i].resume ==> attempts == RETRIES
      ensures CameTo(i, id, last, attempts)
    {
      hide Fed, H.Host.Abs, H.Host.Valid;
    }

    method SetResume(i: nat, resume: bool)
      requires Valid() && i < |slots|
      modifies slots[i]
      ensures Valid() && host.Valid() && Shape() && Table() == old(Table()) && host.Abs() == old(host.Abs())
      ensures slots[i].resume == resume
    {
      hide Linked, Table, Shape, Valid;
      Unpack();
      SlotApart(i);
      slots[i].resume := resume;
      SlotChanged(i);
      assert Table() == old(Table());
      Pack();
    }

    /** `gs_net_read`, the socket having answered. */
    method Read(i: nat, got: Received) returns (ghost first: Server, ghost last: Server, ghost attempts: nat)
      requires Valid() && i < |slots|
      modifies this, host.Repr(), SlotParts()
      ensures Valid() && host.Valid() && Shape()
      ensures match got
              case Octets(data) =>
                && Onto(old(Table()), Table()) && attempts <= RETRIES
                && Fed(w, old(host.Abs()), first, old(slots[i].conn), data, attempts > 0)
                && (if attempts == 0 then host.Abs() == first && !slots[i].resume
                    else CameTo(i, old(slots[i].conn), last, attempts))
              case Nothing => Table() == old(Table()) && host.Abs() == old(host.Abs())
              case _ =>
                if old(slots[i].inUse) then
                  && Table() == old(Table())[i := NO_PEER] && !Runs.IsOpen(host.Abs().conns, old(slots[i].conn))
                  && ToldClosed(w, old(host.Abs()), host.Abs(), old(slots[i].conn), if got.Ended? then RemoteClosed else TransportError)
                else Table() == old(Table()) && host.Abs() == old(host.Abs())
    {
      hide *;
      Unpack();
      first, last, attempts := host.Abs(), host.Abs(), 0;
      match got {
        case Octets(data) => first, last, attempts := Feed(i, data);
        case Ended => Drop(i, RemoteClosed);
        case Nothing =>
        case Error => Drop(i, TransportError);
      }
    }

    // ------------------------------------------------------------------------------------
    // Accepting and the clock
    // ------------------------------------------------------------------------------------

    method FindFree() returns (i: Option<nat>)
      requires Shape()
      ensures Shape() && Table() == old(Table()) && host.Abs() == old(host.Abs())
      ensures i.Some? ==> i.value < |slots| && !slots[i.value].inUse
      ensures i == None ==> forall j :: 0 <= j < |slots| ==> slots[j].inUse
    {
      for k := 0 to |slots|
        invariant forall j :: 0 <= j < k ==> slots[j].inUse
      {
        if !slots[k].inUse {
          return Some(k);
        }
      }
      return None;
    }

    /** The next id: any but the two that cannot name a connection. */
    method NextId() returns (id: nat)
      requires Valid()
      modifies this`next
      ensures Valid() && host.Valid() && host.Abs() == old(host.Abs()) && Table() == old(Table())
      ensures id == IdFrom(old(next)) && id != CONN_NONE && id != CONN_ALL && id < WORD && next == Inc32(id)
    {
      hide Linked, H.Host.Valid, H.Host.Abs, Valid;
      Unpack();
      HostApart();
      id := next;
      next := Inc32(next);
      while id == CONN_NONE || id == CONN_ALL
        invariant next < WORD && id < WORD && next == Inc32(id) && IdFrom(id) == IdFrom(old(next))
        decreases if id == CONN_ALL then 2 else if id == CONN_NONE then 1 else 0
      {
        id := next;
        next := Inc32(next);
      }
      NextMoved();
      Pack();
    }

    /**
     * `gs_net_accept`, one socket: taken exactly when there is a slot free here and the server opens
     * the connection. Then one free slot is that connection's; otherwise nothing has changed but the
     * number an id was taken for.
     */
    method Accept(peer: seq<Byte>) returns (ok: bool)
      requires Valid()
      modifies this, host.Repr(), SlotParts()
      ensures Valid() && host.Valid() && Shape()
      ensures ok <==> HasFree(old(Table())) && Opens(w, old(host.Abs()), IdFrom(old(next)), peer)
      ensures if ok then
                && Filled(old(host.Abs()), old(Table()), host.Abs(), Table(), IdFrom(old(next)))
                && ToldOpened(w, old(host.Abs()), host.Abs(), IdFrom(old(next)), peer)
              else Table() == old(Table()) && host.Abs() == old(host.Abs())
      ensures next == if HasFree(old(Table())) then Inc32(IdFrom(old(next))) else old(next)
    {
      hide *;
      Unpack();
      var free := FindFree();
      Pack();
      if free == None {
        NoneFree();
        return false;
      }
      SlotApart(free.value);
      FreeAt(free.value);
      var id := NextId();
      Unpack();
      ok := OpenFor(free.value, id, peer);
    }

    lemma NoneFree()
      requires Shape() && forall j :: 0 <= j < |slots| ==> slots[j].inUse
      ensures !HasFree(Table())
    {
      forall j | 0 <= j < |slots|
        ensures Table()[j].inUse
      {
        SlotApart(j);
      }
    }

    lemma FreeAt(i: nat)
      requires Shape() && i < |slots| && !slots[i].inUse
      ensures HasFree(Table())
    {
      SlotApart(i);
    }

    method OpenFor(i: nat, id: nat, peer: seq<Byte>) returns (ok: bool)
      requires Valid() && i < |slots| && !slots[i].inUse
      modifies host.Repr(), slots[i].Parts()
      ensures Valid() && host.Valid() && Shape()
      ensures ok <==> Opens(w, old(host.Abs()), id, peer)
      ensures if ok then
                && Filled(old(host.Abs()), old(Table()), host.Abs(), Table(), id)
                && ToldOpened(w, old(host.Abs()), host.Abs(), id, peer)
              else Table() == old(Table()) && host.Abs() == old(host.Abs())
    {
      hide *;
      Unpack();
      HostApart();
      SlotApart(i);
      PeerOf(slots[i]);
      var now: int :| now < TIME_NEVER;
      ghost var s, table := host.Abs(), Table();
      LinkedInv(w, s, table);
      InvCap(w, s);
      OpenStaysUp(w, s, id, peer, now);
      OpensAt(w, s, id, peer, now);
      var status := host.OpenIn(w, id, peer, now);
      HostChanged();
      ok := status == P.Ok;
      if ok {
        OpenLinked(w, s, table, i, id, peer, now);
        ghost var t := host.Abs();
        Fill(i, id);
        OpensId(w, s, id, peer, now);
        FilledAt(s, table, t, i, id);
        OpenedAt(w, s, t, id, peer, now);
      } else {
        OpenRefused(w, s, id, peer, now);
        Pack();
      }
    }

    method Fill(i: nat, id: nat)
      requires Shape() && i < |slots| && host.Valid() && !host.Abs().env.closed
      requires Linked(w, host.Abs(), Table()[i := NO_PEER.(inUse := true, conn := id)])
      modifies slots[i].Parts()
      ensures Valid() && host.Valid() && host.Abs() == old(host.Abs())
      ensures Shape() && Table() == old(Table())[i := NO_PEER.(inUse := true, conn := id)]
    {
      hide Linked, Table, Shape, Valid;
      SlotApart(i);
      slots[i].Begin(id);
      SlotChanged(i);
      Pack();
    }

    method Tick()
      requires Valid()
      modifies host.Repr()
      ensures Valid() && host.Valid() && Shape() && Table() == old(Table())
      ensures exists now: int :: now < TIME_NEVER && Ticked(old(host.Abs()), host.Abs(), now)
    {
      hide *;
      Unpack();
      HostApart();
      var now: int :| now < TIME_NEVER;
      ghost var s := host.Abs();
      TickLinked(w, s, Table(), now);
      TickUp(s, now);
      host.TickIn(now);
      HostChanged();
      Pack();
      TickedBy(s, host.Abs(), now);
    }
  }

  // --------------------------------------------------------------------------------------
  // What the calls do to the table
  // --------------------------------------------------------------------------------------

  /** `t` is `s` after a call with `data`, refused or not. */
  ghost predicate Fed(w: World, s: Server, t: Server, id: nat, data: seq<Byte>, refused: bool) {
    Scanned(s) && exists at: int :: FedAt(w, s, t, id, data, refused, at)
  }

  predicate FedAt(w: World, s: Server, t: Server, id: nat, data: seq<Byte>, refused: bool, at: int)
    requires Scanned(s)
  {
    t == OnBytes(w, s, id, data, at).0 && refused == (OnBytes(w, s, id, data, at).1 == P.QueueFull)
  }

  lemma FedBy(w: World, s: Server, t: Server, id: nat, data: seq<Byte>, refused: bool, at: int)
    requires Scanned(s) && t == OnBytes(w, s, id, data, at).0 && refused == (OnBytes(w, s, id, data, at).1 == P.QueueFull)
    ensures Fed(w, s, t, id, data, refused)
  {
    hide OnBytes;
    assert FedAt(w, s, t, id, data, refused, at);
  }

  predicate Ticked(s: Server, t: Server, now: int) {
    t == Tick(s, now)
  }

  lemma TickedBy(s: Server, t: Server, now: int)
    requires t == Tick(s, now)
    ensures Ticked(s, t, now)
  {
    hide Tick;
  }

  /** `t` is `s` after the connection `id` was reported closed. */
  ghost predicate Reported(w: World, s: Server, t: Server, id: nat, cause: CloseCause, now: int) {
    t == Closed(w, s, id, cause, now).0
  }

  /** At some time. */
  ghost predicate ToldClosed(w: World, s: Server, t: Server, id: nat, cause: CloseCause) {
    exists now: int :: Reported(w, s, t, id, cause, now)
  }

  lemma EndedAt(w: World, s: Server, t: Server, id: nat, cause: CloseCause, now: int)
    requires t == Closed(w, s, id, cause, now).0
    ensures ToldClosed(w, s, t, id, cause)
  {
    hide Closed;
    assert Reported(w, s, t, id, cause, now);
  }

  /** No other slot holds the id of slot `i`. */
  lemma OtherPeers(w: World, s: Server, table: seq<Peer>, i: nat)
    requires Linked(w, s, table) && i < |table| && table[i].inUse
    ensures forall j :: 0 <= j < |table| && j != i && table[j].inUse ==> table[j].conn != table[i].conn
  {
    hide Runs.Inv, Runs.IsOpen, InTable, Handed;
  }

  lemma GoneFromTable(w: World, t: Server, table: seq<Peer>, i: nat, id: nat)
    requires i < |table| && Linked(w, t, table[i := NO_PEER])
    requires forall j :: 0 <= j < |table| && j != i && table[j].inUse ==> table[j].conn != id
    ensures !Runs.IsOpen(t.conns, id)
  {
    hide Runs.Inv, Runs.IsOpen, Handed, OneEach;
    assert Agrees(t, table[i := NO_PEER], id);
  }

  /** Slot `i` may have sent something; whose it is and what it was handed is as before. */
  predicate Flushed(a: seq<Peer>, b: seq<Peer>, i: nat) {
    && i < |a| == |b| && b == a[i := b[i]]
    && b[i].inUse == a[i].inUse && b[i].conn == a[i].conn && b[i].polled == a[i].polled
  }

  lemma FlushedAt(a: seq<Peer>, i: nat, p: Peer)
    requires i < |a| && p.inUse == a[i].inUse && p.conn == a[i].conn && p.polled == a[i].polled
    ensures Flushed(a, a[i := p], i)
  {
  }

  lemma FlushedKeeps(a: seq<Peer>, b: seq<Peer>, i: nat)
    requires Flushed(a, b, i)
    ensures i < |a| == |b| && b == a[i := b[i]] && a[i := NO_PEER] == b[i := NO_PEER] && b[i].inUse == a[i].inUse && b[i].conn == a[i].conn
  {
  }

  /** `x` was handed to the slot of its connection, which was then flushed or, its socket having failed, dropped. */
  ghost predicate Delivered(a: seq<Peer>, b: seq<Peer>, gone: seq<Peer>, x: Write)
    requires |gone| == |a|
  {
    exists i :: 0 <= i < |a| && a[i].inUse && a[i].conn == x.conn && DeliveredTo(a, b, gone, i, x)
  }

  ghost predicate DeliveredTo(a: seq<Peer>, b: seq<Peer>, gone: seq<Peer>, i: nat, x: Write)
    requires i < |a| == |gone|
  {
    || (b == a[i := NO_PEER] && Sent(Enqueued(a[i], x), gone[i], true))
    || (Flushed(a[i := Enqueued(a[i], x)], b, i) && Sent(Enqueued(a[i], x), b[i], false))
  }

  lemma DeliveredAt(a: seq<Peer>, full: seq<Peer>, b: seq<Peer>, gone: seq<Peer>, i: nat, x: Write)
    requires i < |a| && a[i].inUse && a[i].conn == x.conn && full == a[i := Enqueued(a[i], x)]
    requires |gone| == |a|
    requires if |b| == |full| && b[i].inUse then Flushed(full, b, i) && Sent(full[i], b[i], false)
             else b == full[i := NO_PEER] && Sent(full[i], gone[i], true)
    ensures Delivered(a, b, gone, x)
  {
    hide Flushed, Sent;
    assert full[i := NO_PEER] == a[i := NO_PEER];
    assert DeliveredTo(a, b, gone, i, x);
  }

  /** Slot for slot: given back, or the same connection's with at least as much handed to it. */
  predicate Onto(a: seq<Peer>, b: seq<Peer>) {
    |a| == |b| && forall i :: 0 <= i < |a| ==> OntoAt(a[i], b[i])
  }

  predicate OntoAt(p: Peer, q: Peer) {
    q == NO_PEER || q == p || (q.inUse && p.inUse && q.conn == p.conn && p.polled <= q.polled)
  }

  lemma OntoOn(a: seq<Peer>, b: seq<Peer>, c: seq<Peer>)
    requires Onto(a, b) && Onto(b, c)
    ensures Onto(a, c)
  {
    forall i | 0 <= i < |a|
      ensures OntoAt(a[i], c[i])
    {
      assert OntoAt(a[i], b[i]) && OntoAt(b[i], c[i]);
    }
  }

  lemma OntoSelf(a: seq<Peer>)
    ensures Onto(a, a)
  {
  }

  lemma DeliveredOnto(a: seq<Peer>, b: seq<Peer>, c: seq<Peer>, gone: seq<Peer>, x: Write)
    requires Onto(a, b) && |gone| == |b| && Delivered(b, c, gone, x)
    ensures Onto(a, c)
  {
    hide OntoAt;
    var i :| 0 <= i < |b| && b[i].inUse && b[i].conn == x.conn && DeliveredTo(b, c, gone, i, x);
    forall j | 0 <= j < |a|
      ensures OntoAt(a[j], c[j])
    {
      assert OntoAt(a[j], b[j]);
      if j == i {
        OntoTwice(a[j], b[j], c[j], x);
      }
    }
  }

  lemma OntoTwice(p: Peer, q: Peer, r: Peer, x: Write)
    requires OntoAt(p, q) && q.inUse
    requires r == NO_PEER || (r.inUse == q.inUse && r.conn == q.conn && r.polled == q.polled + [x])
    ensures OntoAt(p, r)
  {
  }

  /** The first id from `n` on that can name a connection. */
  function IdFrom(n: nat): nat {
    if n == CONN_NONE || n == CONN_ALL then 1 else n
  }

  predicate HasFree(table: seq<Peer>) {
    exists i :: 0 <= i < |table| && !table[i].inUse
  }

  /** The server opens the connection; at what time makes no difference. */
  predicate Opens(w: World, s: Server, id: nat, peer: seq<Byte>) {
    Open(w, s, id, peer, 0).1 == P.Ok
  }

  lemma OpensAt(w: World, s: Server, id: nat, peer: seq<Byte>, now: int)
    ensures Opens(w, s, id, peer) <==> Open(w, s, id, peer, now).1 == P.Ok
  {
    hide SayConnection, Announce, FindConn, FreeFrom, Fresh;
  }

  /** A slot that was free is the connection's now, which the server holds open and did not before. */
  ghost predicate Filled(s: Server, a: seq<Peer>, t: Server, b: seq<Peer>, id: nat) {
    && !Runs.IsOpen(s.conns, id) && Runs.IsOpen(t.conns, id)
    && exists i :: 0 <= i < |a| && !a[i].inUse && b == a[i := NO_PEER.(inUse := true, conn := id)]
  }

  /** `t` is `s` after the connection `id` was opened, at some time. */
  ghost predicate ToldOpened(w: World, s: Server, t: Server, id: nat, peer: seq<Byte>) {
    exists now: int :: OpenedTo(w, s, t, id, peer, now)
  }

  predicate OpenedTo(w: World, s: Server, t: Server, id: nat, peer: seq<Byte>, now: int) {
    t == Open(w, s, id, peer, now).0
  }

  lemma OpenedAt(w: World, s: Server, t: Server, id: nat, peer: seq<Byte>, now: int)
    requires t == Open(w, s, id, peer, now).0
    ensures ToldOpened(w, s, t, id, peer)
  {
    hide Open;
    assert OpenedTo(w, s, t, id, peer, now);
  }

  lemma FilledAt(s: Server, a: seq<Peer>, t: Server, i: nat, id: nat)
    requires i < |a| && !a[i].inUse && !Runs.IsOpen(s.conns, id) && Runs.IsOpen(t.conns, id)
    ensures Filled(s, a, t, a[i := NO_PEER.(inUse := true, conn := id)], id)
  {
    hide Runs.IsOpen;
  }

  lemma OpensId(w: World, s: Server, id: nat, peer: seq<Byte>, now: int)
    requires Open(w, s, id, peer, now).1 == P.Ok
    ensures !Runs.IsOpen(s.conns, id) && Runs.IsOpen(Open(w, s, id, peer, now).0.conns, id)
  {
    hide SayConnection, Announce, FindFrom, Runs.IsOpen, CStr, Field;
    var k := FreeFrom(s.conns, 0).value;
    Runs.OpenAt(s.conns, k, Fresh(id, peer, now), id);
    if Runs.IsOpen(s.conns, id) {
      Runs.FoundOpen(s.conns, id);
    }
  }

  /** A poll that finds nothing changes nothing. */
  lemma PollNothing(w: World, s: Server)
    requires Runs.Inv(w, s)
    ensures PollWrites(s, 1).1 == [] ==> PollWrites(s, 1).0 == s
  {
    hide Runs.Inv;
    InvCap(w, s);
    Stalls.PollOn(s, 0, 1);
  }

  lemma InvCap(w: World, s: Server)
    requires Runs.Inv(w, s)
    ensures s.env.log.cap > 0
  {
  }

  lemma TickUp(s: Server, now: int)
    ensures Tick(s, now).env.closed == s.env.closed
  {
    hide TickFrom;
    TickStaysUp(At(s, now), 0, now);
  }

  /** What `recv` may answer. */
  datatype Received = Octets(data: seq<Byte>) | Ended | Nothing | Error

  lemma PeerOf(s: Slot)
    requires s.Valid()
    ensures s.Abs().inUse == s.inUse && s.Abs().conn == s.conn && s.Abs().polled == s.polled
  {
  }

  lemma NoneLinked(w: World, s: Server, table: seq<Peer>)
    requires Runs.Inv(w, s) && (forall id: nat :: !Runs.IsOpen(s.conns, id))
    requires forall i :: 0 <= i < |table| ==> table[i] == NO_PEER
    ensures Linked(w, s, table)
  {
    hide Runs.Inv, Runs.IsOpen;
    forall id: nat
      ensures Agrees(s, table, id)
    {
    }
  }
}
