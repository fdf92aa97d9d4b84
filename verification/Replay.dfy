/** A capture fed back to a server, and its replies compared with those recorded. */
module Replay {
  import opened Bytes
  import opened Numbers
  import opened Message
  import P = Protocol
  import opened Decode
  import Decoder
  import opened Events
  import Rings
  import opened Hub
  import opened Conns
  import opened Server
  import opened Resuming
  import S = Stalls
  import H = Host
  import R = Record
  import opened Playback

  // --------------------------------------------------------------------------------------
  // The replay
  // --------------------------------------------------------------------------------------

  /** Recorded times never go back, and the server's clock is not ahead of them. */
  predicate InOrder(rs: seq<R.Record>, now: int) {
    forall i :: 0 <= i < |rs| ==> now <= rs[i].at && forall j :: i <= j < |rs| ==> rs[i].at <= rs[j].at
  }

  class Replay {
    const w: World
    const host: H.Host
    var ids: seq<nat>
    var pending: seq<Write>
    var report: Report

    ghost predicate Valid()
      reads this, host.Repr()
    {
      && this !in host.Repr() && host.Valid()
      && |ids| <= REPLAY_CONNS && |pending| <= REPLAY_PENDING
    }

    ghost function Abs(): Play
      requires host.Valid()
      reads this, host.Repr()
    {
      Play(host.Abs(), ids, pending, report)
    }

    /** Spacing is off, and the server's clock is not ahead of the record's time. */
    ghost predicate Timely(at: int)
      requires host.Valid()
      reads host.Repr()
    {
      Prompt(host.Abs()) && host.Abs().env.now <= at
    }

    constructor (w: World, host: H.Host)
      requires host.Valid()
      ensures Valid() && this.host == host && this.w == w && report == NO_REPORT && pending == [] && ids == []
    {
      this.w, this.host := w, host;
      ids, pending, report := [], [], NO_REPORT;
    }

    lemma HostLives()
      requires host.Valid()
      ensures S.Running(host.Abs())
    {
      host.ValidCore();
      host.AbsIsScanned();
    }

    // ------------------------------------------------------------------------------------
    // Draining
    // ------------------------------------------------------------------------------------

    method Keep(out: seq<Write>)
      requires Valid()
      modifies this
      ensures Valid() && host.Abs() == old(host.Abs()) && Abs() == Took(old(Abs()), out)
    {
      hide Pooled, H.Host.Abs;
      ghost var p := Abs();
      NothingPooled(pending);
      assert out[..0] == [];
      for i := 0 to |out|
        invariant |pending| <= REPLAY_PENDING && Abs() == Took(p, out[..i])
      {
        PooledSnoc(p.pending, out, i);
        report := report.(produced := report.produced + 1);
        if |pending| < REPLAY_PENDING {
          pending := pending + [out[i]];
        } else {
          report := report.(extra := report.extra + 1);
        }
      }
      assert out[..|out|] == out;
    }

    method Note(out: seq<Event>)
      requires Valid()
      modifies this
      ensures Valid() && host.Abs() == old(host.Abs()) && Abs() == Tallied(old(Abs()), out)
    {
      hide Tallied, H.Host.Abs;
      ghost var p := Abs();
      NothingNoted(p);
      assert out[..0] == [];
      for i := 0 to |out|
        invariant pending == old(pending) && ids == old(ids) && Abs() == Tallied(p, out[..i])
      {
        NotedSnoc(p, out, i);
        NotedOne(Abs(), out[i]);
        match out[i].body {
          case Heard(m, _) =>
            report := report.(messages := report.messages + 1, shots := report.shots + if m.kind == Shot then 1 else 0,
                              flagsSeen := report.flagsSeen + m.flags);
          case ProtocolError(_) => report := report.(errors := report.errors + 1);
          case _ =>
        }
      }
      assert out[..|out|] == out;
    }

    method DrainWriteRound() returns (more: bool)
      requires Valid()
      modifies this, host.Repr()
      ensures Valid()
      ensures var (t, out) := PollWrites(old(host.Abs()), 8); more == (out != []) && Abs() == Took(old(Abs()).(server := t), out)
    {
      hide PollWrites, Pooled, H.Host.Abs, H.Host.Valid, H.Host.Repr;
      var out := host.PollWritesIn(8);
      Keep(out);
      more := out != [];
    }

    method DrainWrites()
      requires Valid()
      modifies this, host.Repr()
      ensures Valid() && S.Running(old(host.Abs())) && Abs() == Emptied(old(Abs()))
    {
      hide PollWrites, Took, Emptied, H.Host.Abs, H.Host.Valid, H.Host.Repr;
      var more := true;
      HostLives();
      while more
        invariant Valid() && S.Running(host.Abs())
        invariant if more then Emptied(Abs()) == Emptied(old(Abs())) else Abs() == Emptied(old(Abs()))
        decreases more, |host.Abs().env.writes|
      {
        ghost var p := Abs();
        EmptiedStep(p);
        NothingTaken(p.(server := PollWrites(p.server, 8).0));
        TookServer(p.(server := PollWrites(p.server, 8).0), PollWrites(p.server, 8).1);
        more := DrainWriteRound();
        HostLives();
      }
    }

    method DrainEventRound() returns (more: bool)
      requires Valid()
      modifies this, host.Repr()
      ensures Valid()
      ensures var (t, out) := PollEvents(old(host.Abs()), 16); more == (out != []) && Abs() == Tallied(old(Abs()).(server := t), out)
    {
      hide PollEvents, Tallied, H.Host.Abs, H.Host.Valid, H.Host.Repr;
      host.ValidCore();
      var out := host.PollEventsIn(16);
      Note(out);
      more := out != [];
    }

    method DrainEvents()
      requires Valid()
      modifies this, host.Repr()
      ensures Valid() && Abs() == Told(old(Abs()))
    {
      hide PollEvents, Tallied, Told, H.Host.Abs, H.Host.Valid, H.Host.Repr;
      var more := true;
      while more
        invariant Valid()
        invariant if more then Told(Abs()) == Told(old(Abs())) else Abs() == Told(old(Abs()))
        decreases more, |host.Abs().env.log.items|
      {
        ghost var p := Abs();
        ToldStep(p);
        NothingNoted(p.(server := PollEvents(p.server, 16).0));
        NotedServer(p.(server := PollEvents(p.server, 16).0), PollEvents(p.server, 16).1, p.server);
        more := DrainEventRound();
      }
    }

    /** `replay_drain`: polls the write ring, then the event ring, until each gives nothing more. */
    method Drain()
      requires Valid()
      modifies this, host.Repr()
      ensures Valid() && S.Running(old(host.Abs())) && Abs() == AfterDrain(old(Abs()))
      ensures host.Abs().env.now == old(host.Abs()).env.now && (old(Prompt(host.Abs())) ==> Prompt(host.Abs()))
    {
      hide Prompt, Emptied, Told, S.Running, S.AllDrained, AfterDrain, H.Host.Abs, H.Host.Valid, H.Host.Repr;
      ghost var p := Abs();
      HostLives();
      DrainTimely(p.server);
      DrainedIs(p);
      DrainWrites();
      DrainEvents();
    }

    // ------------------------------------------------------------------------------------
    // Client bytes
    // ------------------------------------------------------------------------------------

    method OpenOne(conn: nat, at: int) returns (ok: bool)
      requires Valid()
      modifies host.Repr()
      ensures Valid() && host.Abs() == Open(w, old(host.Abs()), conn, [], at).0
      ensures ok == (Open(w, old(host.Abs()), conn, [], at).1 == P.Ok)
    {
      hide Open;
      var status := host.OpenIn(w, conn, [], at);
      ok := status == P.Ok;
    }

    /** A connection is opened when its first bytes come. */
    method OpenLazily(conn: nat, at: int)
      requires Valid()
      modifies this, host.Repr()
      ensures Valid() && S.Running(old(host.Abs())) && Abs() == Opened(w, old(Abs()), conn, at)
      ensures old(Timely(at)) ==> Timely(at)
    {
      hide Prompt, Open, AfterDrain, S.Running, H.Host.Abs, H.Host.Valid, H.Host.Repr;
      HostLives();
      if conn !in ids {
        OpenTimely(w, host.Abs(), conn, at);
        var ok := OpenOne(conn, at);
        if ok {
          NoteOpened(conn);
        }
        Drain();
      }
    }

    method NoteOpened(conn: nat)
      requires Valid()
      modifies this
      ensures Valid() && host.Abs() == old(host.Abs()) && Abs() == Listed(old(Abs()), conn)
    {
      hide H.Host.Abs, H.Host.Valid, H.Host.Repr;
      if |ids| < REPLAY_CONNS {
        ids := ids + [conn];
      }
      report := report.(connections := report.connections + 1);
    }

    /** One call of `on_bytes`. */
    method Feed(conn: nat, data: seq<Byte>, at: int) returns (full: bool)
      requires Valid()
      modifies host.Repr()
      ensures Valid() && S.Running(old(host.Abs())) && S.Running(host.Abs())
      ensures var (t, status) := OnBytes(w, old(host.Abs()), conn, data, at);
              host.Abs() == t && full == (status == P.QueueFull)
      ensures full ==> host.Abs().env.now == at
    {
      hide OnBytes;
      HostLives();
      S.BytesLive(w, host.Abs(), conn, data, at);
      var status := host.OnBytesIn(w, conn, data, at);
      full := status == P.QueueFull;
    }

    /**
     * Drains and resumes until the server has taken everything, or has been asked `rounds` times:
     * the replay sets no such bound, and whether it needs one `TwoRounds.EndsExactly` tells.
     */
    method FeedAll(conn: nat, data: seq<Byte>, at: int, rounds: nat) returns (done: bool)
      requires Valid()
      modifies this, host.Repr()
      ensures Valid() && S.Running(old(host.Abs())) && (Abs(), done) == Fed(w, old(Abs()), conn, data, at, rounds)
      ensures old(Timely(at)) && rounds > Capacity(host.core.cfg) ==> done && Timely(at)
    {
      hide Prompt, OnBytes, S.Rounds, S.EndsBy, S.Running, Resumed, H.Host.Abs, H.Host.Valid, H.Host.Repr;
      HostLives();
      ghost var p := Abs();
      FedServer(w, p, conn, data, at, rounds);
      var full := Feed(conn, data, at);
      done := !full;
      PendingFits(conn);
      FeedTimely(w, p.server, conn, data, at, rounds);
      if !done {
        done := ResumeAll(conn, at, rounds);
      }
    }

    /** The loop behind a refused call. */
    method ResumeAll(conn: nat, at: int, rounds: nat) returns (done: bool)
      requires Valid() && S.Running(host.Abs())
      modifies this, host.Repr()
      ensures Valid() && (Abs(), done) == Resumed(w, old(Abs()), conn, at, rounds)
    {
      hide OnBytes, AfterDrain, Resumed, S.Running, H.Host.Abs, H.Host.Valid, H.Host.Repr;
      ghost var p := Abs();
      done := false;
      var n := 0;
      while !done && n < rounds
        invariant n <= rounds && Valid() && S.Running(host.Abs())
        invariant Resumed(w, p, conn, at, rounds) == if done then (Abs(), true) else Resumed(w, Abs(), conn, at, rounds - n)
        decreases rounds - n
      {
        ResumedStep(w, Abs(), conn, at, rounds - n);
        Drain();
        var full := Feed(conn, [], at);
        done := !full;
        n := n + 1;
      }
      if !done {
        NotResumed(w, Abs(), conn, at);
      }
    }

    // ------------------------------------------------------------------------------------
    // Recorded replies
    // ------------------------------------------------------------------------------------

    /** The first pending reply with the same bytes, or the first of the same code. */
    static method FindReply(pending: seq<Write>, c: R.Record, decoded: Option<Response>, exact: bool) returns (at: Option<nat>)
      ensures at.Some? ==> at.value < |pending| && IsFirst(pending, at.value, c, decoded, exact)
      ensures at == None ==> NoneClaims(pending, c, decoded, exact)
    {
      for i := 0 to |pending|
        invariant forall j :: 0 <= j < i ==> !Claims(pending[j], c, decoded, exact)
      {
        if Claims(pending[i], c, decoded, exact) {
          return Some(i);
        }
      }
      return None;
    }

    static method Judge(pending: seq<Write>, c: R.Record, decoded: Option<Response>) returns (v: Verdict, after: seq<Write>)
      ensures Judged(pending, after, c, decoded, v)
    {
      hide Claims, IsFirst, HostOriginated;
      var at := FindReply(pending, c, decoded, true);
      v := Matched;
      if at == None {
        at := FindReply(pending, c, decoded, false);
        v := Differing;
      }
      if at.Some? {
        after := Rings.Without(pending, at.value);
      } else {
        after := pending;
        v := if HostOriginated(decoded) then Unsolicited else Missing;
      }
    }

    /** `replay_match_reply`. */
    method MatchReply(c: R.Record) returns (v: Verdict)
      requires Valid()
      modifies this
      ensures Valid() && host.Valid() && host.Abs() == old(host.Abs()) && ids == old(ids)
      ensures Judged(old(pending), pending, c, DecodeResponse(w.lib, c.data), v)
      ensures Abs() == Compared(w, old(Abs()), c)
    {
      hide DecodeResponse, Judged, Judgement, H.Host.Abs;
      var decoded := Decoder.ResponseDecode(w.lib, c.data);
      var after;
      v, after := Judge(pending, c, decoded);
      JudgedSize(pending, after, c, decoded, v);
      OneJudgement(pending, after, c, decoded, v);
      Settle(after, v);
    }

    method Settle(after: seq<Write>, v: Verdict)
      requires Valid() && |after| <= |pending|
      modifies this
      ensures Valid() && host.Valid() && host.Abs() == old(host.Abs()) && ids == old(ids) && pending == after
      ensures report == Counted(old(report), v)
    {
      pending := after;
      report := Counted(report, v);
    }

    // ------------------------------------------------------------------------------------
    // Chunks
    // ------------------------------------------------------------------------------------

    method ServerChunk(c: R.Record)
      requires Valid()
      modifies this, host.Repr()
      ensures Valid() && S.Running(old(host.Abs())) && Abs() == ServerStep(w, old(Abs()), c)
      ensures old(Timely(c.at)) ==> Timely(c.at)
    {
      hide Prompt, Judged, Compared, AfterDrain, H.Host.Abs, H.Host.Valid, H.Host.Repr;
      Drain();
      report := report.(server := report.server + 1);
      var v := MatchReply(c);
    }

    method ClientChunk(c: R.Record, rounds: nat) returns (done: bool)
      requires Valid()
      modifies this, host.Repr()
      ensures Valid() && S.Running(old(host.Abs())) && (Abs(), done) == ClientStep(w, old(Abs()), c, rounds)
      ensures old(Timely(c.at)) && rounds > Capacity(host.core.cfg) ==> done && Timely(c.at)
    {
      hide Prompt, Opened, Fed, AfterDrain, S.Running, H.Host.Abs, H.Host.Valid, H.Host.Repr;
      report := report.(client := report.client + 1);
      OpenLazily(c.conn, c.at);
      done := FeedAll(c.conn, c.data, c.at, rounds);
      if done {
        Drain();
      }
    }

    method CloseOne(conn: nat, at: int)
      requires Valid()
      modifies host.Repr()
      ensures Valid() && host.Abs() == Closed(w, old(host.Abs()), conn, RemoteClosed, at).0
      ensures old(Timely(at)) ==> Timely(at)
    {
      hide Prompt, Closed;
      CloseTimely(w, host.Abs(), conn, at);
      var status := host.ClosedIn(w, conn, RemoteClosed, at);
    }

    /** `replay_closed`: the id leaves the table of open ones. */
    method Forget(conn: nat)
      requires Valid()
      modifies this
      ensures Valid() && host.Abs() == old(host.Abs()) && Abs() == old(Abs()).(ids := WithoutFirst(old(ids), conn))
    {
      hide H.Host.Abs;
      ghost var was := ids;
      for i := 0 to |ids|
        invariant unchanged(this) && WithoutFirst(was, conn) == was[..i] + WithoutFirst(was[i..], conn)
      {
        OneForgotten(was, conn, i);
        if ids[i] == conn {
          ids := Rings.Without(ids, i);
          return;
        }
      }
      assert ids[|ids|..] == [] && ids[..|ids|] == ids;
    }

    /** The server told that a connection is closed, and its id taken off the table. */
    method CloseListed(conn: nat, at: int)
      requires Valid()
      modifies this, host.Repr()
      ensures Valid() && (old(Timely(at)) ==> Timely(at))
      ensures var p := old(Abs()); Abs() == p.(server := Closed(w, p.server, conn, RemoteClosed, at).0, ids := WithoutFirst(p.ids, conn))
    {
      hide Prompt, Closed, WithoutFirst, H.Host.Abs, H.Host.Valid, H.Host.Repr;
      CloseOne(conn, at);
      Forget(conn);
    }

    method MetaChunk(c: R.Record)
      requires Valid()
      modifies this, host.Repr()
      ensures Valid() && S.Running(old(host.Abs())) && Abs() == MetaStep(w, old(Abs()), c)
      ensures old(Timely(c.at)) ==> Timely(c.at)
    {
      hide Prompt, Closed, AfterDrain, S.Running, H.Host.Abs, H.Host.Valid, H.Host.Repr, WithoutFirst, SaysClosed;
      HostLives();
      report := report.(meta := report.meta + 1);
      assert SaysClosed(c) == (|c.data| >= |CLOSED_WORD| && c.data[..|CLOSED_WORD|] == CLOSED_WORD) by { ClosedLine(c); }
      if |c.data| >= |CLOSED_WORD| && c.data[..|CLOSED_WORD|] == CLOSED_WORD && c.conn in ids {
        CloseListed(c.conn, c.at);
        Drain();
      }
    }

    /** One chunk; `done` unless its bytes are still being refused after `rounds` rounds. */
    method OneChunk(c: R.Record, rounds: nat) returns (done: bool)
      requires Valid()
      modifies this, host.Repr()
      ensures Valid() && S.Running(old(host.Abs())) && (Abs(), done) == ChunkStep(w, old(Abs()), c, rounds)
      ensures old(Timely(c.at)) && rounds > Capacity(host.core.cfg) ==> done && Timely(c.at)
    {
      hide Prompt, ClientStep, ServerStep, MetaStep, S.Running, H.Host.Abs, H.Host.Valid, H.Host.Repr;
      HostLives();
      report := report.(chunks := report.chunks + 1, lost := report.lost + if c.flags / LOST_FLAG % 2 == 1 then 1 else 0);
      done := true;
      if c.direction == TO_SERVER {
        done := ClientChunk(c, rounds);
      } else if c.direction == TO_CLIENT {
        ServerChunk(c);
      } else if c.direction == META_LINE {
        MetaChunk(c);
      }
    }

    /** `due` says that spacing is off, the records in order and the rounds enough. */
    method Chunks(batch: seq<R.Record>, rounds: nat, ghost due: bool) returns (done: bool)
      requires Valid()
      requires due ==> Due(rounds) && InOrder(batch, host.Abs().env.now)
      modifies this, host.Repr()
      ensures Valid() && S.Running(old(host.Abs())) && (Abs(), done) == ChunkSteps(w, old(Abs()), batch, rounds)
      ensures due ==> done && Due(rounds) && LastTime(batch, old(host.Abs()).env.now, host.Abs().env.now)
    {
      hide Prompt, ChunkStep, ChunkSteps, InOrder, S.Running, H.Host.Abs, H.Host.Valid, H.Host.Repr;
      HostLives();
      ghost var p, now := Abs(), host.Abs().env.now;
      NoSteps(w, p, rounds);
      assert batch[..0] == [];
      for i := 0 to |batch|
        invariant Valid() && S.Running(p.server) && ChunkSteps(w, p, batch[..i], rounds) == (Abs(), true)
        invariant due ==> Due(rounds) && LastTime(batch[..i], now, host.Abs().env.now)
      {
        InOrderAt(batch, now, i, host.Abs().env.now);
        StepsOn(w, p, batch, i, rounds);
        done := OneChunk(batch[i], rounds);
        if !done {
          StepsStop(w, p, batch, i + 1, rounds);
          return;
        }
        assert batch[..i + 1][i] == batch[i];
      }
      assert batch[..|batch|] == batch;
      done := true;
    }

    ghost predicate Due(rounds: nat)
      requires host.Valid()
      reads host.Repr()
    {
      Prompt(host.Abs()) && rounds > Capacity(host.core.cfg)
    }

    method NextBatch(reader: R.Reader, ghost rounds: nat) returns (batch: seq<R.Record>)
      requires Valid() && reader.Valid() && reader.status == R.Readable && reader !in host.Repr()
      modifies reader
      ensures Valid() && host.Valid() && Abs() == old(Abs()) && host.Abs() == old(host.Abs()) && reader.Valid()
      ensures Due(rounds) == old(Due(rounds))
      ensures R.Batch(batch, reader.Rest(), reader.status) == R.ReadUpTo(old(reader.Rest()), 8)
    {
      hide R.ReadUpTo, H.Host.Abs, Prompt;
      batch := reader.Read(8);
    }

    /** The next eight records, if there are as many. */
    method OneBatch(reader: R.Reader, rounds: nat, ghost due: bool) returns (batch: seq<R.Record>, more: bool, done: bool)
      requires Valid() && reader.Valid() && reader.status == R.Readable && reader !in host.Repr()
      requires due ==> Due(rounds) && InOrder(R.ReadAll(reader.Rest()).0, host.Abs().env.now)
      modifies this, host.Repr(), reader
      ensures Valid() && host.Valid() && reader.Valid() && more == (reader.status == R.Readable)
      ensures S.Running(old(host.Abs())) && (Abs(), done) == ChunkSteps(w, old(Abs()), batch, rounds)
      ensures more ==> |reader.Rest()| < |old(reader.Rest())|
      ensures R.ReadAll(old(reader.Rest()))
           == if more then Behind(batch, R.ReadAll(reader.Rest())) else (batch, reader.status)
      ensures due ==> done && Due(rounds) && (more ==> InOrder(R.ReadAll(reader.Rest()).0, host.Abs().env.now))
    {
      hide *;
      ValidHost();
      HostLives();
      ghost var rest, now := reader.Rest(), host.Abs().env.now;
      R.BatchesAreWhole(rest, 8);
      BatchShrinks(rest, 8);
      batch := NextBatch(reader, rounds);
      more := reader.status == R.Readable;
      ghost var later := if more then R.ReadAll(reader.Rest()) else ([], reader.status);
      assert batch + [] == batch;
      BehindIs(batch, later);
      OrderSplits(batch, later.0, now);
      done := Chunks(batch, rounds, due);
      ValidHost();
      LaterInOrder(batch, later.0, now, host.Abs().env.now);
    }

    /**
     * `gsp_replay_into_server`, resuming at most `rounds` times for one chunk: the server, the table,
     * the replies waiting and the report are what the chunks of the capture make of them, one after
     * another. `Playback.PlayedBalanced` says what the report's account then is. With spacing off,
     * times in order and a round for every byte the buffer holds the replay is not cut short.
     */
    method Run(reader: R.Reader, rounds: nat) returns (status: R.Ending, done: bool)
      requires Valid() && reader.Valid() && reader.status == R.Readable && reader !in host.Repr()
      modifies this, host.Repr(), reader
      ensures host.Valid() && Replayed(w, old(Abs()), old(reader.Rest()), rounds, Abs(), done, status)
      ensures old(Due(rounds) && InOrder(R.ReadAll(reader.Rest()).0, host.Abs().env.now)) ==> done
    {
      hide *;
      ValidHost();
      ghost var due := Due(rounds) && InOrder(R.ReadAll(reader.Rest()).0, host.Abs().env.now);
      ghost var all, fed, p := R.ReadAll(reader.Rest()), [], Abs();
      AbsHost();
      HostLives();
      NothingBefore(all);
      NoSteps(w, p, rounds);
      var more := true;
      done := true;
      while more && done
        invariant Valid() && host.Valid() && reader.Valid() && reader !in host.Repr() && S.Running(p.server)
        invariant ChunkSteps(w, p, fed, rounds) == (Abs(), done)
        invariant more ==> reader.status == R.Readable
        invariant all == if more then Behind(fed, R.ReadAll(reader.Rest())) else (fed, reader.status)
        invariant due ==> done && Due(rounds) && (more ==> InOrder(R.ReadAll(reader.Rest()).0, host.Abs().env.now))
        decreases more, |reader.Rest()|
      {
        ghost var before := Abs();
        AbsHost();
        var batch, again, went := OneBatch(reader, rounds, due);
        StepsConcat(w, p, fed, batch, rounds);
        BehindMore(fed, batch, R.ReadAll(reader.Rest()));
        BehindLast(fed, batch, reader.status);
        fed := fed + batch;
        more, done := again, went;
      }
      status := reader.status;
      PlayedIs(w, p, fed, rounds);
      if done {
        AbsHost();
        Finish();
      } else if more {
        PlayedShort(w, p, fed, R.ReadAll(reader.Rest()).0, rounds);
        BehindIs(fed, R.ReadAll(reader.Rest()));
      }
      ReplayedIs(w, p, old(reader.Rest()), rounds, Abs(), done, status);
    }

    lemma AbsHost()
      requires host.Valid()
      ensures Abs().server == host.Abs()
    {
    }

    lemma ValidHost()
      requires Valid()
      ensures host.Valid()
    {
    }

    method Finish()
      requires Valid() && S.Running(host.Abs())
      modifies this, host.Repr()
      ensures host.Valid() && Abs() == Finished(old(Abs()))
    {
      hide Prompt, AfterDrain, S.Running, H.Host.Abs, H.Host.Valid, H.Host.Repr;
      Drain();
      report := report.(extra := report.extra + |pending|);
    }

    lemma PendingFits(conn: nat)
      requires Valid()
      ensures S.PendingOf(host.Abs(), conn).Some? ==> S.PendingOf(host.Abs(), conn).value <= Capacity(host.core.cfg)
      ensures S.PendingOf(host.Abs(), conn).Some? ==> S.PendingOf(host.Abs(), conn).value >= 0
    {
      var k := FindConn(host.Abs().conns, conn);
      if k.Some? {
        host.SlotAt(k.value);
      }
    }
  }

  // --------------------------------------------------------------------------------------
  // With spacing off and times in order
  // --------------------------------------------------------------------------------------

  /** Between the time before a batch and the time after it lies at most its last record's. */
  predicate LastTime(batch: seq<R.Record>, was: int, now: int) {
    if batch == [] then now == was else now <= batch[|batch| - 1].at
  }

  lemma InOrderAt(batch: seq<R.Record>, was: int, i: nat, now: int)
    requires i < |batch|
    ensures InOrder(batch, was) && LastTime(batch[..i], was, now) ==> now <= batch[i].at
  {
    if i > 0 {
      assert batch[..i][i - 1] == batch[i - 1];
    }
  }

  lemma OrderSplits(batch: seq<R.Record>, later: seq<R.Record>, now: int)
    ensures InOrder(batch + later, now) ==>
              InOrder(batch, now) && InOrder(later, if batch == [] then now else batch[|batch| - 1].at)
  {
    hide InOrder;
    if InOrder(batch + later, now) {
      SplitOrder(batch, later, now);
    }
  }

  lemma LaterInOrder(batch: seq<R.Record>, later: seq<R.Record>, was: int, now: int)
    ensures InOrder(later, if batch == [] then was else batch[|batch| - 1].at) && LastTime(batch, was, now)
            ==> InOrder(later, now)
  {
  }

  lemma DrainTimely(s: Server)
    requires S.Running(s)
    ensures s.env.log.cap > 0 && S.AllDrained(s) == S.DrainEvents(S.DrainWrites(s))
    ensures S.AllDrained(s).env.now == s.env.now && (Prompt(s) ==> Prompt(S.AllDrained(s)))
  {
    hide Prompt;
    S.DrainedOn(s);
    if Prompt(s) {
      S.DrainedPrompt(s);
    }
  }

  lemma OpenTimely(w: World, s: Server, conn: nat, at: int)
    ensures Prompt(s) && s.env.now <= at ==>
              Prompt(Open(w, s, conn, [], at).0) && Open(w, s, conn, [], at).0.env.now <= at
  {
    hide Prompt, Open;
    if Prompt(s) && s.env.now <= at {
      OpenPrompt(w, s, conn, [], at);
    }
  }

  lemma CloseTimely(w: World, s: Server, conn: nat, at: int)
    ensures Prompt(s) && s.env.now <= at ==>
              Prompt(Closed(w, s, conn, RemoteClosed, at).0) && Closed(w, s, conn, RemoteClosed, at).0.env.now <= at
  {
    hide Prompt, Closed;
    if Prompt(s) && s.env.now <= at {
      ClosedPrompt(w, s, conn, RemoteClosed, at);
    }
  }

  lemma FeedTimely(w: World, s: Server, conn: nat, data: seq<Byte>, at: int, rounds: nat)
    requires S.Running(s)
    ensures var (t, status) := OnBytes(w, s, conn, data, at);
            && S.Running(t) && (status == P.QueueFull ==> t.env.now == at)
            && (Prompt(s) && s.env.now <= at ==>
                  && Prompt(t) && t.env.now <= at
                  && (status == P.QueueFull && rounds > 0 && (S.PendingOf(t, conn).Some? ==> S.PendingOf(t, conn).value < rounds) ==>
                        var u := S.Rounds(w, t, conn, at, rounds).0;
                        S.EndsBy(w, t, conn, at, rounds) && Prompt(u) && u.env.now <= at))
  {
    hide Prompt, OnBytes, S.PendingOf, S.Rounds, S.EndsBy, FindConn;
    S.BytesLive(w, s, conn, data, at);
    if Prompt(s) && s.env.now <= at {
      OnBytesPrompt(w, s, conn, data, at);
      var (t, status) := OnBytes(w, s, conn, data, at);
      if status == P.QueueFull && rounds > 0 && (S.PendingOf(t, conn).Some? ==> S.PendingOf(t, conn).value < rounds) {
        S.PromptEnds(w, t, conn, at, rounds);
      }
    }
  }

  lemma SplitOrder(a: seq<R.Record>, b: seq<R.Record>, now: int)
    requires InOrder(a + b, now)
    ensures InOrder(a, now)
    ensures a == [] ==> InOrder(b, now)
    ensures a != [] ==> InOrder(b, a[|a| - 1].at)
  {
    var s := a + b;
    forall i | 0 <= i < |a|
      ensures now <= a[i].at && forall j :: i <= j < |a| ==> a[i].at <= a[j].at
    {
      assert s[i] == a[i];
      forall j | i <= j < |a|
        ensures a[i].at <= a[j].at
      {
        assert s[j] == a[j];
      }
    }
    forall i | 0 <= i < |b|
      ensures now <= b[i].at && (a != [] ==> a[|a| - 1].at <= b[i].at) && forall j :: i <= j < |b| ==> b[i].at <= b[j].at
    {
      assert s[|a| + i] == b[i];
      if a != [] {
        assert s[|a| - 1] == a[|a| - 1];
      }
      forall j | i <= j < |b|
        ensures b[i].at <= b[j].at
      {
        assert s[|a| + j] == b[j];
      }
    }
  }

  lemma {:induction false} BatchShrinks(s: seq<Byte>, max: nat)
    requires max > 0
    ensures R.ReadUpTo(s, max).status == R.Readable ==> |R.ReadUpTo(s, max).rest| < |s|
    decreases max
  {
    if R.ReadOne(s).Got? && max > 1 {
      BatchShrinks(R.ReadOne(s).rest, max - 1);
    }
  }

  /** `done`, and behind it what was read later. */
  function Behind(done: seq<R.Record>, later: (seq<R.Record>, R.Ending)): (seq<R.Record>, R.Ending) {
    (done + later.0, later.1)
  }

  /** `q` is what the capture makes of `p`; a replay that was not cut short ends as the capture does. */
  predicate Replayed(w: World, p: Play, capture: seq<Byte>, rounds: nat, q: Play, done: bool, status: R.Ending) {
    && S.Running(p.server)
    && var (all, why) := R.ReadAll(capture);
       (q, done) == Played(w, p, all, rounds) && (done ==> status == why)
  }

  lemma ReplayedIs(w: World, p: Play, capture: seq<Byte>, rounds: nat, q: Play, done: bool, status: R.Ending)
    requires S.Running(p.server)
    requires var (all, why) := R.ReadAll(capture); (q, done) == Played(w, p, all, rounds) && (done ==> status == why)
    ensures Replayed(w, p, capture, rounds, q, done, status)
  {
    hide R.ReadAll, Played, S.Running;
  }

  lemma OneForgotten(ids: seq<nat>, conn: nat, i: nat)
    requires i < |ids| && WithoutFirst(ids, conn) == ids[..i] + WithoutFirst(ids[i..], conn)
    ensures WithoutFirst(ids, conn) == if ids[i] == conn then Rings.Without(ids, i) else ids[..i + 1] + WithoutFirst(ids[i + 1..], conn)
  {
    assert ids[i..][1..] == ids[i + 1..] && ids[..i + 1] == ids[..i] + [ids[i]];
  }

  lemma ClosedLine(c: R.Record)
    ensures SaysClosed(c) == (|c.data| >= |CLOSED_WORD| && c.data[..|CLOSED_WORD|] == CLOSED_WORD)
  {
  }

  lemma BehindIs(done: seq<R.Record>, later: (seq<R.Record>, R.Ending))
    ensures Behind(done, later) == (done + later.0, later.1)
  {
  }

  lemma NothingBefore(later: (seq<R.Record>, R.Ending))
    ensures Behind([], later) == later
  {
    assert [] + later.0 == later.0;
  }

  lemma BehindMore(done: seq<R.Record>, batch: seq<R.Record>, later: (seq<R.Record>, R.Ending))
    ensures Behind(done, Behind(batch, later)) == Behind(done + batch, later)
  {
    assert done + (batch + later.0) == done + batch + later.0;
  }

  lemma BehindLast(done: seq<R.Record>, batch: seq<R.Record>, why: R.Ending)
    ensures Behind(done, (batch, why)) == (done + batch, why)
  {
  }
}
