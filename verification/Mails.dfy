/**
 * The write requests of one connection id: those queued since its last connection left, those
 * polled, and those still in the ring.
 */
module Mails {
  import opened Bytes
  import opened Events
  import opened Rings
  import opened EventLog
  import opened Hub

  /** The requests addressed to `id`, in order. */
  function For(ws: seq<Write>, id: nat): seq<Write> {
    if ws == [] then []
    else For(ws[..|ws| - 1], id) + if ws[|ws| - 1].conn == id then [ws[|ws| - 1]] else []
  }

  /** `spaced` says that no two polls ever came closer than the policy's spacing. */
  datatype Mail = Mail(queued: seq<Write>, polled: seq<Write>, last: Option<int>, spaced: bool)

  const NO_MAIL: Mail := Mail([], [], None, true)

  function Post(m: Mail, step: Step, id: nat, spacing: int): Mail {
    match step
    case Queued(x, _) => if x.conn == id then m.(queued := m.queued + [x]) else m
    case Polled(x, at) =>
      if x.conn == id then
        m.(polled := m.polled + [x], last := Some(at),
           spaced := m.spaced && (spacing > 0 && m.last.Some? ==> at >= m.last.value + spacing))
      else m
    case Left(conn) => if conn == id then Mail([], [], None, m.spaced) else m
  }

  function MailOf(trace: seq<Step>, id: nat, spacing: int): Mail {
    if trace == [] then NO_MAIL else Post(MailOf(trace[..|trace| - 1], id, spacing), trace[|trace| - 1], id, spacing)
  }

  function EnvMail(e: Env, id: nat): Mail {
    MailOf(e.trace, id, e.cfg.policy.writeSpacing)
  }

  /**
   * First in, first out, nothing lost and nothing twice: what was queued for `id` is what was
   * polled followed by what is still in the ring.
   */
  predicate InOrder(e: Env, id: nat) {
    EnvMail(e, id).queued == EnvMail(e, id).polled + For(e.writes, id) && EnvMail(e, id).spaced
  }

  lemma MailSnoc(trace: seq<Step>, step: Step, id: nat, spacing: int)
    ensures MailOf(trace + [step], id, spacing) == Post(MailOf(trace, id, spacing), step, id, spacing)
  {
    assert (trace + [step])[..|trace|] == trace;
  }

  lemma ForSnoc(ws: seq<Write>, x: Write, id: nat)
    ensures For(ws + [x], id) == For(ws, id) + if x.conn == id then [x] else []
  {
    assert (ws + [x])[..|ws|] == ws;
  }

  lemma {:induction false} ForConcat(a: seq<Write>, b: seq<Write>, id: nat)
    ensures For(a + b, id) == For(a, id) + For(b, id)
    decreases |b|
  {
    if b == [] {
      assert a + b == a;
    } else {
      var k := |b| - 1;
      assert (a + b)[..|a + b| - 1] == a + b[..k];
      ForConcat(a, b[..k], id);
    }
  }

  lemma {:induction false} ForNone(ws: seq<Write>, id: nat)
    requires forall i :: 0 <= i < |ws| ==> ws[i].conn != id
    ensures For(ws, id) == []
    decreases |ws|
  {
    if ws != [] {
      ForNone(ws[..|ws| - 1], id);
    }
  }

  lemma {:induction false} ForSome(ws: seq<Write>, id: nat, i: nat)
    requires i < |ws| && ws[i].conn == id
    ensures For(ws, id) != []
    decreases |ws|
  {
    if i < |ws| - 1 {
      ForSome(ws[..|ws| - 1], id, i);
    }
  }

  /** Taking out the first request for a connection takes it from the front of that connection's. */
  lemma ForWithout(ws: seq<Write>, i: nat, id: nat)
    requires i < |ws|
    requires ws[i].conn == id ==> forall j :: 0 <= j < i ==> ws[j].conn != id
    ensures For(ws, id) == (if ws[i].conn == id then [ws[i]] else []) + For(Without(ws, i), id)
  {
    hide For;
    assert ws == ws[..i] + ([ws[i]] + ws[i + 1..]);
    ForConcat(ws[..i], [ws[i]] + ws[i + 1..], id);
    ForConcat([ws[i]], ws[i + 1..], id);
    ForConcat(ws[..i], ws[i + 1..], id);
    ForSnoc([], ws[i], id);
    assert [] + [ws[i]] == [ws[i]];
    assert For([], id) == [] by { ForNone([], id); }
    if ws[i].conn == id {
      ForNone(ws[..i], id);
    }
  }

  lemma {:induction false} ForKept(ws: seq<Write>, conn: nat, id: nat)
    ensures For(Kept(ws, NotFor(conn)), id) == if id == conn then [] else For(ws, id)
    decreases |ws|
  {
    if ws != [] {
      var k := |ws| - 1;
      ForKept(ws[..k], conn, id);
      ForSnoc(Kept(ws[..k], NotFor(conn)), ws[k], id);
    }
  }

  // --------------------------------------------------------------------------------------
  // The operations on the ring
  // --------------------------------------------------------------------------------------

  /** Another request queued, or none, for every connection. */
  lemma QueueInOrder(w: World, e: Env, conn: nat, kind: WriteKind, code: int, text: seq<Byte>,
                     player: Option<Message.PlayerInfo>, id: nat)
    ensures var f := QueueWrite(w, e, conn, kind, code, text, player);
            && (InOrder(e, id) ==> InOrder(f, id))
            && EnvMail(f, id) == EnvMail(e, id).(queued := EnvMail(f, id).queued)
            && (id != conn ==> EnvMail(f, id) == EnvMail(e, id) && For(f.writes, id) == For(e.writes, id))
  {
    hide For, MailOf, Encode.ResponseText;
    if Queues(w, e, code, text, player) {
      var x := Write(conn, kind, Encode.ResponseText(w.lib, code, Some(text), player));
      MailSnoc(e.trace, Queued(x, |e.log.emitted|), id, e.cfg.policy.writeSpacing);
      ForSnoc(e.writes, x, id);
      var m := EnvMail(e, id);
      assert m.polled + For(e.writes, id) + [x] == m.polled + (For(e.writes, id) + [x]);
    }
  }

  lemma DropInOrder(e: Env, conn: nat, id: nat)
    requires InOrder(e, id)
    ensures InOrder(DropWritesFor(e, conn), id)
    ensures EnvMail(DropWritesFor(e, conn), id)
         == if id == conn then Mail([], [], None, true) else EnvMail(e, id)
    ensures For(DropWritesFor(e, conn).writes, id) == if id == conn then [] else For(e.writes, id)
  {
    hide For, MailOf;
    MailSnoc(e.trace, Left(conn), id, e.cfg.policy.writeSpacing);
    ForKept(e.writes, conn, id);
  }

  /** The request at `i`, the first for its connection, handed out no sooner than its spacing allows. */
  lemma TakeInOrder(e: Env, i: nat, id: nat, f: Env)
    requires InOrder(e, id) && i < |e.writes|
    requires e.writes[i].conn == id ==> forall j :: 0 <= j < i ==> e.writes[j].conn != id
    requires f.cfg == e.cfg && f.writes == Without(e.writes, i) && f.trace == e.trace + [Polled(e.writes[i], e.now)]
    requires e.writes[i].conn == id && e.cfg.policy.writeSpacing > 0 && EnvMail(e, id).last.Some? ==>
               e.now >= EnvMail(e, id).last.value + e.cfg.policy.writeSpacing
    ensures InOrder(f, id)
    ensures EnvMail(f, id).last == if e.writes[i].conn == id then Some(e.now) else EnvMail(e, id).last
    ensures EnvMail(f, id).queued == EnvMail(e, id).queued
  {
    hide For, MailOf;
    MailSnoc(e.trace, Polled(e.writes[i], e.now), id, e.cfg.policy.writeSpacing);
    ForWithout(e.writes, i, id);
    var m := EnvMail(e, id);
    assert m.polled + ([e.writes[i]] + For(f.writes, id)) == m.polled + [e.writes[i]] + For(f.writes, id);
  }
}
