/**
 The inbox pump on a database that fails: which of its statements take effect under any schedule of faults, and
 when a request can be answered twice.
 */
module InboxFaults {
  import opened Tables
  import opened Bus
  import opened Lifecycle
  import opened Inbox
  import opened Persistence

  /** The store, and which of its coming writes and exit statements fail. */
  datatype Line = Line(db: Db, writes: Faults, exits: Faults)

  /** Where the attempt got to, and whether it raised. */
  datatype Tried = Tried(line: Line, raised: bool)

  /** One bus operation in its transaction; nested, a failing RELEASE leaves what the operation did. */
  function Submit(l: Line, nested: bool, spec: Result<Db>): Tried {
    if spec.Err? then Tried(l, true)
    else if Strikes(l.writes) then Tried(l.(writes := After(l.writes, 1)), true)
    else
      var done := Line(spec.value, After(l.writes, 1), After(l.exits, 1));
      if Strikes(l.exits) then Tried(if nested then done else done.(db := l.db), true) else Tried(done, false)
  }

  function DispatchUnder(w: World, l: Line, nested: bool, agent: string, m: Message): Tried {
    if m.replyTo.Some? then Submit(l, nested, Ack(l.db, m.id))
    else if !Handles(agent, m.kind) then Submit(l, nested, DeadLetter(l.db, m.id, UNHANDLED))
    else
      var answer := Answer(w, l.db.rows, m);
      if answer.Err? then Tried(l, true)
      else if m.expectsReply && answer.value.Some? then
        var sent := Submit(l, nested, Bus.Reply(w.env.roster, w.env.tie, l.db, w.now, m, agent, answer.value.value, None));
        if sent.raised then sent else Submit(sent.line, nested, Ack(sent.line.db, m.id))
      else Submit(l, nested, Ack(l.db, m.id))
  }

  function HandleUnder(w: World, l: Line, nested: bool, agent: string, m: Message): Line {
    var attempt := DispatchUnder(w, l, nested, agent, m);
    if attempt.raised then Submit(attempt.line, nested, Fail(attempt.line.db, m.id, HANDLER_ERROR)).line else attempt.line
  }

  function PumpUnder(w: World, l: Line, nested: bool, agent: string, snapshot: seq<Message>): Line
    decreases |snapshot|
  {
    if snapshot == [] then l
    else PumpUnder(w, HandleUnder(w, l, nested, agent, snapshot[0]), nested, agent, snapshot[1..])
  }

  // ---- Without faults ----------------------------------------------------------------------

  predicate Clear(l: Line) {
    true !in l.writes && true !in l.exits
  }

  lemma SubmitClear(l: Line, nested: bool, spec: Result<Db>)
    requires Clear(l)
    ensures var t := Submit(l, nested, spec);
            Clear(t.line) && t.raised == spec.Err? && t.line.db == if spec.Ok? then spec.value else l.db
  {}

  lemma HandleClear(w: World, l: Line, nested: bool, agent: string, m: Message)
    requires Clear(l)
    ensures Clear(HandleUnder(w, l, nested, agent, m)) && HandleUnder(w, l, nested, agent, m).db == HandleOne(w, l.db, agent, m)
  {
    hide Submit, Clear, Ack, Fail, DeadLetter, Bus.Reply, Answer, Handles;
    forall x: Line, spec | Clear(x)
      ensures var t := Submit(x, nested, spec);
              Clear(t.line) && t.raised == spec.Err? && t.line.db == if spec.Ok? then spec.value else x.db
    {
      SubmitClear(x, nested, spec);
    }
  }

  /** With no fault ahead it is the plain pump. */
  lemma {:induction false} ClearPump(w: World, l: Line, nested: bool, agent: string, snapshot: seq<Message>)
    requires Clear(l)
    ensures Clear(PumpUnder(w, l, nested, agent, snapshot))
    ensures PumpUnder(w, l, nested, agent, snapshot).db == Pump(w, l.db, agent, snapshot)
    decreases |snapshot|
  {
    hide HandleUnder, HandleOne, Clear;
    if snapshot != [] {
      HandleClear(w, l, nested, agent, snapshot[0]);
      ClearPump(w, HandleUnder(w, l, nested, agent, snapshot[0]), nested, agent, snapshot[1..]);
    }
  }

  // ---- Whatever fails, whole operations happen ---------------------------------------------

  /** Some run of bus operations leads from one store to the other. */
  ghost predicate Evolves(env: Env, before: Db, after: Db) {
    exists ops :: BusRun(env, before, ops) == after
  }

  lemma NothingEvolves(env: Env, db: Db)
    ensures Evolves(env, db, db)
  {
    assert BusRun(env, db, []) == db;
  }

  lemma EvolvesOn(env: Env, a: Db, b: Db, c: Db)
    requires Evolves(env, a, b) && Evolves(env, b, c)
    ensures Evolves(env, a, c)
  {
    var xs :| BusRun(env, a, xs) == b;
    var ys :| BusRun(env, b, ys) == c;
    BusRunConcat(env, a, xs, ys);
  }

  lemma SubmitEvolves(env: Env, l: Line, nested: bool, op: BusOp)
    ensures Evolves(env, l.db, Submit(l, nested, Try(env, l.db, op)).line.db)
  {
    hide Try;
    NothingEvolves(env, l.db);
    assert BusRun(env, l.db, [op]) == BusStep(env, l.db, op);
  }

  lemma ReplyIsSend(w: World, db: Db, agent: string, m: Message, payload: Payload)
    ensures var r := Bus.Reply(w.env.roster, w.env.tie, db, w.now, m, agent, payload, None);
            var letter := ReplyLetter(m, agent, payload, None);
            r.Ok? ==> letter.Ok? && r == Try(w.env, db, SendOp(w.now, letter.value))
  {
    hide LetterOk, ReplyLetter, Apply;
  }

  lemma DispatchEvolves(w: World, l: Line, nested: bool, agent: string, m: Message)
    ensures Evolves(w.env, l.db, DispatchUnder(w, l, nested, agent, m).line.db)
  {
    hide Evolves, Submit, Answer, Handles, Bus.Reply, ReplyLetter;
    var env := w.env;
    NothingEvolves(env, l.db);
    SubmitEvolves(env, l, nested, AckOp(m.id));
    SubmitEvolves(env, l, nested, DeadLetterOp(m.id, UNHANDLED));
    var answer := Answer(w, l.db.rows, m);
    if answer.Ok? && answer.value.Some? {
      var spec := Bus.Reply(env.roster, env.tie, l.db, w.now, m, agent, answer.value.value, None);
      var sent := Submit(l, nested, spec);
      ReplyIsSend(w, l.db, agent, m, answer.value.value);
      if spec.Ok? {
        SubmitEvolves(env, l, nested, SendOp(w.now, ReplyLetter(m, agent, answer.value.value, None).value));
      } else {
        Refused(l, nested, spec);
      }
      SubmitEvolves(env, sent.line, nested, AckOp(m.id));
      EvolvesOn(env, l.db, sent.line.db, Submit(sent.line, nested, Ack(sent.line.db, m.id)).line.db);
    }
  }

  lemma Refused(l: Line, nested: bool, spec: Result<Db>)
    requires spec.Err?
    ensures Submit(l, nested, spec) == Tried(l, true)
  {}

  /** Whatever fails, what the pump did to the mail is a run of whole bus operations. */
  lemma {:induction false} PumpEvolves(w: World, l: Line, nested: bool, agent: string, snapshot: seq<Message>)
    ensures Evolves(w.env, l.db, PumpUnder(w, l, nested, agent, snapshot).db)
    decreases |snapshot|
  {
    hide Evolves, Submit, DispatchUnder;
    NothingEvolves(w.env, l.db);
    if snapshot != [] {
      var m := snapshot[0];
      var attempt := DispatchUnder(w, l, nested, agent, m);
      DispatchEvolves(w, l, nested, agent, m);
      SubmitEvolves(w.env, attempt.line, nested, FailOp(m.id, HANDLER_ERROR));
      EvolvesOn(w.env, l.db, attempt.line.db, Submit(attempt.line, nested, Fail(attempt.line.db, m.id, HANDLER_ERROR)).line.db);
      var next := HandleUnder(w, l, nested, agent, m);
      PumpEvolves(w, next, nested, agent, snapshot[1..]);
      EvolvesOn(w.env, l.db, next.db, PumpUnder(w, l, nested, agent, snapshot).db);
    }
  }

  // ---- One reply per request, under faults -------------------------------------------------

  /** The reply goes out, and then acknowledging the request fails, at its write or at its COMMIT. */
  predicate Slips(w: World, l: Line, agent: string, m: Message) {
    && Answered(w, l.db.rows, agent, m) && !Strikes(l.writes) && !Strikes(l.exits)
    && (Strikes(After(l.writes, 1)) || Strikes(After(l.exits, 1)))
  }

  /** Nothing changed but the status, attempts and error of one delivery. */
  ghost predicate OnlyRow(before: Db, after: Db, id: nat) {
    && MailSound(after) && after == before.(messages := after.messages)
    && Get(before.messages, id).Some? && Get(after.messages, id).Some?
    && Get(after.messages, id).value.replyTo == Get(before.messages, id).value.replyTo
    && (forall k: nat :: k != id ==> Get(after.messages, k) == Get(before.messages, k))
  }

  predicate OnOneRow(op: BusOp) {
    op.AckOp? || op.FailOp? || op.DeadLetterOp?
  }

  lemma SubmitRow(env: Env, l: Line, op: BusOp)
    requires OnOneRow(op) && MailSound(l.db) && Get(l.db.messages, op.id).Some?
    ensures var after := Submit(l, false, Try(env, l.db, op)).line.db;
            && OnlyRow(l.db, after, op.id)
            && Get(after.messages, op.id)
               in {Get(l.db.messages, op.id), Some(NewRow(Get(l.db.messages, op.id).value, op))}
  {
    hide MailSound, Get, Try, Apply;
    if Try(env, l.db, op).Ok? {
      RowChanges(env, l.db, op);
    }
  }

  lemma OnlyRowTwice(a: Db, b: Db, c: Db, id: nat)
    requires OnlyRow(a, b, id) && OnlyRow(b, c, id)
    ensures OnlyRow(a, c, id)
  {}

  /** A delivery that is not answered, or whose reply fails. */
  lemma UnansweredRow(w: World, l: Line, agent: string, m: Message)
    requires MailSound(l.db) && Get(l.db.messages, m.id) == Some(m) && m.status.Queued?
    requires m.recipient == agent && agent in w.env.roster
    requires !Answered(w, l.db.rows, agent, m) || Strikes(l.writes) || Strikes(l.exits)
    ensures OnlyRow(l.db, HandleUnder(w, l, false, agent, m).db, m.id)
  {
    hide MailSound, Get, Answer, Handles, LetterOk, ReplyLetter, OnlyRow, Ack, Fail, DeadLetter, Submit;
    var attempt := DispatchUnder(w, l, false, agent, m);
    NoChange(l.db, m.id);
    SubmitRow(w.env, l, AckOp(m.id));
    SubmitRow(w.env, l, DeadLetterOp(m.id, UNHANDLED));
    UnansweredDispatch(w, l, agent, m);
    RowThere(l.db, attempt.line.db, m.id);
    SubmitRow(w.env, attempt.line, FailOp(m.id, HANDLER_ERROR));
    OnlyRowTwice(l.db, attempt.line.db, Submit(attempt.line, false, Fail(attempt.line.db, m.id, HANDLER_ERROR)).line.db, m.id);
  }

  lemma NoChange(db: Db, id: nat)
    requires MailSound(db) && Get(db.messages, id).Some?
    ensures OnlyRow(db, db, id)
  {}

  lemma RowThere(before: Db, after: Db, id: nat)
    requires OnlyRow(before, after, id)
    ensures MailSound(after) && Get(after.messages, id).Some?
  {}

  lemma UnansweredDispatch(w: World, l: Line, agent: string, m: Message)
    requires m.recipient == agent && agent in w.env.roster
    requires !Answered(w, l.db.rows, agent, m) || Strikes(l.writes) || Strikes(l.exits)
    ensures DispatchUnder(w, l, false, agent, m).line.db
            in {l.db, Submit(l, false, Ack(l.db, m.id)).line.db, Submit(l, false, DeadLetter(l.db, m.id, UNHANDLED)).line.db}
  {
    hide Answer, LetterOk, ReplyLetter, Ack, DeadLetter, Deduped, Apply;
    var answer := Answer(w, l.db.rows, m);
    if Handles(agent, m.kind) && m.replyTo.None? && answer.Ok? && answer.value.Some? {
      HandledReplies(w, l.db, agent, m, answer.value.value);
    }
  }

  /** The end of a handling: acknowledge the request, and fail it when that raises. */
  function Conclude(l: Line, id: nat): Line {
    var acked := Submit(l, false, Ack(l.db, id));
    if acked.raised then Submit(acked.line, false, Fail(acked.line.db, id, HANDLER_ERROR)).line else acked.line
  }

  lemma ConcludeRow(env: Env, l: Line, m: Message)
    requires MailSound(l.db) && Get(l.db.messages, m.id) == Some(m) && m.status.Queued?
    ensures var after := Conclude(l, m.id).db;
            && OnlyRow(l.db, after, m.id)
            && if Strikes(l.writes) || Strikes(l.exits)
               then Get(after.messages, m.id) in {Some(m), Some(NewRow(m, FailOp(m.id, HANDLER_ERROR)))}
               else Get(after.messages, m.id) == Some(NewRow(m, AckOp(m.id))) && Ack(l.db, m.id) == Ok(after)
  {
    hide MailSound, Get, Apply, Fail;
    RowChanges(env, l.db, AckOp(m.id));
    var acked := Submit(l, false, Ack(l.db, m.id));
    SubmitRow(env, l, AckOp(m.id));
    SubmitRow(env, acked.line, FailOp(m.id, HANDLER_ERROR));
  }

  /** What a handling whose reply goes out does after it. */
  lemma AnsweredConcludes(w: World, l: Line, agent: string, m: Message)
    requires m.recipient == agent && agent in w.env.roster && MailSound(l.db)
    requires Answered(w, l.db.rows, agent, m) && !Strikes(l.writes) && !Strikes(l.exits)
    ensures var spec := Bus.Reply(w.env.roster, w.env.tie, l.db, w.now, m, agent, Answer(w, l.db.rows, m).value.value, None);
            && spec.Ok?
            && HandleUnder(w, l, false, agent, m) == Conclude(Line(spec.value, After(l.writes, 1), After(l.exits, 1)), m.id)
  {
    hide MailSound, Get, Answer, Bus.Reply, ReplyRow, Ack, Fail, Handles;
    ReplyEffect(w, l.db, agent, m);
  }

  /** The reply is in, whatever becomes of the request. */
  lemma AnsweredRow(w: World, l: Line, agent: string, m: Message)
    requires MailSound(l.db) && Get(l.db.messages, m.id) == Some(m) && m.status.Queued?
    requires m.recipient == agent && agent in w.env.roster
    requires Answered(w, l.db.rows, agent, m) && !Strikes(l.writes) && !Strikes(l.exits)
    ensures var after, id := HandleUnder(w, l, false, agent, m).db, l.db.issued;
            && MailSound(after) && after == l.db.(messages := after.messages, issued := id + 1)
            && Get(after.messages, id) == Some(ReplyRow(w, l.db.rows, agent, m, id))
            && (forall k: nat :: k < id && k != m.id ==> Get(after.messages, k) == Get(l.db.messages, k))
            && Get(after.messages, m.id)
               in (if Slips(w, l, agent, m) then {Some(m), Some(NewRow(m, FailOp(m.id, HANDLER_ERROR)))}
                   else {Some(NewRow(m, AckOp(m.id)))})
            && (!Slips(w, l, agent, m) ==> after == HandleOne(w, l.db, agent, m))
  {
    hide MailSound, Get, Answer, Handles, Bus.Reply, ReplyRow, HandleUnder, HandleOne, Conclude, Strikes, After, NewRow, Ack;
    IdIssued(l.db, m.id);
    ReplyEffect(w, l.db, agent, m);
    AnsweredConcludes(w, l, agent, m);
    var spec := Bus.Reply(w.env.roster, w.env.tie, l.db, w.now, m, agent, Answer(w, l.db.rows, m).value.value, None);
    ConcludeRow(w.env, Line(spec.value, After(l.writes, 1), After(l.exits, 1)), m);
    AnsweredPlainly(w, l.db, agent, m);
  }

  lemma AnsweredPlainly(w: World, db: Db, agent: string, m: Message)
    requires Answered(w, db.rows, agent, m)
    ensures var spec := Bus.Reply(w.env.roster, w.env.tie, db, w.now, m, agent, Answer(w, db.rows, m).value.value, None);
            spec.Ok? && Ack(spec.value, m.id).Ok? ==> Ack(spec.value, m.id) == Ok(HandleOne(w, db, agent, m))
  {
    hide Answer, Bus.Reply, Ack, Handles;
  }

  /** Handling one delivery under faults leaves every other row as it was. */
  lemma HandleUnderEffect(w: World, l: Line, agent: string, m: Message)
    requires MailSound(l.db) && Get(l.db.messages, m.id) == Some(m) && m.status.Queued?
    requires m.recipient == agent && agent in w.env.roster
    ensures var after := HandleUnder(w, l, false, agent, m).db;
            && MailSound(after) && l.db.issued <= after.issued
            && (forall k: nat :: k < l.db.issued && k != m.id ==> Get(after.messages, k) == Get(l.db.messages, k))
  {
    hide MailSound, Get, Answered, HandleUnder;
    if Answered(w, l.db.rows, agent, m) && !Strikes(l.writes) && !Strikes(l.exits) {
      AnsweredRow(w, l, agent, m);
    } else {
      UnansweredRow(w, l, agent, m);
    }
  }

  /** Handling one delivery keeps one reply per request if and only if it does not slip. */
  lemma HandleKeepsOneReplyExactly(w: World, l: Line, agent: string, m: Message)
    requires MailSound(l.db) && OneReply(l.db) && Get(l.db.messages, m.id) == Some(m) && m.status.Queued?
    requires m.recipient == agent && agent in w.env.roster
    ensures OneReply(HandleUnder(w, l, false, agent, m).db) <==> !Slips(w, l, agent, m)
  {
    hide MailSound, Get, Answered, HandleUnder, HandleOne;
    var after := HandleUnder(w, l, false, agent, m).db;
    if Answered(w, l.db.rows, agent, m) && !Strikes(l.writes) && !Strikes(l.exits) {
      AnsweredRow(w, l, agent, m);
      if Slips(w, l, agent, m) {
        assert RepliesTo(after.messages, l.db.issued, m.id);
        assert !Closed(after.messages, m.id);
      } else {
        HandleOneKeepsOneReply(w, l.db, agent, m);
      }
    } else {
      UnansweredRow(w, l, agent, m);
      RowKeepsOneReply(l.db, after, m);
    }
  }

  lemma RowKeepsOneReply(before: Db, after: Db, m: Message)
    requires OneReply(before) && Get(before.messages, m.id) == Some(m) && m.status.Queued?
    requires OnlyRow(before, after, m.id)
    ensures OneReply(after)
  {
    hide MailSound, Get;
    forall id: nat, q: nat | RepliesTo(after.messages, id, q) ensures RepliesTo(before.messages, id, q) && q != m.id {
      assert id != m.id ==> Get(after.messages, id) == Get(before.messages, id);
      assert !Closed(before.messages, m.id);
    }
  }

  // ---- A whole pump under faults -----------------------------------------------------------

  predicate NoneSlips(w: World, l: Line, agent: string, snapshot: seq<Message>)
    decreases |snapshot|
  {
    snapshot == []
    || (!Slips(w, l, agent, snapshot[0]) && NoneSlips(w, HandleUnder(w, l, false, agent, snapshot[0]), agent, snapshot[1..]))
  }

  lemma StillTaken(w: World, l: Line, agent: string, snapshot: seq<Message>)
    requires MailSound(l.db) && Taken(l.db, agent, snapshot) && snapshot != [] && agent in w.env.roster
    ensures var next := HandleUnder(w, l, false, agent, snapshot[0]).db;
            MailSound(next) && l.db.issued <= next.issued && Taken(next, agent, snapshot[1..])
  {
    hide MailSound, Get, HandleUnder;
    HandleUnderEffect(w, l, agent, snapshot[0]);
    forall i | 0 <= i < |snapshot| ensures snapshot[i].id < l.db.issued {
      IdIssued(l.db, snapshot[i].id);
    }
  }

  /** A reply to a request that is not closed outlives the rest of the pump. */
  lemma {:induction false} SlipStays(w: World, l: Line, agent: string, snapshot: seq<Message>, a: nat, q: nat)
    requires MailSound(l.db) && Taken(l.db, agent, snapshot) && agent in w.env.roster
    requires RepliesTo(l.db.messages, a, q) && !Closed(l.db.messages, q)
    requires !InSnapshot(snapshot, a) && !InSnapshot(snapshot, q)
    ensures !OneReply(PumpUnder(w, l, false, agent, snapshot).db)
    decreases |snapshot|
  {
    hide MailSound, Get, HandleUnder, Taken;
    if snapshot != [] {
      var rest, next := snapshot[1..], HandleUnder(w, l, false, agent, snapshot[0]);
      TakenHead(l.db, agent, snapshot);
      HandleUnderEffect(w, l, agent, snapshot[0]);
      StillTaken(w, l, agent, snapshot);
      IdIssued(l.db, a);
      IdIssued(l.db, q);
      assert snapshot[0].id != a && snapshot[0].id != q;
      assert forall i :: 0 <= i < |rest| ==> rest[i] == snapshot[i + 1];
      SlipStays(w, next, agent, rest, a, q);
    }
  }

  lemma TakenHead(db: Db, agent: string, snapshot: seq<Message>)
    requires Taken(db, agent, snapshot) && snapshot != []
    ensures var m := snapshot[0]; Get(db.messages, m.id) == Some(m) && m.status.Queued? && m.recipient == agent
  {}

  /**
   A pump under any faults keeps at most one reply per request, each request with a reply done or pruned, if and
   only if it acknowledges every request it replied to.
   */
  lemma {:induction false} PumpKeepsOneReplyExactly(w: World, l: Line, agent: string, snapshot: seq<Message>)
    requires MailSound(l.db) && OneReply(l.db) && Taken(l.db, agent, snapshot) && agent in w.env.roster
    ensures OneReply(PumpUnder(w, l, false, agent, snapshot).db) <==> NoneSlips(w, l, agent, snapshot)
    decreases |snapshot|
  {
    hide MailSound, Get, OneReply, HandleUnder, Taken, Answered, RepliesTo, Closed;
    if snapshot != [] {
      var m, rest, next := snapshot[0], snapshot[1..], HandleUnder(w, l, false, agent, snapshot[0]);
      TakenHead(l.db, agent, snapshot);
      HandleKeepsOneReplyExactly(w, l, agent, m);
      StillTaken(w, l, agent, snapshot);
      if Slips(w, l, agent, m) {
        SlipLeaves(w, l, agent, m);
        NotAmong(l.db, agent, snapshot);
        SlipStays(w, next, agent, rest, l.db.issued, m.id);
      } else {
        PumpKeepsOneReplyExactly(w, next, agent, rest);
      }
    }
  }

  lemma SlipLeaves(w: World, l: Line, agent: string, m: Message)
    requires MailSound(l.db) && Get(l.db.messages, m.id) == Some(m) && m.status.Queued?
    requires m.recipient == agent && agent in w.env.roster && Slips(w, l, agent, m)
    ensures var after := HandleUnder(w, l, false, agent, m).db.messages;
            RepliesTo(after, l.db.issued, m.id) && !Closed(after, m.id)
  {
    hide MailSound, Get, Answered, HandleUnder;
    AnsweredRow(w, l, agent, m);
  }

  lemma NotAmong(db: Db, agent: string, snapshot: seq<Message>)
    requires MailSound(db) && Taken(db, agent, snapshot) && snapshot != []
    ensures !InSnapshot(snapshot[1..], snapshot[0].id) && !InSnapshot(snapshot[1..], db.issued)
  {
    hide MailSound, Get;
    forall i | 0 <= i < |snapshot| ensures snapshot[i].id < db.issued {
      IdIssued(db, snapshot[i].id);
    }
    assert forall i :: 0 <= i < |snapshot[1..]| ==> snapshot[1..][i] == snapshot[i + 1];
  }

  /** A request that slipped with an attempt left is answered a second time the next time it is handled. */
  lemma SlipRepliesTwice(w: World, l: Line, agent: string, m: Message)
    requires MailSound(l.db) && Get(l.db.messages, m.id) == Some(m) && m.status.Queued?
    requires m.recipient == agent && agent in w.env.roster && Slips(w, l, agent, m) && m.attempts + 1 < m.maxAttempts
    ensures var slipped := HandleUnder(w, l, false, agent, m).db; var again := Get(slipped.messages, m.id);
            && again.Some? && again.value.status.Queued?
            && var after := HandleOne(w, slipped, agent, again.value).messages;
               RepliesTo(after, l.db.issued, m.id) && RepliesTo(after, l.db.issued + 1, m.id)
  {
    hide MailSound, Get, HandleUnder, HandleOne;
    AnsweredRow(w, l, agent, m);
    IdIssued(l.db, m.id);
    var slipped := HandleUnder(w, l, false, agent, m).db;
    var again := Get(slipped.messages, m.id).value;
    AttemptsDoNotMatter(w, l.db.rows, agent, m, again);
    HandleOneEffect(w, slipped, agent, again);
  }

  lemma AttemptsDoNotMatter(w: World, rows: seq<Tables.Row>, agent: string, m: Message, again: Message)
    requires again in {m, NewRow(m, FailOp(m.id, HANDLER_ERROR))}
    ensures Answered(w, rows, agent, again) <==> Answered(w, rows, agent, m)
  {}

  /** It happens: the treasurer's answer to a ping is stored, the write that acknowledges the ping fails. */
  lemma FailedAckRepliesTwice(w: World, db: Db, ping: Message)
    requires {"operator", "treasurer"} <= w.env.roster && db.messages == [ping] && db.issued == 1
    requires ping == Message(0, 0, 0, 0, 0, "operator", "treasurer", "ping", map[], Queued, true, None, None, 0, 3, None)
    ensures MailSound(db) && OneReply(db)
    ensures var slipped := HandleUnder(w, Line(db, [false, true], []), false, "treasurer", ping).db;
            var again := Get(slipped.messages, 0);
            && again.Some?
            && var after := HandleOne(w, slipped, "treasurer", again.value).messages;
               RepliesTo(after, 1, 0) && RepliesTo(after, 2, 0)
  {
    hide HandleUnder, HandleOne;
    var l := Line(db, [false, true], []);
    assert db.messages[1..] == [];
    forall id: nat ensures Get(db.messages, id) == if id == 0 then Some(ping) else None {
      assert Get(db.messages[1..], id) == None;
    }
    assert Answered(w, db.rows, "treasurer", ping);
    assert After(l.writes, 1) == [true];
    SlipRepliesTwice(w, l, "treasurer", ping);
  }
}
