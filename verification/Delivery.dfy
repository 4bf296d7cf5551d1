/**
 The message bus on the transactional store: every operation is one transaction that either does what its
 specification in Bus says or raises and leaves the store as it found it; and the inbox pump on top.
 */
module Delivery {
  import opened Tables
  import opened Bus
  import opened Lifecycle
  import opened Inbox
  import opened Persistence
  import opened InboxFaults

  class MessageBus {
    const store: Store
    const env: Env

    constructor (store: Store, env: Env)
      ensures this.store == store && this.env == env
    {
      this.store := store;
      this.env := env;
    }

    /** No ledger row changed unnoticed. */
    twostate predicate LedgerKept()
      reads store
    {
      && store.working.rows == old(store.working.rows)
      && old(store.ledgerRevision) <= store.ledgerRevision && store.dataVersion == old(store.dataVersion)
    }

    /**
     One transaction around one statement carries the operation: it raises as specified, or takes effect unless
     the database fails. A failing COMMIT undoes it; a failing RELEASE leaves it to the enclosing transaction.
     */
    twostate predicate OneWrite(new r: Result<()>, new spec: Result<Db>)
      reads store
    {
      if spec.Err? then
        r == Err(spec.error) && store.working == old(store.working)
        && store.writeFaults == old(store.writeFaults) && store.exitFaults == old(store.exitFaults)
      else if Strikes(old(store.writeFaults)) then
        r == Err(StoreError) && store.working == old(store.working)
        && store.writeFaults == After(old(store.writeFaults), 1) && store.exitFaults == old(store.exitFaults)
      else
        && r == (if Strikes(old(store.exitFaults)) then Err(StoreError) else Ok(()))
        && store.working == (if r.Err? && store.depth == 0 then old(store.working) else spec.value)
        && store.writeFaults == After(old(store.writeFaults), 1) && store.exitFaults == After(old(store.exitFaults), 1)
    }

    method Put(w: Write) returns (r: Result<()>)
      requires store.Valid() && store.depth > 0 && !w.PostRow?
      modifies store`working, store`committed, store`ledgerRevision, store`writeFaults, store`hits
      ensures store.Valid() && store.Restored() && LedgerKept() && store.savepoints == old(store.savepoints)
      ensures if Strikes(old(store.writeFaults)) then r == Err(StoreError) && store.working == old(store.working)
              else r == Ok(()) && store.working == Apply(w, old(store.working))
      ensures store.writeFaults == After(old(store.writeFaults), 1) && store.Hit(r.Err?)
      ensures store.ledgerRevision == old(store.ledgerRevision)
    {
      hide Apply, Numbered;
      var ok := store.Execute(w);
      r := if ok then Ok(()) else Err(StoreError);
    }

    /** `send`. */
    method Send(now: int, l: Letter) returns (r: Result<()>)
      requires store.Valid()
      modifies store
      ensures store.Valid() && store.Restored() && LedgerKept()
      ensures OneWrite(r, Bus.Send(env.roster, env.tie, old(store.working), now, l))
    {
      hide Apply, LetterOk, Numbered, Deliveries, Deduped;
      if !LetterOk(env.roster, now, l) {
        return Err(ValueError);
      }
      LetterLimits(env, now, l);
      ghost var k := if store.depth == 0 then 0 else |store.savepoints|;
      InsertKeepsLedger(store.working, Deliveries(l, Deduped(l.recipients), now, store.working.issued, env.tie));
      var frame := store.Enter();
      r := Put(InsertMessages(Deliveries(l, Deduped(l.recipients), now, store.working.issued, env.tie)));
      r := store.Leave(frame, k, r);
    }

    /** `reply`. */
    method Reply(now: int, original: Message, sender: string, payload: Payload, kind: Option<string>)
      returns (r: Result<()>)
      requires store.Valid()
      modifies store
      ensures store.Valid() && store.Restored() && LedgerKept()
      ensures OneWrite(r, Bus.Reply(env.roster, env.tie, old(store.working), now, original, sender, payload, kind))
    {
      hide Bus.Send, ReplyLetter, Numbered;
      var letter := ReplyLetter(original, sender, payload, kind);
      if letter.Err? {
        return Err(letter.error);
      }
      r := Send(now, letter.value);
    }

    /** Fetch a row in a transaction, check its status, and write it back; the shape all four transitions share. */
    method Transition(op: BusOp) returns (r: Result<()>)
      requires store.Valid()
      requires op.AckOp? || op.FailOp? || op.DeadLetterOp? || op.RequeueOp?
      modifies store
      ensures store.Valid() && store.Restored() && LedgerKept() && OneWrite(r, Try(env, old(store.working), op))
    {
      hide Apply, Numbered, Try;
      ghost var k := if store.depth == 0 then 0 else |store.savepoints|;
      var frame := store.Enter();
      r := TransitionBody(op);
      r := store.Leave(frame, k, r);
    }

    method TransitionBody(op: BusOp) returns (r: Result<()>)
      requires store.Valid() && store.depth > 0
      requires op.AckOp? || op.FailOp? || op.DeadLetterOp? || op.RequeueOp?
      modifies store`working, store`committed, store`ledgerRevision, store`writeFaults, store`hits
      ensures store.Valid() && store.Restored() && LedgerKept() && store.savepoints == old(store.savepoints)
      ensures store.ledgerRevision == old(store.ledgerRevision)
      ensures var spec := Try(env, old(store.working), op);
              if spec.Err? then
                r == Err(spec.error) && store.working == old(store.working) && store.writeFaults == old(store.writeFaults)
              else
                && (if Strikes(old(store.writeFaults)) then r == Err(StoreError) && store.working == old(store.working)
                    else r == Ok(()) && store.working == spec.value)
                && store.writeFaults == After(old(store.writeFaults), 1)
    {
      hide Apply, Numbered;
      var found := Get(store.working.messages, op.id);
      if found.None? {
        return Err(KeyError);
      }
      if op.RequeueOp? && !(found.value.status.Dead? || found.value.status.Expired?) {
        return Err(ValueError);
      }
      if !op.RequeueOp? && !found.value.status.Queued? {
        return Err(ValueError);
      }
      var m := NewRow(found.value, op);
      UpdateKeepsLedger(store.working, m);
      r := Put(UpdateMessage(m.id, m.status, m.attempts, m.error));
    }

    method Ack(id: nat) returns (r: Result<()>)
      requires store.Valid()
      modifies store
      ensures store.Valid() && store.Restored() && LedgerKept() && OneWrite(r, Bus.Ack(old(store.working), id))
    {
      r := Transition(AckOp(id));
    }

    method Fail(id: nat, error: string) returns (r: Result<()>)
      requires store.Valid()
      modifies store
      ensures store.Valid() && store.Restored() && LedgerKept() && OneWrite(r, Bus.Fail(old(store.working), id, error))
    {
      r := Transition(FailOp(id, error));
    }

    method DeadLetter(id: nat, reason: string) returns (r: Result<()>)
      requires store.Valid()
      modifies store
      ensures store.Valid() && store.Restored() && LedgerKept() && OneWrite(r, Bus.DeadLetter(old(store.working), id, reason))
    {
      r := Transition(DeadLetterOp(id, reason));
    }

    method Requeue(id: nat) returns (r: Result<()>)
      requires store.Valid()
      modifies store
      ensures store.Valid() && store.Restored() && LedgerKept() && OneWrite(r, Bus.Requeue(old(store.working), id))
    {
      r := Transition(RequeueOp(id));
    }

    /** `prune`. */
    method Prune(now: int, age: int, statuses: set<MessageStatus>) returns (r: Result<()>)
      requires store.Valid()
      modifies store
      ensures store.Valid() && store.Restored() && LedgerKept() && OneWrite(r, Bus.Prune(old(store.working), now, age, statuses))
    {
      hide Apply, Numbered;
      if statuses == {} || Queued in statuses || age < 0 {
        return Err(ValueError);
      }
      ghost var k := if store.depth == 0 then 0 else |store.savepoints|;
      DeleteKeepsLedger(store.working, statuses, now - age);
      var frame := store.Enter();
      r := Put(DeleteMessages(statuses, now - age));
      r := store.Leave(frame, k, r);
    }

    /** `expire_due`: one update per overdue queued row, all of them or none. */
    method ExpireDue(now: int) returns (r: Result<()>)
      requires store.Valid() && Distinct(store.working.messages)
      modifies store
      ensures store.Valid() && store.Restored() && LedgerKept()
      ensures r.Ok? ==> store.working == Bus.ExpireDue(old(store.working), now)
      ensures r.Err? ==>
                && r.error == StoreError && old(store.MayFail())
                && store.NothingOrLeak(Some(Bus.ExpireDue(old(store.working), now)))
      ensures store.Hit(r.Err?)
    {
      hide Apply, Numbered, Distinct;
      ghost var k := if store.depth == 0 then 0 else |store.savepoints|;
      var frame := store.Enter();
      r := ExpireRowsOneByOne(now);
      r := store.Leave(frame, k, r);
    }

    method ExpireRowsOneByOne(now: int) returns (r: Result<()>)
      requires store.Valid() && store.depth > 0 && Distinct(store.working.messages)
      modifies store`working, store`committed, store`ledgerRevision, store`writeFaults, store`hits
      ensures store.Valid() && store.Restored() && LedgerKept() && store.ledgerRevision == old(store.ledgerRevision)
      ensures r.Ok? ==> store.working == Bus.ExpireDue(old(store.working), now)
      ensures (r.Err? ==> r.error == StoreError && true in old(store.writeFaults)) && store.Hit(r.Err?)
    {
      hide Apply, Numbered, Distinct, Expire;
      var rows := store.working.messages;
      r := Ok(());
      var i := 0;
      assert rows == ExpireRows(rows[..0], now) + rows[0..];
      while i < |rows|
        invariant 0 <= i <= |rows| && r.Ok?
        invariant store.Valid() && store.Restored() && LedgerKept() && store.ledgerRevision == old(store.ledgerRevision)
        invariant store.working == old(store.working).(messages := ExpireRows(rows[..i], now) + rows[i..])
        invariant (true in store.writeFaults ==> true in old(store.writeFaults)) && store.Hit(false)
      {
        ExpireNext(store.working, old(store.working), rows, i, now);
        if rows[i].status.Queued? && PastDeadline(rows[i], now) {
          r := Put(UpdateMessage(rows[i].id, Expired, rows[i].attempts, rows[i].error));
          if r.Err? {
            return;
          }
        }
        i := i + 1;
      }
      assert ExpireRows(rows[..|rows|], now) + rows[|rows|..] == ExpireRows(rows, now) by {
        assert rows[..|rows|] == rows;
      }
      assert Bus.ExpireDue(old(store.working), now).messages == ExpireRows(rows, now);
    }

    // ---- The pump --------------------------------------------------------------------------

    /** The store as the pump's specification sees it. */
    ghost function State(): Line
      reads store
    {
      Line(store.working, store.writeFaults, store.exitFaults)
    }

    /**
     `process_inbox`. It does exactly what its specification says under whatever faults are ahead, goes on after
     each, and raises only for an agent the bus does not know. So on a database that does not fail it is the plain
     pump, and otherwise what it leaves is the effect of whole bus operations.
     */
    method ProcessInbox(w: World, agent: string, limit: int) returns (r: Result<()>)
      requires store.Valid() && w.env == env
      modifies store
      ensures store.Valid() && store.Restored() && LedgerKept()
      ensures r == if agent in env.roster then Ok(()) else Err(ValueError)
      ensures State() == if r.Err? then old(State())
                         else PumpUnder(w, old(State()), old(store.depth) > 0, agent,
                                        Bus.Inbox(old(store.working.messages), agent, w.now, limit))
      ensures Evolves(env, old(store.working), store.working)
      ensures !old(store.MayFail()) ==>
                var spec := Inbox.ProcessInbox(w, old(store.working), agent, limit);
                store.working == if spec.Ok? then spec.value else old(store.working)
    {
      hide Bus.Inbox, Numbered, HandleUnder, Evolves;
      NothingEvolves(env, store.working);
      if agent !in env.roster {
        return Err(ValueError);
      }
      var snapshot := Bus.Inbox(store.working.messages, agent, w.now, limit);
      var i := 0;
      assert snapshot[0..] == snapshot;
      while i < |snapshot|
        invariant 0 <= i <= |snapshot|
        invariant store.Valid() && store.Restored() && LedgerKept()
        invariant PumpUnder(w, State(), store.depth > 0, agent, snapshot[i..])
                  == PumpUnder(w, old(State()), store.depth > 0, agent, snapshot)
      {
        assert snapshot[i..][1..] == snapshot[i + 1..];
        HandleOne(w, agent, snapshot[i]);
        i := i + 1;
      }
      PumpEvolves(w, old(State()), store.depth > 0, agent, snapshot);
      if !old(store.MayFail()) {
        ClearPump(w, old(State()), store.depth > 0, agent, snapshot);
      }
      r := Ok(());
    }

    /** One message: handle it, and when that raises, fail the delivery. */
    method HandleOne(w: World, agent: string, m: Message)
      requires store.Valid() && w.env == env
      modifies store
      ensures store.Valid() && store.Restored() && LedgerKept()
      ensures State() == HandleUnder(w, old(State()), old(store.depth) > 0, agent, m)
    {
      hide Numbered, Bus.Fail, DispatchUnder;
      var handled := Dispatch(w, agent, m);
      if handled.Err? {
        var _ := Fail(m.id, HANDLER_ERROR);
      }
    }

    method Dispatch(w: World, agent: string, m: Message) returns (r: Result<()>)
      requires store.Valid() && w.env == env
      modifies store
      ensures store.Valid() && store.Restored() && LedgerKept()
      ensures Tried(State(), r.Err?) == DispatchUnder(w, old(State()), old(store.depth) > 0, agent, m)
    {
      hide Numbered, Bus.Ack, Bus.Fail, Bus.DeadLetter, Bus.Reply, Bus.Send, ReplyLetter, Answer, Handles;
      if m.replyTo.Some? {
        r := Ack(m.id);
        return;
      }
      if !Handles(agent, m.kind) {
        r := DeadLetter(m.id, UNHANDLED);
        return;
      }
      var answer := Answer(w, store.working.rows, m);
      if answer.Err? {
        return Err(answer.error);
      }
      if m.expectsReply && answer.value.Some? {
        var _ :- Reply(w.now, m, agent, answer.value.value, None);
      }
      r := Ack(m.id);
    }
  }

  lemma InsertKeepsLedger(db: Db, ms: seq<Message>)
    ensures Apply(InsertMessages(ms), db).rows == db.rows
  {}

  lemma UpdateKeepsLedger(db: Db, m: Message)
    ensures Apply(UpdateMessage(m.id, m.status, m.attempts, m.error), db).rows == db.rows
  {}

  lemma DeleteKeepsLedger(db: Db, statuses: set<MessageStatus>, cutoff: int)
    ensures Apply(DeleteMessages(statuses, cutoff), db).rows == db.rows
  {}

  /** Updating one row by id extends the swept part of the table by that row. */
  lemma ExpireNext(db: Db, start: Db, rows: seq<Message>, i: nat, now: int)
    requires i < |rows| && Distinct(rows)
    requires db == start.(messages := ExpireRows(rows[..i], now) + rows[i..])
    ensures var m := rows[i];
            var next := start.(messages := ExpireRows(rows[..i + 1], now) + rows[i + 1..]);
            if m.status.Queued? && PastDeadline(m, now)
            then Apply(UpdateMessage(m.id, Expired, m.attempts, m.error), db) == next
            else db == next
  {
    var m := rows[i];
    var after := ExpireRows(rows[..i + 1], now) + rows[i + 1..];
    if m.status.Queued? && PastDeadline(m, now) {
      var written := Rewrite(db.messages, m.id, Expired, m.attempts, m.error);
      forall j | 0 <= j < |rows| ensures written[j] == after[j] {
        assert rows[j].id == m.id <==> j == i;
      }
      assert written == after;
    } else {
      assert db.messages == after;
    }
  }
}
