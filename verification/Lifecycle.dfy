/**
 Every run of bus operations: which moves a delivery can make, and where every delivery ever sent has gone.
 */
module Lifecycle {
  import opened Tables
  import opened Bus

  // ---- What each statement does to the row of one id ---------------------------------------

  function Rewritten(m: Message, id: nat, status: MessageStatus, attempts: nat, error: Option<string>): Message {
    if m.id == id then m.(status := status, attempts := attempts, error := error) else m
  }

  lemma {:induction false} GetRewrite(rows: seq<Message>, id: nat, status: MessageStatus, attempts: nat,
                                      error: Option<string>, other: nat)
    ensures Get(Rewrite(rows, id, status, attempts, error), other)
            == var m := Get(rows, other);
               if m.None? then None else Some(Rewritten(m.value, id, status, attempts, error))
  {
    if rows != [] {
      var after := Rewrite(rows, id, status, attempts, error);
      assert after[1..] == Rewrite(rows[1..], id, status, attempts, error);
      GetRewrite(rows[1..], id, status, attempts, error, other);
    }
  }

  lemma {:induction false} GetExpire(rows: seq<Message>, now: int, id: nat)
    ensures Get(ExpireRows(rows, now), id)
            == var m := Get(rows, id); if m.None? then None else Some(Expire(m.value, now))
  {
    if rows != [] {
      assert ExpireRows(rows, now)[1..] == ExpireRows(rows[1..], now);
      GetExpire(rows[1..], now, id);
    }
  }

  /** Insertion puts the row at one place, after everything it does not precede. */
  lemma {:induction false} InsertSplits(rows: seq<Message>, m: Message) returns (k: nat)
    ensures k <= |rows| && Insert(rows, m) == rows[..k] + [m] + rows[k..]
    ensures forall i :: 0 <= i < k ==> !Before(m, rows[i])
    ensures k < |rows| ==> Before(m, rows[k])
  {
    if rows == [] || Before(m, rows[0]) {
      k := 0;
    } else {
      var k' := InsertSplits(rows[1..], m);
      k := k' + 1;
      assert rows == [rows[0]] + rows[1..];
      assert rows[..k] == [rows[0]] + rows[1..][..k'];
      assert rows[k..] == rows[1..][k'..];
    }
  }

  lemma {:induction false} GetInsert(rows: seq<Message>, m: Message, id: nat)
    requires Get(rows, m.id).None?
    ensures Get(Insert(rows, m), id) == if id == m.id then Some(m) else Get(rows, id)
  {
    if rows != [] && !Before(m, rows[0]) {
      GetInsert(rows[1..], m, id);
    }
  }

  lemma {:induction false} InsertMembers(rows: seq<Message>, m: Message)
    ensures |Insert(rows, m)| == |rows| + 1
    ensures forall x :: x in Insert(rows, m) <==> x in rows || x == m
  {
    if rows != [] && !Before(m, rows[0]) {
      InsertMembers(rows[1..], m);
      assert forall x :: x in rows <==> x == rows[0] || x in rows[1..];
    }
  }

  predicate Lacks(rows: seq<Message>, id: nat) {
    forall i :: 0 <= i < |rows| ==> rows[i].id != id
  }

  lemma ConsDistinct(m: Message, rows: seq<Message>)
    requires Distinct(rows) && Lacks(rows, m.id)
    ensures Distinct([m] + rows)
  {}

  lemma {:induction false} InsertDistinct(rows: seq<Message>, m: Message)
    requires Distinct(rows) && Lacks(rows, m.id)
    ensures Distinct(Insert(rows, m))
  {
    if rows == [] || Before(m, rows[0]) {
      ConsDistinct(m, rows);
      assert [m] + rows == if rows == [] then [m] else [m] + rows;
    } else {
      InsertDistinct(rows[1..], m);
      InsertMembers(rows[1..], m);
      var rest := Insert(rows[1..], m);
      forall i | 0 <= i < |rest| ensures rest[i].id != rows[0].id {
        assert rest[i] in rest;
      }
      ConsDistinct(rows[0], rest);
    }
  }

  lemma InsertOrdered(rows: seq<Message>, m: Message)
    requires Ordered(rows)
    ensures Ordered(Insert(rows, m))
  {
    hide Insert, Get, Distinct;
    var k := InsertSplits(rows, m);
  }

  predicate Doomed(m: Message, statuses: set<MessageStatus>, cutoff: int) {
    m.status in statuses && m.ts < cutoff
  }

  lemma {:induction false} DeleteMembers(rows: seq<Message>, statuses: set<MessageStatus>, cutoff: int)
    ensures var after := Delete(rows, statuses, cutoff);
            && |after| <= |rows|
            && (forall x :: x in after <==> x in rows && !Doomed(x, statuses, cutoff))
  {
    if rows != [] {
      DeleteMembers(rows[1..], statuses, cutoff);
      assert forall x :: x in rows <==> x == rows[0] || x in rows[1..];
    }
  }

  lemma {:induction false} DeleteKeeps(rows: seq<Message>, statuses: set<MessageStatus>, cutoff: int)
    requires Distinct(rows)
    ensures Distinct(Delete(rows, statuses, cutoff))
    ensures Ordered(rows) ==> Ordered(Delete(rows, statuses, cutoff))
  {
    hide Before;
    if rows != [] {
      DeleteKeeps(rows[1..], statuses, cutoff);
      DeleteMembers(rows[1..], statuses, cutoff);
      var rest := Delete(rows[1..], statuses, cutoff);
      forall i | 0 <= i < |rest| ensures rest[i].id != rows[0].id && (Ordered(rows) ==> !Before(rest[i], rows[0])) {
        assert rest[i] in rows[1..];
        var j :| 0 <= j < |rows[1..]| && rows[1..][j] == rest[i];
        assert rows[j + 1] == rest[i];
      }
      ConsDistinct(rows[0], rest);
    }
  }

  lemma {:induction false} GetAbsent(rows: seq<Message>, id: nat)
    requires forall i :: 0 <= i < |rows| ==> rows[i].id != id
    ensures Get(rows, id) == None
  {
    if rows != [] {
      GetAbsent(rows[1..], id);
    }
  }

  lemma {:induction false} GetDelete(rows: seq<Message>, statuses: set<MessageStatus>, cutoff: int, id: nat)
    requires Distinct(rows)
    ensures Get(Delete(rows, statuses, cutoff), id)
            == var m := Get(rows, id); if m.Some? && Doomed(m.value, statuses, cutoff) then None else m
  {
    if rows != [] {
      GetDelete(rows[1..], statuses, cutoff, id);
      if rows[0].id == id {
        GetAbsent(rows[1..], id);
      }
    }
  }

  // ---- Sending -----------------------------------------------------------------------------

  predicate FreshIds(ms: seq<Message>, issued: nat) {
    forall i :: 0 <= i < |ms| ==> ms[i].id == issued + i
  }

  predicate IdsBelow(rows: seq<Message>, issued: nat) {
    forall i :: 0 <= i < |rows| ==> rows[i].id < issued
  }

  lemma InsertNew(rows: seq<Message>, m: Message)
    requires Distinct(rows) && Ordered(rows) && IdsBelow(rows, m.id)
    ensures Distinct(Insert(rows, m)) && Ordered(Insert(rows, m)) && IdsBelow(Insert(rows, m), m.id + 1)
    ensures forall id: nat :: Get(Insert(rows, m), id) == if id == m.id then Some(m) else Get(rows, id)
  {
    hide Insert, Ordered, Distinct;
    InsertDistinct(rows, m);
    InsertOrdered(rows, m);
    InsertMembers(rows, m);
    GetAbsent(rows, m.id);
    forall j | 0 <= j < |Insert(rows, m)| ensures Insert(rows, m)[j].id < m.id + 1 {
      assert Insert(rows, m)[j] in Insert(rows, m);
    }
    forall id: nat {
      GetInsert(rows, m, id);
    }
  }

  lemma {:induction false} InsertAllMembers(rows: seq<Message>, ms: seq<Message>)
    ensures |InsertAll(rows, ms)| == |rows| + |ms|
    ensures forall x :: x in InsertAll(rows, ms) <==> x in rows || x in ms
    decreases |ms|
  {
    hide Insert;
    if ms != [] {
      InsertMembers(rows, ms[0]);
      InsertAllMembers(Insert(rows, ms[0]), ms[1..]);
      assert forall x :: x in ms <==> x == ms[0] || x in ms[1..];
    }
  }

  /** Inserting a fan-out adds exactly its rows. */
  lemma {:induction false} InsertAllSound(rows: seq<Message>, ms: seq<Message>, issued: nat)
    requires Distinct(rows) && Ordered(rows) && FreshIds(ms, issued) && IdsBelow(rows, issued)
    ensures Distinct(InsertAll(rows, ms)) && Ordered(InsertAll(rows, ms))
    ensures forall id: nat :: Get(InsertAll(rows, ms), id)
              == if issued <= id < issued + |ms| then Some(ms[id - issued]) else Get(rows, id)
    decreases |ms|
  {
    hide Insert, Ordered, Distinct, IdsBelow;
    if ms != [] {
      InsertNew(rows, ms[0]);
      assert FreshIds(ms[1..], issued + 1);
      InsertAllSound(Insert(rows, ms[0]), ms[1..], issued + 1);
      assert forall k :: 0 <= k < |ms[1..]| ==> ms[1..][k] == ms[k + 1];
    }
  }

  // ---- Runs --------------------------------------------------------------------------------

  datatype Env = Env(roster: set<string>, tie: nat -> nat)

  datatype BusOp =
    | SendOp(now: int, letter: Letter)
    | AckOp(id: nat)
    | FailOp(id: nat, error: string)
    | DeadLetterOp(id: nat, reason: string)
    | RequeueOp(id: nat)
    | SweepOp(now: int)
    | PruneOp(now: int, age: int, statuses: set<MessageStatus>)

  function Try(env: Env, db: Db, op: BusOp): Result<Db> {
    match op
    case SendOp(now, letter) => Send(env.roster, env.tie, db, now, letter)
    case AckOp(id) => Ack(db, id)
    case FailOp(id, error) => Fail(db, id, error)
    case DeadLetterOp(id, reason) => DeadLetter(db, id, reason)
    case RequeueOp(id) => Requeue(db, id)
    case SweepOp(now) => Ok(ExpireDue(db, now))
    case PruneOp(now, age, statuses) => Prune(db, now, age, statuses)
  }

  /** An operation that raises changes nothing. */
  function BusStep(env: Env, db: Db, op: BusOp): Db {
    var r := Try(env, db, op);
    if r.Ok? then r.value else db
  }

  function BusRun(env: Env, db: Db, ops: seq<BusOp>): Db
    decreases |ops|
  {
    if ops == [] then db else BusRun(env, BusStep(env, db, ops[0]), ops[1..])
  }

  /** Rows the prunes of a run removed. */
  function Pruned(env: Env, db: Db, ops: seq<BusOp>): int
    decreases |ops|
  {
    if ops == [] then 0
    else
      var next := BusStep(env, db, ops[0]);
      (if ops[0].PruneOp? then |db.messages| - |next.messages| else 0) + Pruned(env, next, ops[1..])
  }

  predicate MailSound(db: Db) {
    TableSound(db.messages, db.issued) && Ordered(db.messages)
  }

  // ---- The moves of one delivery -----------------------------------------------------------

  /** The whole life of a delivery, one step at a time. */
  predicate Allowed(op: BusOp, issued: nat, before: Option<Message>, after: Option<Message>) {
    if before.None? then
      after.Some? ==> op.SendOp? && issued <= after.value.id && after.value.status.Queued? && after.value.attempts == 0
    else if after.None? then
      op.PruneOp? && !before.value.status.Queued? && before.value.status in op.statuses && before.value.ts < op.now - op.age
    else
      var m, m' := before.value, after.value;
      && m' == m.(status := m'.status, attempts := m'.attempts, error := m'.error)
      && match (m.status, m'.status)
         case (Queued, Queued) =>
           m' == m || (op == FailOp(m.id, if m'.error.Some? then m'.error.value else "") && m'.error.Some?
                       && m'.attempts == m.attempts + 1 < m.maxAttempts)
         case (Queued, Done) => op == AckOp(m.id) && m'.attempts == m.attempts && m'.error == m.error
         case (Queued, Expired) => op.SweepOp? && PastDeadline(m, op.now) && m' == m.(status := Expired)
         case (Queued, Dead) =>
           || (op.FailOp? && op.id == m.id && m'.attempts == m.attempts + 1 == m.maxAttempts)
           || (op.DeadLetterOp? && op.id == m.id && m'.attempts == m.attempts)
         case (Dead, Queued) => op == RequeueOp(m.id) && m'.attempts == 0 && m'.error == None
         case (Expired, Queued) => op == RequeueOp(m.id) && m'.attempts == 0 && m'.error == None
         case _ => m' == m
  }

  lemma GetSound(db: Db, id: nat)
    requires TableSound(db.messages, db.issued)
    ensures Get(db.messages, id).Some? ==>
              Get(db.messages, id).value.id == id && RowSound(Get(db.messages, id).value, db.issued)
  {
    var i := GetIndex(db.messages, id);
  }

  /** A change of one row keeps the table sound when the new row is. */
  lemma ChangeSound(db: Db, m: Message, status: MessageStatus, attempts: nat, error: Option<string>)
    requires MailSound(db) && Get(db.messages, m.id) == Some(m)
    requires RowSound(m.(status := status, attempts := attempts, error := error), db.issued)
    ensures MailSound(Change(db, m, status, attempts, error))
    ensures forall id: nat :: Get(Change(db, m, status, attempts, error).messages, id)
              == if id == m.id then Some(m.(status := status, attempts := attempts, error := error))
                 else Get(db.messages, id)
  {
    var after := Change(db, m, status, attempts, error).messages;
    forall id: nat ensures Get(after, id)
              == if id == m.id then Some(m.(status := status, attempts := attempts, error := error))
                 else Get(db.messages, id)
    {
      GetRewrite(db.messages, m.id, status, attempts, error, id);
      GetSound(db, id);
    }
    forall i | 0 <= i < |after| ensures RowSound(after[i], db.issued) {
      GetAt(db.messages, i);
    }
  }

  lemma LetterLimits(env: Env, now: int, l: Letter)
    requires LetterOk(env.roster, now, l)
    ensures 1 <= l.maxAttempts <= MAX_ATTEMPTS_CEILING
  {}

  lemma SendSound(env: Env, db: Db, now: int, l: Letter)
    requires MailSound(db) && LetterOk(env.roster, now, l)
    ensures var targets := Deduped(l.recipients);
            var ms := Deliveries(l, targets, now, db.issued, env.tie);
            var after := BusStep(env, db, SendOp(now, l));
            && MailSound(after) && after == db.(messages := after.messages, issued := db.issued + |targets|)
            && |after.messages| == |db.messages| + |targets|
            && (forall id: nat :: Get(after.messages, id)
                  == if db.issued <= id < after.issued then Some(ms[id - db.issued]) else Get(db.messages, id))
            && (forall x :: x in after.messages <==> x in db.messages || x in ms)
  {
    hide Insert, Ordered, Get, Deduped, InsertAll, LetterOk, KindOk;
    LetterLimits(env, now, l);
    var targets := Deduped(l.recipients);
    var ms := Deliveries(l, targets, now, db.issued, env.tie);
    InsertAllSound(db.messages, ms, db.issued);
    InsertAllMembers(db.messages, ms);
    var after := BusStep(env, db, SendOp(now, l));
    forall i | 0 <= i < |after.messages| ensures RowSound(after.messages[i], after.issued) {
      assert after.messages[i] in after.messages;
    }
  }

  lemma SweepSound(db: Db, now: int)
    requires MailSound(db)
    ensures MailSound(ExpireDue(db, now)) && |ExpireDue(db, now).messages| == |db.messages|
    ensures forall id: nat :: Get(ExpireDue(db, now).messages, id)
              == var m := Get(db.messages, id); if m.None? then None else Some(Expire(m.value, now))
  {
    assert ExpireDue(db, now).messages == ExpireRows(db.messages, now);
    forall id: nat {
      GetExpire(db.messages, now, id);
    }
  }

  lemma PruneSound(db: Db, now: int, age: int, statuses: set<MessageStatus>)
    requires MailSound(db)
    ensures var after := Apply(DeleteMessages(statuses, now - age), db);
            && MailSound(after) && |after.messages| <= |db.messages|
            && (forall id: nat :: Get(after.messages, id)
                  == var m := Get(db.messages, id); if m.Some? && Doomed(m.value, statuses, now - age) then None else m)
  {
    var after := Apply(DeleteMessages(statuses, now - age), db);
    DeleteKeeps(db.messages, statuses, now - age);
    DeleteMembers(db.messages, statuses, now - age);
    forall i | 0 <= i < |after.messages| ensures RowSound(after.messages[i], after.issued) {
      assert after.messages[i] in after.messages;
    }
    forall id: nat {
      GetDelete(db.messages, statuses, now - age, id);
    }
  }

  /**
   Each bus operation keeps the table sound, moves every delivery only as allowed, and changes the number
   of rows only by sending and pruning.
   */
  lemma StepMoves(env: Env, db: Db, op: BusOp)
    requires MailSound(db)
    ensures var next := BusStep(env, db, op);
            && MailSound(next) && db.issued <= next.issued
            && (forall id: nat :: Allowed(op, db.issued, Get(db.messages, id), Get(next.messages, id)))
            && |next.messages| + (if op.PruneOp? then |db.messages| - |next.messages| else 0) - next.issued
               == |db.messages| - db.issued
            && (op.PruneOp? ==> |next.messages| <= |db.messages| && next.issued == db.issued)
  {
    hide Insert, Rewrite, Delete, Deduped, MailSound, Get, Apply, ExpireDue;
    var next := BusStep(env, db, op);
    forall id: nat ensures Get(db.messages, id).Some? ==>
                             Get(db.messages, id).value.id == id && RowSound(Get(db.messages, id).value, db.issued)
    {
      SoundTable(db);
      GetSound(db, id);
    }
    if Try(env, db, op).Ok? {
      match op {
        case SendOp(now, l) => SendSound(env, db, now, l);
        case SweepOp(now) => SweepSound(db, now); SweepSize(db, now);
        case PruneOp(now, age, statuses) => PruneSound(db, now, age, statuses); PruneSize(db, statuses, now - age);
        case AckOp(id) => RowChanges(env, db, op);
        case FailOp(id, _) => RowChanges(env, db, op);
        case DeadLetterOp(id, _) => RowChanges(env, db, op);
        case RequeueOp(id) => RowChanges(env, db, op);
      }
    }
  }

  lemma SoundTable(db: Db)
    requires MailSound(db)
    ensures TableSound(db.messages, db.issued)
  {}

  lemma SweepSize(db: Db, now: int)
    ensures ExpireDue(db, now).issued == db.issued && |ExpireDue(db, now).messages| == |db.messages|
  {}

  lemma PruneSize(db: Db, statuses: set<MessageStatus>, cutoff: int)
    ensures Apply(DeleteMessages(statuses, cutoff), db).issued == db.issued
  {}

  /** The row an operation on one delivery writes. */
  function NewRow(m: Message, op: BusOp): Message
    requires op.AckOp? || op.FailOp? || op.DeadLetterOp? || op.RequeueOp?
  {
    match op
    case AckOp(_) => m.(status := Done)
    case FailOp(_, error) =>
      m.(status := if m.attempts + 1 >= m.maxAttempts then Dead else Queued, attempts := m.attempts + 1,
         error := Some(error))
    case DeadLetterOp(_, reason) => m.(status := Dead, error := Some(reason))
    case RequeueOp(_) => m.(status := Queued, attempts := 0, error := None)
  }

  /** An operation on one delivery changes that row and no other. */
  lemma RowChanges(env: Env, db: Db, op: BusOp)
    requires MailSound(db)
    requires op.AckOp? || op.FailOp? || op.DeadLetterOp? || op.RequeueOp?
    requires Try(env, db, op).Ok?
    ensures var before := Get(db.messages, op.id);
            var next := Try(env, db, op).value;
            && before.Some? && MailSound(next) && next == db.(messages := next.messages) && |next.messages| == |db.messages|
            && (forall id: nat :: Get(next.messages, id)
                  == if id == op.id then Some(NewRow(before.value, op)) else Get(db.messages, id))
  {
    hide MailSound, Get, RowSound;
    SoundTable(db);
    GetSound(db, op.id);
    var m := Get(db.messages, op.id).value;
    var m' := NewRow(m, op);
    StaysSound(m, op, db.issued);
    ChangeSound(db, m, m'.status, m'.attempts, m'.error);
  }

  lemma StaysSound(m: Message, op: BusOp, issued: nat)
    requires RowSound(m, issued)
    requires op.AckOp? || op.FailOp? || op.DeadLetterOp? || op.RequeueOp?
    ensures RowSound(NewRow(m, op), issued)
  {}

  // ---- Main results ------------------------------------------------------------------------

  /** The database after the first `k` operations. */
  function BusAt(env: Env, db: Db, ops: seq<BusOp>, k: nat): Db
    requires k <= |ops|
  {
    BusRun(env, db, ops[..k])
  }

  lemma {:induction false} BusRunConcat(env: Env, db: Db, a: seq<BusOp>, b: seq<BusOp>)
    ensures BusRun(env, db, a + b) == BusRun(env, BusRun(env, db, a), b)
    decreases |a|
  {
    if a == [] {
      assert a + b == b;
    } else {
      assert (a + b)[1..] == a[1..] + b;
      BusRunConcat(env, BusStep(env, db, a[0]), a[1..], b);
    }
  }

  /** A row once done is done for good, until it is pruned; and an id that is gone never comes back. */
  ghost predicate Settled(before: Db, after: Db) {
    && before.issued <= after.issued
    && forall id: nat :: id < before.issued ==>
         && (Get(before.messages, id).None? ==> Get(after.messages, id).None?)
         && (Get(before.messages, id).Some? && Get(before.messages, id).value.status.Done? ==>
               Get(after.messages, id).None? || Get(after.messages, id) == Get(before.messages, id))
  }

  lemma StepSettles(env: Env, db: Db, op: BusOp)
    requires MailSound(db)
    ensures Settled(db, BusStep(env, db, op))
  {
    hide MailSound, Get, BusStep;
    StepMoves(env, db, op);
    var next := BusStep(env, db, op);
    forall id: nat | id < db.issued
      ensures Get(db.messages, id).None? ==> Get(next.messages, id).None?
    {
      StepMoves(env, db, op);
      NextSound(next, id);
    }
  }

  lemma NextSound(db: Db, id: nat)
    requires MailSound(db)
    ensures Get(db.messages, id).Some? ==> Get(db.messages, id).value.id == id
  {
    GetSound(db, id);
  }

  /**
   Over every run: the table stays sound, done rows stay done until pruned, pruned ids never return, and
   rows present plus rows pruned equal rows sent.
   */
  lemma {:induction false} RunLifecycle(env: Env, db: Db, ops: seq<BusOp>)
    requires MailSound(db)
    ensures var end := BusRun(env, db, ops);
            && MailSound(end) && Settled(db, end)
            && |end.messages| + Pruned(env, db, ops) - end.issued == |db.messages| - db.issued
            && 0 <= Pruned(env, db, ops)
    decreases |ops|
  {
    hide MailSound, Get, BusStep;
    if ops != [] {
      StepMoves(env, db, ops[0]);
      StepSettles(env, db, ops[0]);
      RunLifecycle(env, BusStep(env, db, ops[0]), ops[1..]);
    }
  }

  /** Every step of every run from an empty store moves every delivery only as allowed. */
  lemma EveryMoveIsAllowed(env: Env, ops: seq<BusOp>, k: nat, id: nat)
    requires k < |ops|
    ensures var before := BusAt(env, EMPTY_DB, ops, k); var after := BusAt(env, EMPTY_DB, ops, k + 1);
            && Allowed(ops[k], before.issued, Get(before.messages, id), Get(after.messages, id))
            && (Get(before.messages, id).Some? && Get(before.messages, id).value.status.Queued? ==>
                  Get(after.messages, id).Some?
                  && Get(before.messages, id).value.attempts < Get(before.messages, id).value.maxAttempts)
  {
    hide Get, BusStep;
    var before := BusAt(env, EMPTY_DB, ops, k);
    EmptyIsSound();
    RunLifecycle(env, EMPTY_DB, ops[..k]);
    assert ops[..k + 1] == ops[..k] + [ops[k]];
    BusRunConcat(env, EMPTY_DB, ops[..k], [ops[k]]);
    assert BusRun(env, before, [ops[k]]) == BusStep(env, before, ops[k]);
    StepMoves(env, before, ops[k]);
    GetSound(before, id);
  }

  lemma EmptyIsSound()
    ensures MailSound(EMPTY_DB)
  {}

  /** Rows sent are rows present plus rows pruned, and no queued row has used up its attempts. */
  lemma EveryDeliveryIsAccountedFor(env: Env, ops: seq<BusOp>)
    ensures var end := BusRun(env, EMPTY_DB, ops);
            && end.issued == |end.messages| + Pruned(env, EMPTY_DB, ops)
            && (forall m :: m in end.messages && m.status.Queued? ==> m.attempts < m.maxAttempts)
  {
    RunLifecycle(env, EMPTY_DB, ops);
  }
}
