/**
 What each bus operation and each inbox read does, read off the message table.
 */
module BusEffects {
  import opened Tables
  import opened Bus
  import opened Lifecycle
  import opened Inbox

  // ---- Sending -----------------------------------------------------------------------------

  predicate NoRepeats(names: seq<string>) {
    forall i, j :: 0 <= i < j < |names| ==> names[i] != names[j]
  }

  /** Every recipient is addressed exactly once, in the order of their first mention. */
  lemma {:induction false} DedupedExactly(names: seq<string>)
    ensures var once := Deduped(names);
            && NoRepeats(once) && (forall x :: x in once <==> x in names)
            && (forall i :: 0 <= i < |once| ==>
                  exists k :: 0 <= k < |names| && names[k] == once[i] && Deduped(names[..k]) == once[..i])
  {
    if names != [] {
      var n := |names| - 1;
      var rest, once := Deduped(names[..n]), Deduped(names);
      DedupedExactly(names[..n]);
      assert names == names[..n] + [names[n]];
      forall i | 0 <= i < |once| ensures exists k :: 0 <= k < |names| && names[k] == once[i] && Deduped(names[..k]) == once[..i] {
        if i < |rest| {
          var k :| 0 <= k < n && names[..n][k] == rest[i] && Deduped(names[..n][..k]) == rest[..i];
          assert names[..n][..k] == names[..k] && once[..i] == rest[..i];
        } else {
          assert names[n] == once[i] && once[..i] == rest;
        }
      }
    }
  }

  /** The row a letter becomes for one recipient. */
  predicate IsDelivery(m: Message, l: Letter, now: int, id: nat, first: nat, recipient: string) {
    && m.id == id && m.ts == now && m.sender == l.sender && m.recipient == recipient && m.kind == l.kind
    && m.payload == l.payload && m.status.Queued? && m.attempts == 0 && m.error.None?
    && m.thread == (if l.thread.Some? then l.thread.value else first)
    && m.correlation == (if l.correlation.Some? then l.correlation.value else first)
    && m.expectsReply == l.expectsReply && m.replyTo == l.replyTo && m.deadline == l.deadline && m.maxAttempts == l.maxAttempts
  }

  /**
   A letter is refused unless sender and recipients are known, there is a recipient, the kind is well formed, the
   deadline lies ahead and the attempts are between one and ten. Otherwise it becomes one queued row per recipient.
   */
  lemma SendExactly(env: Env, db: Db, now: int, l: Letter)
    requires MailSound(db)
    ensures var r := Send(env.roster, env.tie, db, now, l);
            if l.sender in env.roster && l.recipients != [] && (forall x :: x in l.recipients ==> x in env.roster)
               && KindOk(l.kind) && (l.deadline.Some? ==> now < l.deadline.value) && 1 <= l.maxAttempts <= 10
            then
              && r.Ok?
              && var targets, after := Deduped(l.recipients), r.value;
                 && after == db.(messages := after.messages, issued := db.issued + |targets|)
                 && (forall i :: 0 <= i < |targets| ==>
                       var m := Get(after.messages, db.issued + i);
                       m.Some? && IsDelivery(m.value, l, now, db.issued + i, db.issued, targets[i]))
                 && (forall id: nat :: id < db.issued ==> Get(after.messages, id) == Get(db.messages, id))
            else r == Err(ValueError)
  {
    hide MailSound, Get, KindOk, Deduped, InsertAll;
    assert (forall x :: x in l.recipients ==> x in env.roster)
      <==> (forall i :: 0 <= i < |l.recipients| ==> l.recipients[i] in env.roster);
    if LetterOk(env.roster, now, l) {
      SendSound(env, db, now, l);
      var targets := Deduped(l.recipients);
      var ms := Deliveries(l, targets, now, db.issued, env.tie);
      forall i | 0 <= i < |targets| ensures IsDelivery(ms[i], l, now, db.issued + i, db.issued, targets[i]) {
        DeliveryRow(l, targets, now, db.issued, env.tie, i);
      }
    }
  }

  lemma DeliveryRow(l: Letter, targets: seq<string>, now: int, issued: nat, tie: nat -> nat, i: nat)
    requires 1 <= l.maxAttempts && i < |targets|
    ensures IsDelivery(Deliveries(l, targets, now, issued, tie)[i], l, now, issued + i, issued, targets[i])
  {
    assert Or(l.thread, issued) == (if l.thread.Some? then l.thread.value else issued);
    assert Or(l.correlation, issued) == (if l.correlation.Some? then l.correlation.value else issued);
  }

  /** Only the recipient of a message that is not itself a reply may reply, under a kind it gives or one derived. */
  lemma ReplyExactly(env: Env, db: Db, now: int, original: Message, sender: string, payload: Payload, kind: Option<string>)
    requires MailSound(db)
    ensures var r := Reply(env.roster, env.tie, db, now, original, sender, payload, kind);
            var replyKind := if kind.Some? then kind else DefaultReplyKind(original.kind);
            if original.replyTo.None? && sender == original.recipient && replyKind.Some? && KindOk(replyKind.value)
               && sender in env.roster && original.sender in env.roster
            then
              && r.Ok? && r.value == db.(messages := r.value.messages, issued := db.issued + 1)
              && Get(r.value.messages, db.issued)
                 == Some(Message(db.issued, env.tie(db.issued), now, original.thread, original.correlation, sender,
                                 original.sender, replyKind.value, payload, Queued, false, Some(original.id), None, 0, 3, None))
              && (forall id: nat :: id < db.issued ==> Get(r.value.messages, id) == Get(db.messages, id))
            else r == Err(ValueError)
  {
    hide MailSound, Get, KindOk, InsertAll, DefaultReplyKind;
    var replyKind := if kind.Some? then kind else DefaultReplyKind(original.kind);
    if original.replyTo.None? && sender == original.recipient && replyKind.Some? {
      var letter := ReplyLetter(original, sender, payload, kind).value;
      assert letter.recipients[0] == original.sender && Deduped([original.sender]) == [original.sender];
      if LetterOk(env.roster, now, letter) {
        SendSound(env, db, now, letter);
        assert Or(letter.thread, db.issued) == original.thread && Or(letter.correlation, db.issued) == original.correlation;
        assert BusStep(env, db, SendOp(now, letter)) == Send(env.roster, env.tie, db, now, letter).value;
      }
    }
  }

  lemma {:induction false} StripDotsExactly(kind: string)
    ensures var stem := StripDots(kind);
            && stem <= kind && (stem != "" ==> stem[|stem| - 1] !in {'.', '_'})
            && (forall i :: |stem| <= i < |kind| ==> kind[i] in {'.', '_'})
  {
    if kind != "" && kind[|kind| - 1] in {'.', '_'} {
      StripDotsExactly(kind[..|kind| - 1]);
    }
  }

  /** The derived kind is the request's with `.reply`, a long one cut to fit and never at a dot or underscore. */
  lemma DerivedKindExactly(kind: string) returns (stem: string)
    requires DefaultReplyKind(kind).Some?
    ensures DefaultReplyKind(kind).value == stem + ".reply" && |stem| <= 58 && stem <= kind
    ensures |kind| <= 58 ==> stem == kind
    ensures |kind| > 58 ==> (stem != "" ==> stem[|stem| - 1] !in {'.', '_'})
                            && forall i :: |stem| <= i < 58 ==> kind[i] in {'.', '_'}
  {
    stem := if |kind| > 58 then StripDots(kind[..58]) else kind;
    if |kind| > 58 {
      StripDotsExactly(kind[..58]);
    }
  }

  // ---- One delivery ------------------------------------------------------------------------

  /** The row `m` became `m'`, and nothing else in the store changed. */
  ghost predicate RowBecame(before: Db, after: Db, m: Message, m': Message) {
    && after == before.(messages := after.messages) && |after.messages| == |before.messages|
    && Get(after.messages, m.id) == Some(m') && forall id: nat :: id != m.id ==> Get(after.messages, id) == Get(before.messages, id)
  }

  /**
   Acknowledging, failing, dead-lettering and requeueing: an unknown id is an error, and so is a row in the wrong state;
   otherwise exactly that row moves.
   */
  lemma TransitionExactly(env: Env, db: Db, op: BusOp)
    requires MailSound(db) && (op.AckOp? || op.FailOp? || op.DeadLetterOp? || op.RequeueOp?)
    ensures var r, found := Try(env, db, op), Get(db.messages, op.id);
            if found.None? then r == Err(KeyError)
            else if !(if op.RequeueOp? then found.value.status in {Dead, Expired} else found.value.status.Queued?) then
              r == Err(ValueError)
            else
              var m := found.value;
              && r.Ok?
              && match op
                 case AckOp(_) => RowBecame(db, r.value, m, m.(status := Done))
                 case DeadLetterOp(_, reason) => RowBecame(db, r.value, m, m.(status := Dead, error := Some(reason)))
                 case RequeueOp(_) => RowBecame(db, r.value, m, m.(status := Queued, attempts := 0, error := None))
                 case FailOp(_, error) =>
                   RowBecame(db, r.value, m, m.(attempts := m.attempts + 1, error := Some(error),
                                                status := if m.attempts + 1 < m.maxAttempts then Queued else Dead))
  {
    hide MailSound, Get, Apply;
    SoundTable(db);
    GetSound(db, op.id);
    if Try(env, db, op).Ok? {
      RowChanges(env, db, op);
    }
  }

  // ---- Sweeps ------------------------------------------------------------------------------

  /** A sweep expires exactly the queued rows whose deadline has passed. */
  lemma SweepExactly(db: Db, now: int, id: nat)
    requires MailSound(db)
    ensures var after, m := ExpireDue(db, now), Get(db.messages, id);
            && after == db.(messages := after.messages)
            && Get(after.messages, id)
               == if m.Some? && m.value.status.Queued? && m.value.deadline.Some? && m.value.deadline.value < now
                  then Some(m.value.(status := Expired)) else m
  {
    SweepSound(db, now);
  }

  /** Pruning removes exactly the settled rows of the named states that are old enough; queued rows may not be named. */
  lemma PruneExactly(db: Db, now: int, age: int, statuses: set<MessageStatus>, id: nat)
    requires MailSound(db)
    ensures var r, m := Prune(db, now, age, statuses), Get(db.messages, id);
            if statuses == {} || Queued in statuses || age < 0 then r == Err(ValueError)
            else
              && r.Ok? && r.value == db.(messages := r.value.messages)
              && Get(r.value.messages, id)
                 == if m.Some? && m.value.status in statuses && m.value.ts < now - age then None else m
  {
    if !(statuses == {} || Queued in statuses || age < 0) {
      PruneSound(db, now, age, statuses);
    }
  }

  // ---- Reading an inbox --------------------------------------------------------------------

  /** How many queued rows of the agent come before position `i`. */
  function Ahead(rows: seq<Message>, agent: string, i: nat): nat
    requires i <= |rows|
  {
    if i == 0 then 0
    else Ahead(rows, agent, i - 1) + if rows[i - 1].recipient == agent && rows[i - 1].status.Queued? then 1 else 0
  }

  lemma {:induction false} QueueSnoc(rows: seq<Message>, agent: string)
    requires rows != []
    ensures var n := |rows| - 1;
            Queue(rows, agent) == Queue(rows[..n], agent)
                                  + if rows[n].recipient == agent && rows[n].status.Queued? then [rows[n]] else []
  {
    var n := |rows| - 1;
    if n == 0 {
      assert rows[1..] == [] && rows[..0] == [];
    } else {
      QueueSnoc(rows[1..], agent);
      assert rows[1..][..n - 1] == rows[..n][1..] && rows[1..][n - 1] == rows[n];
    }
  }

  lemma AheadOfPrefix(rows: seq<Message>, agent: string, n: nat, i: nat)
    requires i <= n <= |rows|
    ensures Ahead(rows[..n], agent, i) == Ahead(rows, agent, i)
  {}

  lemma {:induction false} QueueCounted(rows: seq<Message>, agent: string)
    ensures |Queue(rows, agent)| == Ahead(rows, agent, |rows|)
  {
    if rows != [] {
      var n := |rows| - 1;
      QueueCounted(rows[..n], agent);
      QueueSnoc(rows, agent);
      AheadOfPrefix(rows, agent, n, n);
    }
  }

  /** The queue is the agent's queued rows in table order: each stands behind exactly those ahead of it. */
  lemma {:induction false} QueuePlace(rows: seq<Message>, agent: string, i: nat)
    requires i < |rows| && rows[i].recipient == agent && rows[i].status.Queued?
    ensures Ahead(rows, agent, i) < |Queue(rows, agent)| && Queue(rows, agent)[Ahead(rows, agent, i)] == rows[i]
    decreases |rows|
  {
    hide Queue, Ahead;
    var n := |rows| - 1;
    QueueSnoc(rows, agent);
    AheadOfPrefix(rows, agent, n, i);
    if i < n {
      QueuePlace(rows[..n], agent, i);
    } else {
      QueueCounted(rows[..n], agent);
    }
  }

  /**
   An inbox read shows exactly the agent's queued, timely rows among its first `limit` queued ones, or among all of
   them without a limit: an overdue row still takes a place.
   */
  lemma InboxExactly(db: Db, agent: string, now: int, limit: int, i: nat)
    requires MailSound(db) && i < |db.messages|
    ensures var m := db.messages[i];
            m in Bus.Inbox(db.messages, agent, now, limit)
            <==> m.recipient == agent && m.status.Queued? && !(m.deadline.Some? && m.deadline.value < now)
                 && (limit < 0 || Ahead(db.messages, agent, i) < limit)
  {
    hide Queue, Visible, Ordered, Ahead;
    var m, queue := db.messages[i], Queue(db.messages, agent);
    QueueMembers(db.messages, agent);
    QueueDistinct(db.messages, agent);
    var taken := Limit(queue, limit);
    LimitKeepsDistinct(queue, limit);
    VisibleMembers(taken, now);
    assert m in taken ==> m in queue;
    if m.recipient == agent && m.status.Queued? {
      var place := Ahead(db.messages, agent, i);
      QueuePlace(db.messages, agent, i);
      assert m in taken <==> place < |taken| by {
        if place < |taken| {
          assert taken[place] == m;
        } else {
          forall j | 0 <= j < |taken| ensures taken[j] != m {
            assert queue[j] == taken[j] && queue[j].id != queue[place].id;
          }
        }
      }
    }
  }

  lemma LimitKeepsDistinct(queue: seq<Message>, limit: int)
    requires Distinct(queue)
    ensures Distinct(Limit(queue, limit))
    ensures Limit(queue, limit) <= queue && |Limit(queue, limit)| == if 0 <= limit < |queue| then limit else |queue|
  {}
}
