/**
 What a complete run of the operator does, branch by branch, read off the store: when it opens a vote, when it goes on
 waiting, what a full count leads to, and when it gives up.
 */
module OperatorEffects {
  import opened Tables
  import opened Ledger
  import opened Bus
  import opened Lifecycle
  import opened Inbox
  import opened Purchase

  lemma WholeRun(w: World, db: Db)
    ensures Operate(w, db, None) == ApplyAll(OperatorWrites(w, db), db)
  {
    hide OperatorWrites;
    var ws := OperatorWrites(w, db);
    assert ws[..|ws|] == ws;
  }

  // ---- Opening a vote ----------------------------------------------------------------------

  /** The bus takes the request when it knows the operator and all three seats and the deadline lies ahead. */
  lemma RequestAccepted(w: World)
    ensures LetterOk(w.env.roster, w.now, RequestLetter(w))
            <==> {"operator", "treasurer", "risk", "director"} <= w.env.roster && 0 < w.quorumWindow
  {
    var l := RequestLetter(w);
    assert KindCore(VOTE_REQUEST);
    assert l.recipients[0] == "treasurer" && l.recipients[1] == "risk" && l.recipients[2] == "director";
  }

  lemma SeatsOnce()
    ensures Deduped(SEATS) == SEATS
  {
    assert SEATS[..2] == ["treasurer", "risk"] && SEATS[..2][..1] == ["treasurer"] && ["treasurer"][..0] == [];
    assert Deduped(["treasurer"]) == ["treasurer"];
    assert Deduped(SEATS[..2]) == ["treasurer", "risk"];
  }

  /** The request to a seat, as it lies in its inbox. */
  predicate IsVoteRequest(w: World, m: Message, id: nat, seat: string, correlation: nat) {
    && m.id == id && m.sender == "operator" && m.recipient == seat && m.kind == "vote_request"
    && m.correlation == correlation && m.thread == correlation && m.ts == w.now
    && m.status.Queued? && m.expectsReply && m.replyTo.None? && m.attempts == 0 && m.maxAttempts == 3
    && m.deadline == Some(w.now + w.quorumWindow)
    && "action" in m.payload && m.payload["action"] == Text("buy_infra")
    && "usd" in m.payload && m.payload["usd"] == Cents(600) && NonEmptyText(m.payload, "action_id")
  }

  /** With no vote open the operator opens one exactly when money, purchase, bus and roster allow it. */
  predicate OpensNow(w: World, db: Db) {
    && (w.token || 10000 <= Balance(db.rows, CASH) + Balance(db.rows, USDC))
    && !db.bought && w.comms
    && {"operator", "treasurer", "risk", "director"} <= w.env.roster && 0 < w.quorumWindow
  }

  /** Three requests were added, one for each seat, and the other messages are as they were. */
  ghost predicate SeatsAsked(w: World, before: Db, after: Db) {
    && after.issued == before.issued + 3
    && (forall i :: 0 <= i < 3 ==>
          var m := Get(after.messages, before.issued + i);
          m.Some? && IsVoteRequest(w, m.value, before.issued + i, SEATS[i], before.issued))
    && (forall id: nat :: id < before.issued ==> Get(after.messages, id) == Get(before.messages, id))
  }

  /** Opening asks each seat once and notes the quorum; without it nothing happens at all. */
  lemma OpensExactly(w: World, db: Db)
    requires db.quorum.None? && MailSound(db)
    ensures var after := Operate(w, db, None);
            if OpensNow(w, db) then
              && SeatsAsked(w, db, after)
              && after == db.(messages := after.messages, issued := after.issued,
                              quorum := Some(Quorum(db.issued, w.tick, w.now)))
            else after == db
  {
    hide MailSound, LetterOk, Deliveries, Deduped, Balance, InsertAll, SeatsAsked;
    WholeRun(w, db);
    RequestAccepted(w);
    if OpensNow(w, db) {
      Asks(w, db);
    }
  }

  lemma Asks(w: World, db: Db)
    requires db.quorum.None? && MailSound(db) && OpensNow(w, db)
    ensures var after := ApplyAll(OperatorWrites(w, db), db);
            && SeatsAsked(w, db, after)
            && after == db.(messages := after.messages, issued := after.issued,
                            quorum := Some(Quorum(db.issued, w.tick, w.now)))
  {
    hide MailSound, Get, LetterOk, Deduped, Balance, InsertAll, Digits, Deliveries, IsVoteRequest;
    RequestAccepted(w);
    SeatsOnce();
    var l := RequestLetter(w);
    var ms := Deliveries(l, SEATS, w.now, db.issued, w.env.tie);
    SendSound(w.env, db, w.now, l);
    var sent := Apply(InsertMessages(ms), db);
    var note := SetQuorum(Some(Quorum(db.issued, w.tick, w.now)));
    assert OperatorWrites(w, db) == [InsertMessages(ms)] + [note];
    ApplyAllConcat([InsertMessages(ms)], [note], db);
    ApplyOne(InsertMessages(ms), db);
    ApplyOne(note, sent);
    assert BusStep(w.env, db, SendOp(w.now, l)) == sent;
    forall i | 0 <= i < 3
      ensures Get(sent.messages, db.issued + i) == Some(ms[i]) && IsVoteRequest(w, ms[i], db.issued + i, SEATS[i], db.issued)
    {
      RequestRow(w, db.issued, i);
    }
  }

  lemma RequestRow(w: World, issued: nat, i: nat)
    requires i < 3
    ensures IsVoteRequest(w, Deliveries(RequestLetter(w), SEATS, w.now, issued, w.env.tie)[i], issued + i, SEATS[i], issued)
  {
    hide Digits;
    TextNotEmpty(w.tick);
    var l := RequestLetter(w);
    assert Or(l.thread, issued) == issued && Or(l.correlation, issued) == issued;
  }

  lemma TextNotEmpty(tick: nat)
    ensures "vps_" + Digits(tick) != ""
  {
    assert ("vps_" + Digits(tick))[0] == 'v';
  }

  // ---- Replies -----------------------------------------------------------------------------

  /** A reply counts as yes exactly when its vote is the text "yes", and as no when it is missing, empty, zero or false. */
  lemma VoteExactly(payload: Payload)
    ensures VoteOf(payload) == "yes" <==> "vote" in payload && payload["vote"] == Text("yes")
    ensures VoteOf(payload) == "no"
            <==> "vote" !in payload || payload["vote"] in {Text(""), Text("no"), Flag(false), Cents(0)}
  {
    assert "True" != "yes" && "True" != "no" && "number" != "yes" && "number" != "no";
  }

  /** How many replies of the correlation come before position `i` of the table. */
  function RepliesAhead(rows: seq<Message>, correlation: nat, i: nat): nat
    requires i <= |rows|
  {
    if i == 0 then 0
    else RepliesAhead(rows, correlation, i - 1)
         + if rows[i - 1].correlation == correlation && rows[i - 1].replyTo.Some? then 1 else 0
  }

  lemma {:induction false} RepliesSnoc(rows: seq<Message>, correlation: nat)
    requires rows != []
    ensures var n := |rows| - 1;
            Replies(rows, correlation)
            == Replies(rows[..n], correlation)
               + if rows[n].correlation == correlation && rows[n].replyTo.Some? then [rows[n]] else []
  {
    var n := |rows| - 1;
    if n == 0 {
      assert rows[1..] == [] && rows[..0] == [];
    } else {
      RepliesSnoc(rows[1..], correlation);
      assert rows[1..][..n - 1] == rows[..n][1..] && rows[1..][n - 1] == rows[n];
    }
  }

  lemma RepliesAheadOfPrefix(rows: seq<Message>, correlation: nat, n: nat, i: nat)
    requires i <= n <= |rows|
    ensures RepliesAhead(rows[..n], correlation, i) == RepliesAhead(rows, correlation, i)
  {}

  lemma {:induction false} RepliesCounted(rows: seq<Message>, correlation: nat)
    ensures |Replies(rows, correlation)| == RepliesAhead(rows, correlation, |rows|)
  {
    if rows != [] {
      var n := |rows| - 1;
      RepliesCounted(rows[..n], correlation);
      RepliesSnoc(rows, correlation);
      RepliesAheadOfPrefix(rows, correlation, n, n);
    }
  }

  /** Replies come in the order of the table, each behind exactly those ahead of it; so the last one is the latest. */
  lemma {:induction false} RepliesInOrder(rows: seq<Message>, correlation: nat, i: nat)
    requires i < |rows| && rows[i].correlation == correlation && rows[i].replyTo.Some?
    ensures var place := RepliesAhead(rows, correlation, i);
            place < |Replies(rows, correlation)| && Replies(rows, correlation)[place] == rows[i]
    decreases |rows|
  {
    hide Replies, RepliesAhead;
    var n := |rows| - 1;
    RepliesSnoc(rows, correlation);
    RepliesAheadOfPrefix(rows, correlation, n, i);
    if i < n {
      RepliesInOrder(rows[..n], correlation, i);
    } else {
      RepliesCounted(rows[..n], correlation);
    }
  }

  // ---- Waiting -----------------------------------------------------------------------------

  /** The seat has answered the operator on this correlation. */
  predicate HasVoted(rows: seq<Message>, correlation: nat, seat: string) {
    exists m :: m in rows && m.correlation == correlation && m.replyTo.Some? && m.sender == seat && m.recipient == "operator"
  }

  predicate Unanswered(m: Message, correlation: nat) {
    m.correlation == correlation && m.status.Queued? && m.expectsReply
  }

  lemma {:induction false} OutstandingMeans(rows: seq<Message>, correlation: nat)
    ensures Outstanding(rows, correlation) > 0 <==> exists m :: m in rows && Unanswered(m, correlation)
  {
    if rows != [] {
      OutstandingMeans(rows[1..], correlation);
      assert forall m :: m in rows <==> m == rows[0] || m in rows[1..];
      assert (exists m :: m in rows && Unanswered(m, correlation))
        <==> Unanswered(rows[0], correlation) || (exists m :: m in rows[1..] && Unanswered(m, correlation));
    }
  }

  lemma VotedMeans(rows: seq<Message>, correlation: nat, seat: string)
    requires seat in SEATS
    ensures Choice(Gather(Replies(rows, correlation)), seat).Some? <==> HasVoted(rows, correlation, seat)
  {
    hide Replies, Gather, Choice;
    var replies := Replies(rows, correlation);
    RepliesMembers(rows, correlation);
    var i := CountedVoteIsLastReply(replies, seat);
    if i < |replies| {
      assert replies[i] in replies;
    } else {
      forall m | m in replies ensures !(m.sender == seat && m.recipient == "operator") {
        var j :| 0 <= j < |replies| && replies[j] == m;
      }
    }
  }

  /** Every seat has answered. */
  predicate AllAnswered(db: Db, correlation: nat) {
    forall i :: 0 <= i < |SEATS| ==> HasVoted(db.messages, correlation, SEATS[i])
  }

  lemma AllAnsweredMeans(db: Db, correlation: nat)
    ensures AllVoted(Gather(Replies(db.messages, correlation))) <==> AllAnswered(db, correlation)
  {
    hide Replies, Gather, Choice, HasVoted;
    forall i | 0 <= i < |SEATS|
      ensures Choice(Gather(Replies(db.messages, correlation)), SEATS[i]).Some? <==> HasVoted(db.messages, correlation, SEATS[i])
    {
      VotedMeans(db.messages, correlation, SEATS[i]);
    }
  }

  /** The open vote can still be decided: a seat is missing, a request is out, none has expired, and there is time. */
  predicate StillOpen(w: World, db: Db, q: Quorum) {
    && !AllAnswered(db, q.correlation) && w.now <= q.requested + w.quorumWindow
    && (exists m :: m in db.messages && Unanswered(m, q.correlation))
    && (forall m :: m in db.messages && m.correlation == q.correlation && m.replyTo.None? ==> !m.status.Expired?)
  }

  /** An open vote stays open exactly while it can be decided, and then nothing changes; without an answer it is dropped. */
  lemma WaitsExactly(w: World, db: Db)
    requires db.quorum.Some? && !(w.comms && AllAnswered(db, db.quorum.value.correlation))
    ensures Operate(w, db, None) == if w.comms && StillOpen(w, db, db.quorum.value) then db else db.(quorum := None)
  {
    hide Replies, Gather, AllAnswered;
    var q := db.quorum.value;
    WholeRun(w, db);
    AllAnsweredMeans(db, q.correlation);
    OutstandingMeans(db.messages, q.correlation);
    ExpiredMeans(db.messages, q.correlation);
    if OperatorWrites(w, db) != [] {
      ApplyOne(SetQuorum(None), db);
    }
  }

  lemma ExpiredMeans(rows: seq<Message>, correlation: nat)
    ensures AnyExpired(rows, correlation)
            <==> exists m :: m in rows && m.correlation == correlation && m.replyTo.None? && m.status.Expired?
  {}

  // ---- Counting ----------------------------------------------------------------------------

  /** One row per counted vote, with the tick of the quorum. */
  function VoteRows(b: Ballots, tick: nat): seq<VoteRow> {
    seq(|b|, i requires 0 <= i < |b| => VoteRow(tick, b[i].0, b[i].1))
  }

  lemma {:induction false} VotesApplied(b: Ballots, tick: nat, db: Db)
    ensures ApplyAll(VoteWrites(b, tick), db) == db.(votes := db.votes + VoteRows(b, tick))
    decreases |b|
  {
    var ws := VoteWrites(b, tick);
    if b == [] {
      assert db.votes + VoteRows(b, tick) == db.votes;
    } else {
      var next := Apply(ws[0], db);
      VotesApplied(b[1..], tick, next);
      assert ws[1..] == VoteWrites(b[1..], tick);
      assert next.votes + VoteRows(b[1..], tick) == db.votes + VoteRows(b, tick);
    }
  }

  /** A yes from treasurer and director is a purchase when it is still due, allowed, and covered. */
  predicate BuysNow(w: World, db: Db) {
    && !db.bought && (w.sim || (w.token && w.allowLiveBuy))
    && 600 <= Balance(db.rows, CASH) + Balance(db.rows, USDC)
  }

  /**
   Once all seats have answered the vote is over. With a yes from treasurer and director the votes are recorded, and
   the box is paid and noted if that is due, allowed and covered; otherwise nothing else changes.
   */
  lemma ConcludesExactly(w: World, db: Db)
    requires db.quorum.Some? && w.comms && AllAnswered(db, db.quorum.value.correlation)
    ensures var q := db.quorum.value; var b := Gather(Replies(db.messages, q.correlation));
            var approved := Choice(b, "treasurer") == Some("yes") && Choice(b, "director") == Some("yes");
            Operate(w, db, None)
            == if !approved then db.(quorum := None)
               else if !BuysNow(w, db) then db.(quorum := None, votes := db.votes + VoteRows(b, q.tick))
               else db.(quorum := None, votes := db.votes + VoteRows(b, q.tick), bought := true,
                        rows := db.rows + [Row(w.now, INFRA, USDC, 600, "vps month")])
  {
    hide Replies, Gather, Choice, AllAnswered, Balance;
    var q := db.quorum.value;
    var b := Gather(Replies(db.messages, q.correlation));
    WholeRun(w, db);
    AllAnsweredMeans(db, q.correlation);
    if Approved(b) {
      var votes := VoteWrites(b, q.tick);
      VotesApplied(b, q.tick, db);
      var voted := ApplyAll(votes, db);
      if BuysNow(w, db) {
        BuyAndClose(w, voted);
        assert OperatorWrites(w, db) == votes + [PostRow(Row(w.now, INFRA, USDC, 600, "vps month")), SetBought, SetQuorum(None)];
        ApplyAllConcat(votes, [PostRow(Row(w.now, INFRA, USDC, 600, "vps month")), SetBought, SetQuorum(None)], db);
      } else {
        assert OperatorWrites(w, db) == votes + [SetQuorum(None)];
        ApplyAllConcat(votes, [SetQuorum(None)], db);
        ApplyOne(SetQuorum(None), voted);
      }
    } else {
      assert OperatorWrites(w, db) == [SetQuorum(None)];
      ApplyOne(SetQuorum(None), db);
    }
  }

  lemma BuyAndClose(w: World, db: Db)
    ensures var pay := PostRow(Row(w.now, INFRA, USDC, 600, "vps month"));
            ApplyAll([pay, SetBought, SetQuorum(None)], db) == db.(rows := db.rows + [pay.row], bought := true, quorum := None)
  {
    var pay := PostRow(Row(w.now, INFRA, USDC, 600, "vps month"));
    var ws := [pay, SetBought, SetQuorum(None)];
    assert ws == [pay] + [SetBought] + [SetQuorum(None)];
    ApplyAllConcat([pay] + [SetBought], [SetQuorum(None)], db);
    ApplyAllConcat([pay], [SetBought], db);
    ApplyOne(pay, db);
    ApplyOne(SetBought, Apply(pay, db));
    ApplyOne(SetQuorum(None), Apply(SetBought, Apply(pay, db)));
  }
}
