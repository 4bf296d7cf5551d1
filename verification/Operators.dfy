/**
 `operator` on the store: each commit takes effect by itself, so when the database fails partway the
 commits already made stay.
 */
module Operators {
  import opened Tables
  import opened Ledger
  import opened Bus
  import opened Inbox
  import opened Purchase
  import opened Persistence
  import opened BalanceCache
  import Books
  import Billing
  import opened Delivery

  class Operator {
    const office: Billing.Office
    const bus: MessageBus
    const store: Store

    constructor (office: Billing.Office, bus: MessageBus)
      requires office.store == bus.store
      ensures this.office == office && this.bus == bus && this.store == bus.store
    {
      this.office := office;
      this.bus := bus;
      this.store := bus.store;
    }

    ghost predicate Ready()
      reads this, office, office.store, office.book
    {
      office.store == store == bus.store && office.Ready() && store.depth == 0
    }

    /** The first `done` commits of the plan have been made, each by a write that did not fail. */
    ghost predicate Made(ws: seq<Write>, done: nat, start: Db, faults: Faults)
      reads store
    {
      && done <= |ws| && (FirstFault(faults).Some? ==> done <= FirstFault(faults).value)
      && store.working == ApplyAll(ws[..done], start) && store.writeFaults == After(faults, done)
    }

    /** The commits made are those before the first write that fails. */
    ghost predicate Reaches(ws: seq<Write>, start: Db, cut: Option<nat>)
      reads store
    {
      store.working == ApplyAll(ws[..Reached(ws, cut)], start)
    }

    lemma NextMade(ws: seq<Write>, done: nat, start: Db)
      requires done < |ws|
      ensures ApplyAll(ws[..done + 1], start) == Apply(ws[done], ApplyAll(ws[..done], start))
    {
      assert ws[..done + 1] == ws[..done] + [ws[done]];
      ApplyAllConcat(ws[..done], [ws[done]], start);
      ApplyOne(ws[done], ApplyAll(ws[..done], start));
    }

    /** Make the next commit of the plan. */
    method Commit(w: Write, ghost ws: seq<Write>, ghost done: nat, ghost start: Db, ghost faults: Faults)
      returns (ok: bool)
      requires Ready() && Made(ws, done, start, faults) && done < |ws| && ws[done] == w && !w.PostRow?
      modifies store`working, store`committed, store`ledgerRevision, store`writeFaults, store`hits
      ensures Ready()
      ensures if ok then Made(ws, done + 1, start, faults) else Reaches(ws, start, FirstFault(faults))
    {
      hide Apply, ApplyAll, Numbered;
      NextMade(ws, done, start);
      NextFault(faults, done);
      ok := store.Execute(w);
    }

    /** The votes in the replies, the last of each seat. */
    method CountVotes(replies: seq<Message>) returns (votes: Ballots)
      ensures votes == Gather(replies)
    {
      hide Tally, VoteOf;
      votes := [];
      var i := 0;
      while i < |replies|
        invariant 0 <= i <= |replies|
        invariant votes == Gather(replies[..i])
      {
        var r := replies[i];
        assert replies[..i + 1][..i] == replies[..i];
        if r.recipient == OPERATOR && r.sender in SEATS {
          votes := Tally(votes, r.sender, VoteOf(r.payload));
        }
        i := i + 1;
      }
      assert replies[..i] == replies;
    }

    /** The request is sent in its own transaction: when its COMMIT fails nothing of the plan happens. */
    function OpeningCut(writes: Faults, exits: Faults): Option<nat> {
      if Strikes(exits) then Some(0) else FirstFault(writes)
    }

    lemma PlanOpens(w: World, db: Db)
      requires db.quorum.None?
      ensures OperatorWrites(w, db) == OpenWrites(w, db)
    {}

    /** Open a vote: ask the three seats, then note the open quorum. */
    method Open(w: World) returns (ok: bool)
      requires Ready() && w.env == bus.env && store.working.quorum.None?
      modifies office.book, store
      ensures Ready()
      ensures Reaches(OperatorWrites(w, old(store.working)), old(store.working),
                      OpeningCut(old(store.writeFaults), old(store.exitFaults)))
    {
      hide Apply, ApplyAll, Numbered, LetterOk, Deliveries, Deduped, FirstFault, After, OperatingCash, OperatorWrites;
      ghost var start, faults := store.working, store.writeFaults;
      ghost var ws := OperatorWrites(w, start);
      PlanOpens(w, start);
      NothingMade(ws, start);
      if !w.token {
        var cash := office.ReadOperatingCash();
        if cash < CASH_FLOOR {
          return true;
        }
      }
      if store.working.bought || !w.comms {
        return true;
      }
      var correlation := store.working.issued;
      var sent := bus.Send(w.now, RequestLetter(w));
      if sent.Err? {
        return false;
      }
      NextMade(ws, 0, start);
      NextFault(faults, 0);
      ok := Commit(SetQuorum(Some(Quorum(correlation, w.tick, w.now))), ws, 1, start, faults);
      assert ws[..|ws|] == ws;
    }

    /** Tally the votes of an approved quorum. */
    method RecordVotes(votes: Ballots, tick: nat, ghost ws: seq<Write>, ghost start: Db, ghost faults: Faults)
      returns (ok: bool)
      requires Ready() && Made(ws, 0, start, faults) && VoteWrites(votes, tick) <= ws
      modifies store`working, store`committed, store`ledgerRevision, store`writeFaults, store`hits
      ensures Ready()
      ensures if ok then Made(ws, |votes|, start, faults) else Reaches(ws, start, FirstFault(faults))
    {
      hide Apply, ApplyAll, Numbered;
      ok := true;
      var i := 0;
      while i < |votes|
        invariant 0 <= i <= |votes| && ok
        invariant Ready() && Made(ws, i, start, faults)
      {
        assert ws[i] == VoteWrites(votes, tick)[i];
        ok := Commit(InsertVote(VoteRow(tick, votes[i].0, votes[i].1)), ws, i, start, faults);
        if !ok {
          return;
        }
        i := i + 1;
      }
    }

    /** Pay and note the purchase, when it is allowed and not made yet. */
    method Buy(w: World, ghost ws: seq<Write>, ghost done: nat, ghost start: Db, ghost faults: Faults)
      returns (ok: bool)
      requires Ready() && Made(ws, done, start, faults)
      requires store.working.bought == start.bought && store.working.rows == start.rows
      requires ws == ws[..done] + BuyWrites(w, start) + [SetQuorum(None)]
      modifies office.book, store
      ensures Ready()
      ensures if ok then Made(ws, |ws| - 1, start, faults) else Reaches(ws, start, FirstFault(faults))
    {
      hide Apply, ApplyAll, Numbered, OperatingCash;
      ok := true;
      if store.working.bought || !(w.sim || (w.token && w.allowLiveBuy)) {
        return;
      }
      PayIsPost(w, store.working);
      NextFault(faults, done);
      var paid := office.Pay(w.now, PRICE, INFRA, VPS_MEMO);
      if paid.Err? {
        return false;
      }
      if paid.value {
        assert ws[done] == BuyWrites(w, start)[0];
        NextMade(ws, done, start);
        assert ws[done + 1] == BuyWrites(w, start)[1];
        ok := Commit(SetBought, ws, done + 1, start, faults);
      }
    }

    /** All three seats have voted: conclude. */
    method Conclude(w: World, votes: Ballots)
      requires Ready() && store.working.quorum.Some?
      modifies office.book, store
      ensures Ready()
      ensures Reaches(ConcludeWrites(w, old(store.working), old(store.working).quorum.value, votes),
                      old(store.working), FirstFault(old(store.writeFaults)))
    {
      hide Apply, ApplyAll, Numbered, OperatingCash, Approved, BuyWrites;
      ghost var start, faults := store.working, store.writeFaults;
      var q := store.working.quorum.value;
      ghost var ws := ConcludeWrites(w, start, q, votes);
      NothingMade(ws, start);
      if Approved(votes) {
        var ok := RecordVotes(votes, q.tick, ws, start, faults);
        if ok {
          VotesOnly(votes, q.tick, start);
          assert ws[..|votes|] == VoteWrites(votes, q.tick);
          ok := Buy(w, ws, |votes|, start, faults);
        }
        if !ok {
          return;
        }
      }
      var _ := Commit(SetQuorum(None), ws, |ws| - 1, start, faults);
      assert ws[..|ws|] == ws;
    }

    /**
     One run of `operator`: it makes the commits of its plan in order, as far as the database lets it.
     */
    method Run(w: World)
      requires Ready() && w.env == bus.env
      modifies office.book, store
      ensures Ready()
      ensures store.working
              == Operate(w, old(store.working),
                         if old(store.working.quorum).None? then OpeningCut(old(store.writeFaults), old(store.exitFaults))
                         else FirstFault(old(store.writeFaults)))
    {
      hide Apply, ApplyAll, Numbered, OperatingCash, AllVoted, ConcludeWrites, OpenWrites, AnyExpired, Outstanding;
      ghost var start, faults := store.working, store.writeFaults;
      ghost var ws := OperatorWrites(w, start);
      NothingMade(ws, start);
      if store.working.quorum.None? {
        var _ := Open(w);
        return;
      }
      var q := store.working.quorum.value;
      if !w.comms {
        var _ := Commit(SetQuorum(None), ws, 0, start, faults);
        return;
      }
      var votes := CountVotes(Replies(store.working.messages, q.correlation));
      if AllVoted(votes) {
        Conclude(w, votes);
        return;
      }
      if AnyExpired(store.working.messages, q.correlation) || Outstanding(store.working.messages, q.correlation) == 0
         || w.now > q.requested + w.quorumWindow
      {
        var _ := Commit(SetQuorum(None), ws, 0, start, faults);
      }
    }

    lemma PayIsPost(w: World, db: Db)
      ensures var spec := Books.Pay(db, w.now, PRICE, INFRA, VPS_MEMO);
              && (spec.done <==> 0 < PRICE <= OperatingCash(db.rows))
              && spec.db == if spec.done then Apply(PostRow(Row(w.now, INFRA, USDC, PRICE, VPS_MEMO)), db) else db
    {
      hide OperatingCash;
    }

    lemma NothingMade(ws: seq<Write>, start: Db)
      ensures ApplyAll(ws[..0], start) == start
    {}
  }
}
