/**
 `watch_and_collect` on the transactional store: loops that rewrite the record in place and settle
 invoices one by one, proved to compute what Settlement, TransferLogs and Firm specify.
 */
module Watcher {
  import opened Tables
  import opened Invoices
  import opened Suspense
  import opened Books
  import opened Settlement
  import opened TransferLogs
  import opened Firm
  import opened Persistence
  import opened BalanceCache
  import opened PaymentRecord
  import opened Billing

  /** The matching that started as `start` has stepped over `index` lots and settled `matched`. */
  predicate Along(start: Matched, db: Db, now: int, c: Chain, lots: seq<Lot>, index: nat, matched: seq<Lot>,
                  collected: seq<Invoice>)
  {
    && index <= |lots|
    && var rest := MatchLots(db, now, c, lots[index..]);
       start == Matched(rest.db, lots[..index] + rest.kept, matched + rest.matched, collected + rest.settled)
  }

  lemma AlongStart(db: Db, now: int, c: Chain, lots: seq<Lot>)
    ensures Along(MatchLots(db, now, c, lots), db, now, c, lots, 0, [], [])
  {
    hide MatchLots;
    assert lots[0..] == lots;
  }

  lemma AlongSettled(start: Matched, db: Db, db': Db, now: int, c: Chain, lots: seq<Lot>, index: nat,
                     matched: seq<Lot>, collected: seq<Invoice>, inv: Invoice)
    requires Along(start, db, now, c, lots, index, matched, collected) && index < |lots|
    requires var after := MatchLots(db', now, c, lots[index..][1..]);
             MatchLots(db, now, c, lots[index..])
             == after.(matched := [lots[index]] + after.matched, settled := [inv] + after.settled)
    ensures Along(start, db', now, c, lots[..index] + lots[index + 1..], index, matched + [lots[index]], collected + [inv])
  {
    hide MatchLots;
    var popped := lots[..index] + lots[index + 1..];
    assert popped[..index] == lots[..index] && popped[index..] == lots[index..][1..];
  }

  lemma AlongKept(start: Matched, db: Db, db': Db, now: int, c: Chain, lots: seq<Lot>, index: nat,
                  matched: seq<Lot>, collected: seq<Invoice>)
    requires Along(start, db, now, c, lots, index, matched, collected) && index < |lots|
    requires var after := MatchLots(db', now, c, lots[index..][1..]);
             MatchLots(db, now, c, lots[index..]) == after.(kept := [lots[index]] + after.kept)
    ensures Along(start, db', now, c, lots, index + 1, matched, collected)
  {
    hide MatchLots;
    assert lots[index..][1..] == lots[index + 1..] && lots[..index] + [lots[index]] == lots[..index + 1];
  }

  lemma AlongEnd(start: Matched, db: Db, now: int, c: Chain, lots: seq<Lot>, matched: seq<Lot>, collected: seq<Invoice>)
    requires Along(start, db, now, c, lots, |lots|, matched, collected)
    ensures start == Matched(db, lots, matched, collected)
  {
    assert lots[|lots|..] == [] && lots[..|lots|] == lots;
    MatchNothing(db, now, c);
  }

  class PaymentWatcher {
    const office: Office

    constructor (office: Office)
      ensures this.office == office
    {
      this.office := office;
    }

    /** A failed statement is the only way out, and it leaves everything to the caller's transaction. */
    twostate predicate OnlyFaults<T>(new r: Result<T>)
      reads office.store
    {
      (r.Err? ==> r.error == StoreError && old(office.store.MayFail())) && office.store.Hit(r.Err?)
    }

    /** One chain of `_match_suspense`: settle and pop a lot, or step over it. */
    method MatchQueue(now: int, state: PaymentState, c: Chain) returns (r: Result<seq<Invoice>>)
      requires office.Ready() && office.store.depth > 0 && BooksSound(office.store.working)
      requires Backed(LoadState(office.store.working))
      modifies office.book, office.store, state
      ensures office.Ready() && office.store.Restored() && OnlyFaults(r)
      ensures r.Ok? ==>
                var m := MatchChain(old(office.store.working), old(state.View()), now, c, true);
                office.store.working == m.db && state.View() == m.state && r.value == m.settled
    {
      hide Numbered, BooksSound, Backed, LoadState, MatchLots, SumLots, Candidates, Along;
      var store := office.store;
      ghost var start := MatchLots(store.working, now, c, state.View().On(c).lots);
      ghost var matched: seq<Lot> := [];
      var collected: seq<Invoice> := [];
      SumLotsNothing();
      AlongStart(store.working, now, c, state.View().On(c).lots);
      var index := 0;
      while index < |state.View().On(c).lots|
        invariant 0 <= index <= |state.View().On(c).lots| && store.Hit(false)
        invariant office.Ready() && office.store.Restored() && BooksSound(store.working) && Backed(LoadState(store.working))
        invariant Along(start, store.working, now, c, state.View().On(c).lots, index, matched, collected)
        invariant state.View() == old(state.View()).With(c, old(state.View()).On(c).(lots := state.View().On(c).lots))
                                                   .(auto := old(state.View()).auto + SumLots(matched))
        decreases |state.View().On(c).lots| - index
      {
        ghost var lots, db := state.View().On(c).lots, store.working;
        var settled :- TryLot(now, state, c, index);
        if settled.Some? {
          SumLotsOne(matched, lots[index]);
          AlongSettled(start, db, store.working, now, c, lots, index, matched, collected, settled.value);
          matched, collected := matched + [lots[index]], collected + [settled.value];
        } else {
          AlongKept(start, db, store.working, now, c, lots, index, matched, collected);
          index := index + 1;
        }
      }
      AlongEnd(start, store.working, now, c, state.View().On(c).lots, matched, collected);
      r := Ok(collected);
    }

    /** The lot at `index`: settle its one open invoice and pop it, or leave it where it is. */
    method TryLot(now: int, state: PaymentState, c: Chain, index: nat) returns (r: Result<Option<Invoice>>)
      requires office.Ready() && office.store.depth > 0 && BooksSound(office.store.working)
      requires Backed(LoadState(office.store.working)) && index < |state.View().On(c).lots|
      modifies office.book, office.store, state
      ensures office.Ready() && office.store.Restored() && OnlyFaults(r)
      ensures r.Ok? ==>
                var lots := old(state.View()).On(c).lots; var tail := lots[index..];
                var before := MatchLots(old(office.store.working), now, c, tail);
                var after := MatchLots(office.store.working, now, c, tail[1..]);
                && BooksSound(office.store.working) && Backed(LoadState(office.store.working))
                && (r.value.Some? ==>
                      && before == after.(matched := [lots[index]] + after.matched, settled := [r.value.value] + after.settled)
                      && state.View() == old(state.View()).With(c, old(state.View()).On(c).(lots := lots[..index] + lots[index + 1..]))
                                                          .(auto := old(state.View()).auto + lots[index].minor))
                && (r.value.None? ==> before == after.(kept := [lots[index]] + after.kept) && state.View() == old(state.View()))
    {
      hide Numbered, BooksSound, Backed, LoadState, MatchLots, Candidates;
      var store := office.store;
      var lots := state.View().On(c).lots;
      var lot := lots[index];
      assert lots[index..][0] == lot;
      ghost var hit, next := MatchHead(store.working, now, c, lots[index..]);
      var candidates := Candidates(store.working.invoices, lot.minor);
      if |candidates| != 1 || lot.tainted {
        return Ok(None);
      }
      CandidateSettles(store.working, now, c, lot.minor, 0);
      CollectIgnoresMode(store.working, now, office.mode, candidates[0].id, c);
      LoadOnlyReadsRecord(store.working, next);
      var settled :- office.Collect(now, candidates[0].id, ChainSource(c));
      state.auto := state.auto + lot.minor;
      state.SetLots(c, lots[..index] + lots[index + 1..]);  // lots.pop(index)
      return Ok(Some(settled));
    }

    /** `_collect_from_tx_logs` after the fetch: skip what was seen, settle or record the rest, persist. */
    method CollectFromLogs(now: int, transfers: seq<Incoming>) returns (r: Result<seq<Invoice>>)
      requires office.Ready() && BooksSound(office.store.working) && Backed(LoadState(office.store.working))
      modifies office.book, office.store
      ensures office.Ready() && office.store.Restored() && OnlyFaults(r)
      ensures var p := CollectLogs(old(office.store.working), now, transfers);
              if r.Ok? then office.store.working == p.db && r.value == p.collected
              else office.store.NothingOrLeak(Some(p.db))
    {
      hide Numbered, BooksSound, Backed, LoadState, ProcessAll;
      var store := office.store;
      ghost var k := if store.depth == 0 then 0 else |store.savepoints|;
      var frame := store.Enter();
      r := CollectFromLogsBody(now, transfers);
      r := store.Leave(frame, k, r);
    }

    method CollectFromLogsBody(now: int, transfers: seq<Incoming>) returns (r: Result<seq<Invoice>>)
      requires office.Ready() && office.store.depth > 0
      requires BooksSound(office.store.working) && Backed(LoadState(office.store.working))
      modifies office.book, office.store
      ensures office.Ready() && office.store.Restored() && OnlyFaults(r)
      ensures var p := CollectLogs(old(office.store.working), now, transfers);
              r.Ok? ==> office.store.working == p.db && r.value == p.collected
    {
      hide Numbered, BooksSound, Backed, LoadState, ProcessAll, ProcessOne;
      var store := office.store;
      var state := new PaymentState(LoadState(store.working));
      ghost var start := ProcessAll(Progress(store.working, state.View(), []), now, transfers);
      var collected: seq<Invoice> := [];
      var i := 0;
      while i < |transfers|
        invariant 0 <= i <= |transfers| && store.Hit(false)
        invariant office.Ready() && office.store.Restored()
        invariant BooksSound(store.working) && Backed(state.View()) && Backed(LoadState(store.working))
        invariant start == ProcessAll(Progress(store.working, state.View(), collected), now, transfers[i..])
      {
        ghost var p := Progress(store.working, state.View(), collected);
        var t := transfers[i];
        ProcessAllStep(p, now, transfers[i..]);
        assert transfers[i..][0] == t && transfers[i..][1..] == transfers[i + 1..];
        ProcessOnePreserves(p, now, t);
        LoadOnlyReadsRecord(p.db, ProcessOne(p, now, t).db);
        collected :- Consider(now, state, t, collected);
        i := i + 1;
      }
      assert transfers[i..] == [];
      ProcessNothing(Progress(store.working, state.View(), collected), now);
      var _ :- office.Put(SetPay(state.View()));
      r := Ok(collected);
    }

    /** One transfer of the loop, with `_settle_transfer`. */
    method Consider(now: int, state: PaymentState, t: Incoming, collected: seq<Invoice>) returns (r: Result<seq<Invoice>>)
      requires office.Ready() && office.store.depth > 0
      requires BooksSound(office.store.working) && Backed(state.View()) && Backed(LoadState(office.store.working))
      modifies office.book, office.store, state
      ensures office.Ready() && office.store.Restored() && OnlyFaults(r)
      ensures r.Ok? ==> Progress(office.store.working, state.View(), r.value)
                        == ProcessOne(Progress(old(office.store.working), old(state.View()), collected), now, t)
    {
      hide Numbered, BooksSound, Backed, LoadState, Candidates, Attribute;
      var store := office.store;
      if KeyOf(t) in store.working.txids {
        return Ok(collected);
      }
      ghost var p := Progress(store.working, state.View(), collected);
      UnambiguousTransfer(p, now, t);
      var candidates := Disambiguate(Candidates(store.working.invoices, t.minor), t.memo);
      if |candidates| == 1 {
        CandidateSettles(store.working, now, t.chain, t.minor, 0);
        CollectIgnoresMode(store.working, now, office.mode, candidates[0].id, t.chain);
        var settled :- office.Collect(now, candidates[0].id, ChainSource(t.chain));
        AttributeTo(state, t.minor);
        var _ :- office.Put(RecordTxid(KeyOf(t), TxRecord(t.minor, Some(settled.id))));
        return Ok(collected + [settled]);
      }
      var _ :- office.Put(RecordTxid(KeyOf(t), TxRecord(t.minor, None)));
      return Ok(collected);
    }

    /** Log settlements consume suspense that already holds the inflow and reserve the remainder. */
    method AttributeTo(state: PaymentState, minor: nat)
      requires Backed(state.View())
      modifies state
      ensures state.View() == Attribute(old(state.View()), minor)
    {
      hide Backed, ConsumeAny;
      var consumed := state.ConsumeAnySuspense(minor);
      state.reserved := state.reserved + minor - consumed;
      state.auto := state.auto + minor;
    }

    /** The balance path: observe each chain that answered, match on those that were fresh, persist. */
    method WatchBalances(now: int, eth: Option<Observation>, sol: Option<Observation>) returns (r: Result<seq<Invoice>>)
      requires office.Ready() && BooksSound(office.store.working) && Backed(LoadState(office.store.working))
      modifies office.book, office.store
      ensures office.Ready() && office.store.Restored() && OnlyFaults(r)
      ensures var w := Firm.WatchBalances(old(office.store.working), now, eth, sol);
              if r.Ok? then office.store.working == w.db && r.value == w.collected
              else office.store.NothingOrLeak(Some(w.db))
    {
      hide Numbered, BooksSound, Backed, LoadState, Firm.WatchBalances;
      var store := office.store;
      QuietPoll(store.working, now);
      if eth.None? && sol.None? {
        return Ok([]);
      }
      ghost var k := if store.depth == 0 then 0 else |store.savepoints|;
      var frame := store.Enter();
      r := WatchBalancesBody(now, eth, sol);
      r := store.Leave(frame, k, r);
    }

    method WatchBalancesBody(now: int, eth: Option<Observation>, sol: Option<Observation>)
      returns (r: Result<seq<Invoice>>)
      requires office.Ready() && office.store.depth > 0 && (eth.Some? || sol.Some?)
      requires BooksSound(office.store.working) && Backed(LoadState(office.store.working))
      modifies office.book, office.store
      ensures office.Ready() && office.store.Restored() && OnlyFaults(r)
      ensures var w := Firm.WatchBalances(old(office.store.working), now, eth, sol);
              r.Ok? ==> office.store.working == w.db && r.value == w.collected
    {
      hide Numbered, BooksSound, Backed, LoadState, MatchChain, Observe, Apply, Held, Total, Exhausted;
      var store := office.store;
      var state := new PaymentState(LoadState(store.working));
      var e := ObserveAnswer(state, Eth, eth);
      var s := ObserveAnswer(state, Sol, sol);
      MatchUnobserved(store.working, state.View(), now);
      ghost var db, ps := store.working, state.View();
      var first: seq<Invoice> := [];
      if e.Accepted? {
        first :- MatchQueue(now, state, Eth);
      }
      MatchChainConserves(db, ps, now, Eth, e.Accepted?);
      LoadOnlyReadsRecord(db, store.working);
      MatchUnobserved(store.working, state.View(), now);
      var second: seq<Invoice> := [];
      if s.Accepted? {
        second :- MatchQueue(now, state, Sol);
      }
      PayIsSet(store.working, state.View());
      var _ :- office.Put(SetPay(state.View()));
      r := Ok(first + second);
    }

    method ObserveAnswer(state: PaymentState, c: Chain, obs: Option<Observation>) returns (freshness: Freshness)
      requires Backed(state.View())
      modifies state
      ensures freshness == ObserveMaybe(old(state.View()), c, obs).freshness
      ensures state.View() == ObserveMaybe(old(state.View()), c, obs).state
      ensures Backed(state.View())
    {
      hide Backed, Observe;
      if obs.None? {
        return Repeated;
      }
      freshness := state.ObserveBalance(c, obs.value);
    }

    /** `watch_and_collect`: live mode only; logs first, balances when no chain produced any. */
    method WatchAndCollect(now: int, useLogs: bool, ev: Evidence) returns (r: Result<seq<Invoice>>)
      requires office.Ready() && BooksSound(office.store.working) && Backed(LoadState(office.store.working))
      modifies office.book, office.store
      ensures office.Ready() && office.store.Restored() && OnlyFaults(r)
      ensures var w := Watch(old(office.store.working), now, office.mode, useLogs, ev);
              if r.Ok? then office.store.working == w.db && r.value == w.collected
              else office.store.NothingOrLeak(Some(w.db))
    {
      hide Numbered, BooksSound, Backed, LoadState, Firm.WatchBalances, CollectLogs;
      if !office.mode.Live? {
        return Ok([]);
      }
      if useLogs && ev.logs.Some? && ev.logs.value != [] {
        r := CollectFromLogs(now, ev.logs.value);
      } else {
        r := WatchBalances(now, ev.eth, ev.sol);
      }
    }
  }

  /** A chain source skips reconciliation, so the mode does not matter. */
  lemma CollectIgnoresMode(db: Db, now: int, mode: Mode, id: string, c: Chain)
    ensures Books.Collect(db, now, mode, id, ChainSource(c)) == Books.Collect(db, now, Live, id, ChainSource(c))
  {
    assert FromChain(ChainSource(c));
  }

  lemma SumLotsOne(lots: seq<Lot>, lot: Lot)
    ensures SumLots(lots + [lot]) == SumLots(lots) + lot.minor
  {
    SumLotsConcat(lots, [lot]);
  }

  lemma SumLotsNothing()
    ensures SumLots([]) == 0
  {}

  lemma MatchNothing(db: Db, now: int, c: Chain)
    ensures MatchLots(db, now, c, []) == Matched(db, [], [], [])
  {}

  lemma MatchUnobserved(db: Db, ps: PayState, now: int)
    ensures forall c :: MatchChain(db, ps, now, c, false) == ChainMatch(db, ps, [])
  {}

  lemma ProcessAllStep(p: Progress, now: int, ts: seq<Incoming>)
    requires ts != []
    ensures ProcessAll(p, now, ts) == ProcessAll(ProcessOne(p, now, ts[0]), now, ts[1..])
  {}

  lemma ProcessNothing(p: Progress, now: int)
    ensures ProcessAll(p, now, []) == p
  {}
}
