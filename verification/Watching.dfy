/**
 One poll of the watcher, from what it saw to what it left: transfer logs when there are any, balances otherwise.
 */
module Watching {
  import opened Tables
  import opened Money
  import opened Invoices
  import opened Suspense
  import opened Books
  import opened Settlement
  import opened TransferLogs
  import opened Firm

  /** The balance, height and baseline of a chain, which only a balance read moves. */
  predicate SameReading(a: PayState, b: PayState) {
    forall c: Chain :: a.On(c).(lots := []) == b.On(c).(lots := [])
  }

  // ---- Logs --------------------------------------------------------------------------------

  lemma OneKeepsReading(p: Progress, now: int, t: Incoming)
    requires Sound(p)
    ensures SameReading(p.state, ProcessOne(p, now, t).state)
  {
    hide Sound, LeavesRest, Attribute;
    SoundState(p);
    SettlementExactly(p.state, t.minor);
    if KeyOf(t) !in p.db.txids {
      UnambiguousTransfer(p, now, t);
    }
  }

  lemma SoundState(p: Progress)
    requires Sound(p)
    ensures Backed(p.state)
  {}

  lemma {:induction false} LogsKeepReading(p: Progress, now: int, ts: seq<Incoming>)
    requires Sound(p)
    ensures SameReading(p.state, ProcessAll(p, now, ts).state)
    decreases |ts|
  {
    hide Sound, ProcessOne;
    if ts != [] {
      OneKeepsReading(p, now, ts[0]);
      ProcessOnePreserves(p, now, ts[0]);
      LogsKeepReading(ProcessOne(p, now, ts[0]), now, ts[1..]);
    }
  }

  function CentsOf(invoices: seq<Invoice>): int {
    if invoices == [] then 0 else CentsOf(invoices[..|invoices| - 1]) + invoices[|invoices| - 1].cents
  }

  /** What was added to the list of collected invoices is paid, and is what the counter rose by. */
  ghost predicate Collected(before: Progress, after: Progress) {
    && before.collected <= after.collected
    && (forall i :: |before.collected| <= i < |after.collected| ==> PaidAs(after.db.invoices, after.collected[i]))
    && after.state.auto - before.state.auto == (CentsOf(after.collected) - CentsOf(before.collected)) * MINOR_PER_CENT
  }

  lemma OneCollects(p: Progress, now: int, t: Incoming)
    requires Sound(p)
    ensures Collected(p, ProcessOne(p, now, t))
  {
    hide LeavesRest, Attribute, Backed, Find;
    SettlementExactly(p.state, t.minor);
    if KeyOf(t) !in p.db.txids {
      UnambiguousTransfer(p, now, t);
      var candidates := Candidates(p.db.invoices, t.minor);
      if candidates != [] {
        var inv := candidates[0];
        SettlePaid(p.db, now, inv, ChainSource(t.chain));
        var paid := inv.(status := Paid, source := ChainSource(t.chain));
        assert (p.collected + [paid])[..|p.collected|] == p.collected;
      }
    }
  }

  lemma {:induction false} LogsCollect(p: Progress, now: int, ts: seq<Incoming>)
    requires Sound(p)
    ensures Collected(p, ProcessAll(p, now, ts))
    decreases |ts|
  {
    hide Sound, ProcessOne, CentsOf, PaidAs;
    if ts != [] {
      var next, end := ProcessOne(p, now, ts[0]), ProcessAll(p, now, ts);
      OneCollects(p, now, ts[0]);
      ProcessOnePreserves(p, now, ts[0]);
      LogsCollect(next, now, ts[1..]);
      LogsKeepPaid(next, now, ts[1..]);
      forall i | |p.collected| <= i < |end.collected| ensures PaidAs(end.db.invoices, end.collected[i]) {
        if i < |next.collected| {
          assert PaidAs(next.db.invoices, next.collected[i]);
        }
      }
    }
  }

  /**
   A live poll whose configuration uses logs, and which got some, records every transfer it saw, moves the counter by
   exactly what it newly paid, and neither uses nor stores the balances it may also have read.
   */
  lemma LogsComeFirst(db: Db, now: int, ev: Evidence)
    requires BooksSound(db) && Backed(LoadState(db)) && ev.logs.Some? && ev.logs.value != []
    ensures var w := Watch(db, now, Live, true, ev);
            && w.db.txids.Keys == db.txids.Keys + KeysOf(ev.logs.value)
            && w.db.pay.Some? && SameReading(LoadState(db), w.db.pay.value)
            && w.db.pay.value.manual == LoadState(db).manual
            && w.db.pay.value.auto - LoadState(db).auto
               == Total(PaidTotal, w.db.invoices) * MINOR_PER_CENT - Total(PaidTotal, db.invoices) * MINOR_PER_CENT
            && (forall i :: 0 <= i < |w.collected| ==> PaidAs(w.db.invoices, w.collected[i]))
            && w.db.pay.value.auto - LoadState(db).auto == CentsOf(w.collected) * MINOR_PER_CENT
            && (forall eth, sol :: Watch(db, now, Live, true, Evidence(ev.logs, eth, sol)) == w)
  {
    hide Sound, BooksSound, Backed, LoadState, ProcessAll, Total, PaidAs;
    var p := Progress(db, LoadState(db), []);
    StartsSound(p);
    LogsCollect(p, now, ev.logs.value);
    LogsKeepReading(p, now, ev.logs.value);
    OnlyFirstSightingsCount(p, now, ev.logs.value);
    ProcessAllPreserves(p, now, ev.logs.value);
  }

  lemma StartsSound(p: Progress)
    requires BooksSound(p.db) && Backed(p.state)
    ensures Sound(p)
  {}

  // ---- Balances ----------------------------------------------------------------------------

  /** Matching labels what it settles with its chain. */
  lemma {:induction false} MatchLabels(db: Db, now: int, c: Chain, lots: seq<Lot>, i: nat)
    requires BooksSound(db) && i < |MatchLots(db, now, c, lots).settled|
    ensures MatchLots(db, now, c, lots).settled[i].source == (if c.Eth? then "chain:eth" else "chain:sol")
    decreases |lots|
  {
    hide BooksSound, Candidates, Settle;
    SettledNeedsLots(db, now, c, lots);
    var hit, next := MatchHead(db, now, c, lots);
    if !hit {
      MatchLabels(next, now, c, lots[1..], i);
    } else if i > 0 {
      MatchLabels(next, now, c, lots[1..], i - 1);
    }
  }

  /** Matching opens nothing: what is open after it was open, at its amount, before. */
  lemma {:induction false} MatchOpensNothing(db: Db, now: int, c: Chain, lots: seq<Lot>, inv: Invoice)
    requires BooksSound(db) && OpenAs(MatchLots(db, now, c, lots).db.invoices, inv)
    ensures OpenAs(db.invoices, inv)
    decreases |lots|
  {
    hide BooksSound, Candidates, Settle, Find;
    if lots != [] {
      var hit, next := MatchHead(db, now, c, lots);
      MatchOpensNothing(next, now, c, lots[1..], inv);
      if hit {
        CandidateSettles(db, now, c, lots[0].minor, 0);
        SettlePaid(db, now, Candidates(db.invoices, lots[0].minor)[0], ChainSource(c));
      }
    }
  }

  /** What matching one chain's queue settled: each lot with its invoice, open before and paid after. */
  ghost predicate SettledBy(before: Db, after: Db, c: Chain, lots: seq<Lot>, kept: seq<Lot>, settled: seq<Invoice>) {
    exists matched: seq<Lot> ::
      && Dealt(kept, matched, lots) && |settled| == |matched|
      && forall i :: 0 <= i < |settled| ==>
           && SettledExactly(before.invoices, after.invoices, matched[i], settled[i])
           && settled[i].source == ChainSource(c)
  }

  lemma ChainSettles(db: Db, ps: PayState, now: int, c: Chain, observed: bool)
    requires BooksSound(db)
    ensures var m := MatchChain(db, ps, now, c, observed);
            && (observed ==> SettledBy(db, m.db, c, ps.On(c).lots, m.state.On(c).lots, m.settled))
            && m.state == ps.With(c, ps.On(c).(lots := m.state.On(c).lots)).(auto := m.state.auto)
  {
    hide BooksSound, SettledExactly, MatchLots, Dealt;
    if observed {
      var lots := ps.On(c).lots;
      var m := MatchLots(db, now, c, lots);
      MatchDeals(db, now, c, lots);
      forall i | 0 <= i < |m.settled|
        ensures SettledExactly(db.invoices, m.db.invoices, m.matched[i], m.settled[i]) && m.settled[i].source == ChainSource(c)
      {
        MatchSettlesExactly(db, now, c, lots, i);
        MatchLabels(db, now, c, lots, i);
      }
    }
  }

  /** Later matching keeps what was settled, and what it settles was open from the start. */
  lemma SettledStays(a: Db, b: Db, now: int, c: Chain, lots: seq<Lot>, kept: seq<Lot>, settled: seq<Invoice>,
                     d: Chain, more: seq<Lot>)
    requires BooksSound(b) && SettledBy(a, b, c, lots, kept, settled)
    ensures SettledBy(a, MatchLots(b, now, d, more).db, c, lots, kept, settled)
  {
    hide BooksSound, MatchLots, Dealt;
    var after := MatchLots(b, now, d, more).db;
    var matched: seq<Lot> :|
      && Dealt(kept, matched, lots) && |settled| == |matched|
      && forall i :: 0 <= i < |settled| ==>
           SettledExactly(a.invoices, b.invoices, matched[i], settled[i]) && settled[i].source == ChainSource(c);
    forall i | 0 <= i < |settled| ensures SettledExactly(a.invoices, after.invoices, matched[i], settled[i]) {
      MatchKeepsPaid(b, now, d, more, settled[i]);
    }
  }

  lemma SettledBefore(a: Db, now: int, c: Chain, lots: seq<Lot>, after: Db, d: Chain, more: seq<Lot>, kept: seq<Lot>,
                      settled: seq<Invoice>)
    requires BooksSound(a) && SettledBy(MatchLots(a, now, c, lots).db, after, d, more, kept, settled)
    ensures SettledBy(a, after, d, more, kept, settled)
  {
    hide BooksSound, MatchLots, Dealt;
    var b := MatchLots(a, now, c, lots).db;
    var matched: seq<Lot> :|
      && Dealt(kept, matched, more) && |settled| == |matched|
      && forall i :: 0 <= i < |settled| ==>
           SettledExactly(b.invoices, after.invoices, matched[i], settled[i]) && settled[i].source == ChainSource(d);
    forall i | 0 <= i < |settled| ensures SettledExactly(a.invoices, after.invoices, matched[i], settled[i]) {
      MatchOpensNothing(a, now, c, lots, settled[i]);
    }
  }

  /** What matching left of one chain, whose read was accepted or not. */
  ghost predicate Polled(before: Db, after: Db, c: Chain, read: ChainState, left: ChainState, accepted: bool, settled: seq<Invoice>) {
    && left == read.(lots := left.lots)
    && if accepted then SettledBy(before, after, c, read.lots, left.lots, settled) && Exhausted(after.invoices, left.lots)
       else left == read && settled == []
  }

  /** One chain's queue after both chains were matched, Ethereum's first. */
  lemma EthPolled(db: Db, read: PayState, now: int, onEth: bool, onSol: bool)
    requires BooksSound(db) && Backed(read)
    ensures var first := MatchChain(db, read, now, Eth, onEth);
            var second := MatchChain(first.db, first.state, now, Sol, onSol);
            Polled(db, second.db, Eth, read.eth, second.state.eth, onEth, first.settled)
  {
    hide BooksSound, Backed, MatchLots, Exhausted, SettledBy, Held, Total;
    var first := MatchChain(db, read, now, Eth, onEth);
    MatchChainConserves(db, read, now, Eth, onEth);
    ChainSettles(db, read, now, Eth, onEth);
    if onEth && onSol {
      SettledStays(db, first.db, now, Eth, read.eth.lots, first.state.eth.lots, first.settled, Sol, first.state.sol.lots);
      ExhaustedStays(first.db, now, Sol, first.state.sol.lots, first.state.eth.lots);
    }
  }

  lemma SolPolled(db: Db, read: PayState, now: int, onEth: bool, onSol: bool)
    requires BooksSound(db) && Backed(read)
    ensures var first := MatchChain(db, read, now, Eth, onEth);
            var second := MatchChain(first.db, first.state, now, Sol, onSol);
            && Polled(db, second.db, Sol, read.sol, second.state.sol, onSol, second.settled)
            && second.state == read.(eth := second.state.eth, sol := second.state.sol, auto := second.state.auto)
            && second.db.txids == db.txids
  {
    hide BooksSound, Backed, MatchLots, Exhausted, SettledBy, Held, Total;
    var first := MatchChain(db, read, now, Eth, onEth);
    MatchChainConserves(db, read, now, Eth, onEth);
    ChainSettles(db, read, now, Eth, onEth);
    var second := MatchChain(first.db, first.state, now, Sol, onSol);
    MatchChainConserves(first.db, first.state, now, Sol, onSol);
    ChainSettles(first.db, first.state, now, Sol, onSol);
    if onEth && onSol {
      SettledBefore(db, now, Eth, read.eth.lots, second.db, Sol, first.state.sol.lots, second.state.sol.lots, second.settled);
    }
  }

  lemma StoringKeepsPolled(before: Db, after: Db, after': Db, c: Chain, read: ChainState, left: ChainState, accepted: bool,
                           settled: seq<Invoice>)
    requires after'.invoices == after.invoices && Polled(before, after, c, read, left, accepted, settled)
    ensures Polled(before, after', c, read, left, accepted, settled)
  {
    hide SettledExactly, Dealt, Exhausted;
  }

  /** Both chains after a poll of the balances, given the record as the reads left it. */
  ghost predicate BothPolled(before: Db, w: Watched, read: PayState, onEth: bool, onSol: bool) {
    && w.db.pay.Some? && w.db.txids == before.txids
    && var left := w.db.pay.value;
       && left == read.(eth := left.eth, sol := left.sol, auto := left.auto)
       && exists n: nat :: n <= |w.collected|
            && Polled(before, w.db, Eth, read.eth, left.eth, onEth, w.collected[..n])
            && Polled(before, w.db, Sol, read.sol, left.sol, onSol, w.collected[n..])
  }

  /** Storing the record after both matchings. */
  lemma Stored(db: Db, read: PayState, now: int, onEth: bool, onSol: bool, w: Watched)
    requires BooksSound(db) && Backed(read)
    requires var first := MatchChain(db, read, now, Eth, onEth);
             var second := MatchChain(first.db, first.state, now, Sol, onSol);
             w.db == second.db.(pay := Some(second.state)) && w.collected == first.settled + second.settled
    ensures BothPolled(db, w, read, onEth, onSol)
  {
    hide BooksSound, Backed, MatchChain, Polled;
    var first := MatchChain(db, read, now, Eth, onEth);
    var second := MatchChain(first.db, first.state, now, Sol, onSol);
    EthPolled(db, read, now, onEth, onSol);
    SolPolled(db, read, now, onEth, onSol);
    StoringKeepsPolled(db, second.db, w.db, Eth, read.eth, second.state.eth, onEth, first.settled);
    StoringKeepsPolled(db, second.db, w.db, Sol, read.sol, second.state.sol, onSol, second.settled);
    var n := |first.settled|;
    assert w.collected[..n] == first.settled && w.collected[n..] == second.settled;
  }

  lemma ReadsKeepBacked(ps: PayState, eth: Option<Observation>, sol: Option<Observation>)
    requires Backed(ps)
    ensures Backed(ObserveMaybe(ObserveMaybe(ps, Eth, eth).state, Sol, sol).state)
  {
    ObserveBoth(ps, eth, sol);
  }

  lemma BalancesPolled(db: Db, now: int, eth: Option<Observation>, sol: Option<Observation>)
    requires BooksSound(db) && Backed(LoadState(db)) && (eth.Some? || sol.Some?)
    ensures var w := WatchBalances(db, now, eth, sol);
            var e := ObserveMaybe(LoadState(db), Eth, eth); var s := ObserveMaybe(e.state, Sol, sol);
            && w.inflow == e.inflow + s.inflow && w.removed == e.removed + s.removed
            && BothPolled(db, w, s.state, e.freshness.Accepted?, s.freshness.Accepted?)
  {
    hide BooksSound, Backed, LoadState, ObserveMaybe, MatchChain, BothPolled;
    var e := ObserveMaybe(LoadState(db), Eth, eth);
    var s := ObserveMaybe(e.state, Sol, sol);
    ReadsKeepBacked(LoadState(db), eth, sol);
    Stored(db, s.state, now, e.freshness.Accepted?, s.freshness.Accepted?, WatchBalances(db, now, eth, sol));
  }

  /**
   A live poll without logs books each chain's read, and then settles from every queue that was freshly read until no
   lot of it names exactly one open invoice. The log table is left alone; without any read nothing happens.
   */
  lemma BalancesOtherwise(db: Db, now: int, useLogs: bool, ev: Evidence)
    requires BooksSound(db) && Backed(LoadState(db)) && !(useLogs && ev.logs.Some? && ev.logs.value != [])
    ensures var w := Watch(db, now, Live, useLogs, ev);
            if ev.eth.None? && ev.sol.None? then w == Watched(db, [], 0, 0)
            else
              var e := if ev.eth.Some? then Observe(LoadState(db), Eth, ev.eth.value) else Observed(LoadState(db), Repeated, 0, 0);
              var s := if ev.sol.Some? then Observe(e.state, Sol, ev.sol.value) else Observed(e.state, Repeated, 0, 0);
              && w.inflow == e.inflow + s.inflow && w.removed == e.removed + s.removed
              && BothPolled(db, w, s.state, e.freshness.Accepted?, s.freshness.Accepted?)
  {
    hide BooksSound, Backed, LoadState, Observe, WatchBalances, BothPolled, CollectLogs;
    QuietPoll(db, now);
    if ev.eth.Some? || ev.sol.Some? {
      BalancesPolled(db, now, ev.eth, ev.sol);
    }
  }

  /** In simulation the watcher does nothing. */
  lemma SimulationWatchesNothing(db: Db, now: int, useLogs: bool, ev: Evidence)
    ensures Watch(db, now, Sim, useLogs, ev) == Watched(db, [], 0, 0)
  {}
}
