/**
 The two evidence paths that settle invoices: transfer logs deduplicated by transaction id, and exact
 matching of suspense lots found by balance deltas.
 */
module Settlement {
  import opened Tables
  import opened Ledger
  import opened Money
  import opened Invoices
  import opened Suspense
  import opened Books

  function ChainSource(c: Chain): string {
    match c case Eth => "chain:eth" case Sol => "chain:sol"
  }

  /** `collect` by the watcher, as its callers read it: the paid invoice, or nothing. */
  function CollectFromChain(db: Db, now: int, id: string, c: Chain): Option<Ticket> {
    var r := Collect(db, now, Live, id, ChainSource(c));
    if r.Ok? && r.value.invoice.status.Paid? then Some(r.value) else None
  }

  // ---- Exact matching of suspense lots -----------------------------------------------------

  /** `matched` lists the lots that left the queue, beside the invoices they settled. */
  datatype Matched = Matched(db: Db, kept: seq<Lot>, matched: seq<Lot>, settled: seq<Invoice>)

  /** One chain's pass of `_match_suspense`. */
  function MatchLots(db: Db, now: int, c: Chain, lots: seq<Lot>): Matched
    decreases |lots|
  {
    if lots == [] then Matched(db, [], [], [])
    else
      var candidates := Candidates(db.invoices, lots[0].minor);
      var ticket := if |candidates| == 1 && !lots[0].tainted
                    then CollectFromChain(db, now, candidates[0].id, c) else None;
      if ticket.Some? then
        var rest := MatchLots(ticket.value.db, now, c, lots[1..]);
        rest.(matched := [lots[0]] + rest.matched, settled := [ticket.value.invoice] + rest.settled)
      else
        var rest := MatchLots(db, now, c, lots[1..]);
        rest.(kept := [lots[0]] + rest.kept)
  }

  /** A candidate of a sound table is found by its id and settles. */
  lemma CandidateSettles(db: Db, now: int, c: Chain, minor: int, k: nat)
    requires BooksSound(db) && k < |Candidates(db.invoices, minor)|
    ensures var inv := Candidates(db.invoices, minor)[k];
            && Find(db.invoices, inv.id) == Some(inv) && inv.status.Open? && Minor(inv) == minor && 0 <= inv.cents
            && inv.id == InvId(inv.jobId)
            && CollectFromChain(db, now, inv.id, c)
               == Some(Ticket(Settle(db, now, inv, ChainSource(c)), inv.(status := Paid, source := ChainSource(c))))
            && BooksSound(Settle(db, now, inv, ChainSource(c)))
            && Total(PaidTotal, Settle(db, now, inv, ChainSource(c)).invoices)
               == Total(PaidTotal, db.invoices) + inv.cents
  {
    var i := CandidateAt(db.invoices, minor, k);
    FindAt(db.invoices, i);
    SettleKeepsBooks(db, now, db.invoices[i], ChainSource(c));
    assert "chain" <= ChainSource(c);
  }

  /** How a settlement changes the number of open invoices of any amount. */
  lemma SettleCounts(db: Db, now: int, inv: Invoice, source: string, minor: int)
    requires Find(db.invoices, inv.id) == Some(inv) && inv.status.Open? && 0 <= inv.cents
    ensures Total(OpenOf(minor), Settle(db, now, inv, source).invoices)
            == Total(OpenOf(minor), db.invoices) - (if Minor(inv) == minor then 1 else 0)
  {
    UpsertTotal(OpenOf(minor), db.invoices, inv.(status := Paid, source := source));
  }

  /** What one pass over a queue needs to know about its first lot. */
  lemma MatchHead(db: Db, now: int, c: Chain, lots: seq<Lot>) returns (hit: bool, next: Db)
    requires BooksSound(db) && lots != []
    ensures hit <==> |Candidates(db.invoices, lots[0].minor)| == 1 && !lots[0].tainted
    ensures !hit ==> next == db && MatchLots(db, now, c, lots)
                                   == var rest := MatchLots(db, now, c, lots[1..]); rest.(kept := [lots[0]] + rest.kept)
    ensures hit ==>
              var inv := Candidates(db.invoices, lots[0].minor)[0];
              && 0 <= inv.cents
              && next == Settle(db, now, inv, ChainSource(c))
              && MatchLots(db, now, c, lots)
                 == (var rest := MatchLots(next, now, c, lots[1..]);
                     rest.(matched := [lots[0]] + rest.matched,
                           settled := [inv.(status := Paid, source := ChainSource(c))] + rest.settled))
    ensures BooksSound(next)
  {
    var candidates := Candidates(db.invoices, lots[0].minor);
    hit := |candidates| == 1 && !lots[0].tainted;
    next := db;
    if hit {
      CandidateSettles(db, now, c, lots[0].minor, 0);
      next := Settle(db, now, candidates[0], ChainSource(c));
    }
  }

  /** Matching keeps the books and moves exactly the matched lots from suspense to paid invoices. */
  lemma {:induction false} MatchConserves(db: Db, now: int, c: Chain, lots: seq<Lot>)
    requires BooksSound(db)
    ensures var m := MatchLots(db, now, c, lots);
            && BooksSound(m.db)
            && SumLots(m.kept) + SumLots(m.matched) == SumLots(lots)
            && (Total(PaidTotal, m.db.invoices) - Total(PaidTotal, db.invoices)) * MINOR_PER_CENT == SumLots(m.matched)
            && m.db == db.(invoices := m.db.invoices, jobs := m.db.jobs, rows := m.db.rows)
    decreases |lots|
  {
    if lots != [] {
      hide Candidates, MatchLots, BooksSound;
      var hit, next := MatchHead(db, now, c, lots);
      MatchConserves(next, now, c, lots[1..]);
      var rest := MatchLots(next, now, c, lots[1..]);
      if hit {
        CandidateSettles(db, now, c, lots[0].minor, 0);
        assert ([lots[0]] + rest.matched)[1..] == rest.matched;
      } else {
        assert ([lots[0]] + rest.kept)[1..] == rest.kept;
      }
    }
  }

  /** An amount's count of open invoices can only fall, and only from one to none. */
  lemma {:induction false} MatchCounts(db: Db, now: int, c: Chain, lots: seq<Lot>, minor: int)
    requires BooksSound(db)
    ensures var before, after := Total(OpenOf(minor), db.invoices), Total(OpenOf(minor), MatchLots(db, now, c, lots).db.invoices);
            after == before || (before == 1 && after == 0)
    decreases |lots|
  {
    if lots != [] {
      var hit, next := MatchHead(db, now, c, lots);
      MatchCounts(next, now, c, lots[1..], minor);
      if hit {
        CandidateSettles(db, now, c, lots[0].minor, 0);
        CandidatesCount(db.invoices, lots[0].minor);
        SettleCounts(db, now, Candidates(db.invoices, lots[0].minor)[0], ChainSource(c), minor);
      }
    }
  }

  predicate Exhausted(invoices: seq<Invoice>, lots: seq<Lot>) {
    forall i :: 0 <= i < |lots| && !lots[i].tainted ==> |Candidates(invoices, lots[i].minor)| != 1
  }

  /** The fixpoint: no untainted survivor has exactly one open invoice of its amount left to settle. */
  lemma {:induction false} MatchReachesFixpoint(db: Db, now: int, c: Chain, lots: seq<Lot>)
    requires BooksSound(db)
    ensures var m := MatchLots(db, now, c, lots); Exhausted(m.db.invoices, m.kept)
    decreases |lots|
  {
    if lots != [] {
      hide Candidates, Total, MatchLots, BooksSound, Settle;
      var hit, next := MatchHead(db, now, c, lots);
      MatchReachesFixpoint(next, now, c, lots[1..]);
      if !hit && !lots[0].tainted {
        MatchCounts(db, now, c, lots[1..], lots[0].minor);
        CandidatesCount(db.invoices, lots[0].minor);
        CandidatesCount(MatchLots(db, now, c, lots[1..]).db.invoices, lots[0].minor);
      }
    }
  }

  /** Matching a later chain cannot reopen work on an earlier one. */
  lemma ExhaustedStays(db: Db, now: int, c: Chain, lots: seq<Lot>, earlier: seq<Lot>)
    requires BooksSound(db) && Exhausted(db.invoices, earlier)
    ensures Exhausted(MatchLots(db, now, c, lots).db.invoices, earlier)
  {
    var after := MatchLots(db, now, c, lots).db.invoices;
    forall i | 0 <= i < |earlier| && !earlier[i].tainted ensures |Candidates(after, earlier[i].minor)| != 1 {
      MatchCounts(db, now, c, lots, earlier[i].minor);
      CandidatesCount(db.invoices, earlier[i].minor);
      CandidatesCount(after, earlier[i].minor);
    }
  }

  /** `a` and `b` are `whole` dealt into two piles, each keeping its order. */
  predicate Dealt(a: seq<Lot>, b: seq<Lot>, whole: seq<Lot>)
    decreases |whole|
  {
    if whole == [] then a == [] && b == []
    else
      || (a != [] && a[0] == whole[0] && Dealt(a[1..], b, whole[1..]))
      || (b != [] && b[0] == whole[0] && Dealt(a, b[1..], whole[1..]))
  }

  predicate PaidAs(invoices: seq<Invoice>, inv: Invoice) {
    inv.status.Paid? && Find(invoices, inv.id) == Some(inv)
  }

  predicate OpenAs(invoices: seq<Invoice>, inv: Invoice) {
    var before := Find(invoices, inv.id);
    before.Some? && before.value.status.Open? && before.value.cents == inv.cents
  }

  lemma SettlePaid(db: Db, now: int, inv: Invoice, source: string)
    requires BooksSound(db) && Find(db.invoices, inv.id) == Some(inv) && inv.status.Open?
    ensures 0 <= inv.cents
    ensures var after := Settle(db, now, inv, source).invoices;
            && PaidAs(after, inv.(status := Paid, source := source))
            && (forall id :: id != inv.id ==> Find(after, id) == Find(db.invoices, id))
  {
    SettleKeepsBooks(db, now, inv, source);
    UpsertKeyed(db.invoices, inv.(status := Paid, source := source));
  }

  /** Matching never touches an invoice that is already paid. */
  lemma {:induction false} MatchKeepsPaid(db: Db, now: int, c: Chain, lots: seq<Lot>, inv: Invoice)
    requires BooksSound(db) && PaidAs(db.invoices, inv)
    ensures PaidAs(MatchLots(db, now, c, lots).db.invoices, inv)
    decreases |lots|
  {
    if lots != [] {
      var hit, next := MatchHead(db, now, c, lots);
      if hit {
        CandidateSettles(db, now, c, lots[0].minor, 0);
        SettlePaid(db, now, Candidates(db.invoices, lots[0].minor)[0], ChainSource(c));
      }
      MatchKeepsPaid(next, now, c, lots[1..], inv);
    }
  }

  /** Each settled invoice was open before, is paid after, and its lot was exactly its amount. */
  predicate SettledExactly(before: seq<Invoice>, after: seq<Invoice>, lot: Lot, inv: Invoice) {
    OpenAs(before, inv) && PaidAs(after, inv) && Minor(inv) == lot.minor && !lot.tainted
  }

  lemma {:induction false} MatchDeals(db: Db, now: int, c: Chain, lots: seq<Lot>)
    requires BooksSound(db)
    ensures var m := MatchLots(db, now, c, lots); Dealt(m.kept, m.matched, lots) && |m.settled| == |m.matched|
    decreases |lots|
  {
    if lots != [] {
      hide BooksSound, Candidates, Settle;
      var hit, next := MatchHead(db, now, c, lots);
      MatchDeals(next, now, c, lots[1..]);
      var m, rest := MatchLots(db, now, c, lots), MatchLots(next, now, c, lots[1..]);
      if hit {
        assert m.matched[1..] == rest.matched;
      } else {
        assert m.kept[1..] == rest.kept;
      }
    }
  }

  /** The first lot of the queue and the invoice it settles, when it does settle. */
  lemma MatchFirst(db: Db, now: int, c: Chain, lots: seq<Lot>) returns (hit: bool, next: Db)
    requires BooksSound(db) && lots != []
    ensures BooksSound(next)
    ensures hit ==>
              var m, rest := MatchLots(db, now, c, lots), MatchLots(next, now, c, lots[1..]);
              && m.db == rest.db && m.matched == [lots[0]] + rest.matched
              && m.settled != [] && m.settled == [m.settled[0]] + rest.settled
              && SettledExactly(db.invoices, m.db.invoices, lots[0], m.settled[0])
              && PaidAs(next.invoices, m.settled[0])
              && (forall id :: id != m.settled[0].id ==> Find(next.invoices, id) == Find(db.invoices, id))
    ensures !hit ==>
              var m, rest := MatchLots(db, now, c, lots), MatchLots(next, now, c, lots[1..]);
              next == db && m.db == rest.db && m.matched == rest.matched && m.settled == rest.settled
  {
    hide MatchLots, BooksSound, Find, Candidates;
    hit, next := MatchHead(db, now, c, lots);
    if hit {
      CandidateSettles(db, now, c, lots[0].minor, 0);
      SettlePaid(db, now, Candidates(db.invoices, lots[0].minor)[0], ChainSource(c));
      MatchKeepsPaid(next, now, c, lots[1..], MatchLots(db, now, c, lots).settled[0]);
    }
  }

  lemma SettledNeedsLots(db: Db, now: int, c: Chain, lots: seq<Lot>)
    requires MatchLots(db, now, c, lots).settled != []
    ensures lots != []
  {}

  /** Every settled invoice was open at exactly its lot's amount and ends paid, and none is settled twice. */
  lemma {:induction false} MatchSettlesExactly(db: Db, now: int, c: Chain, lots: seq<Lot>, i: nat)
    requires BooksSound(db) && i < |MatchLots(db, now, c, lots).settled|
    ensures var m := MatchLots(db, now, c, lots);
            && |m.matched| == |m.settled|
            && SettledExactly(db.invoices, m.db.invoices, m.matched[i], m.settled[i])
            && forall j :: i < j < |m.settled| ==> m.settled[i].id != m.settled[j].id
    decreases |lots|
  {
    SettledNeedsLots(db, now, c, lots);
    hide MatchLots, BooksSound, Find, Dealt, Candidates;
    MatchDeals(db, now, c, lots);
    var hit, next := MatchFirst(db, now, c, lots);
    var m := MatchLots(db, now, c, lots);
    if !hit {
      MatchSettlesExactly(next, now, c, lots[1..], i);
    } else if i > 0 {
      MatchSettlesExactly(next, now, c, lots[1..], i - 1);
      assert OpenAs(next.invoices, m.settled[i]);
    } else {
      forall j | 0 < j < |m.settled| ensures m.settled[0].id != m.settled[j].id {
        MatchSettlesExactly(next, now, c, lots[1..], j - 1);
        assert OpenAs(next.invoices, m.settled[j]);
      }
    }
  }

  lemma FifoCons(lots: seq<Lot>, rest: seq<Lot>, lotSequence: int)
    requires lots != [] && Positive(lots) && Fifo(lots, lotSequence) && Positive(rest) && Fifo(rest, lotSequence)
    requires forall i :: 0 <= i < |rest| ==> rest[i] in lots[1..]
    ensures Positive([lots[0]] + rest) && Fifo([lots[0]] + rest, lotSequence)
    ensures forall i :: 0 <= i < |rest| ==> rest[i] in lots
  {
    forall i | 0 <= i < |rest| ensures rest[i] in lots && lots[0].number < rest[i].number {
      var j :| 0 <= j < |lots[1..]| && lots[1..][j] == rest[i];
      assert lots[1 + j] == rest[i];
    }
  }

  lemma FifoTail(lots: seq<Lot>, lotSequence: int)
    requires lots != [] && Positive(lots) && Fifo(lots, lotSequence)
    ensures Positive(lots[1..]) && Fifo(lots[1..], lotSequence)
  {}

  lemma {:induction false} DealtFifo(kept: seq<Lot>, matched: seq<Lot>, lots: seq<Lot>, lotSequence: int)
    requires Dealt(kept, matched, lots) && Positive(lots) && Fifo(lots, lotSequence)
    ensures Positive(kept) && Fifo(kept, lotSequence)
    ensures forall i :: 0 <= i < |kept| ==> kept[i] in lots
    decreases |lots|
  {
    if lots != [] {
      FifoTail(lots, lotSequence);
      if kept != [] && kept[0] == lots[0] && Dealt(kept[1..], matched, lots[1..]) {
        DealtFifo(kept[1..], matched, lots[1..], lotSequence);
        FifoCons(lots, kept[1..], lotSequence);
        assert kept == [lots[0]] + kept[1..];
      } else {
        DealtFifo(kept, matched[1..], lots[1..], lotSequence);
      }
    }
  }

  /** `_match_suspense` on one fresh chain, with the counter it advances. */
  datatype ChainMatch = ChainMatch(db: Db, state: PayState, settled: seq<Invoice>)

  function MatchChain(db: Db, ps: PayState, now: int, c: Chain, observed: bool): ChainMatch {
    if !observed then ChainMatch(db, ps, [])
    else
      var m := MatchLots(db, now, c, ps.On(c).lots);
      ChainMatch(m.db, ps.With(c, ps.On(c).(lots := m.kept)).(auto := ps.auto + SumLots(m.matched)), m.settled)
  }

  lemma MatchChainConserves(db: Db, ps: PayState, now: int, c: Chain, observed: bool)
    requires BooksSound(db) && Backed(ps)
    ensures var m := MatchChain(db, ps, now, c, observed);
            && BooksSound(m.db) && Backed(m.state) && Held(m.state) == Held(ps)
            && m.state.manual == ps.manual
            && m.state.auto - ps.auto == (Total(PaidTotal, m.db.invoices) - Total(PaidTotal, db.invoices)) * MINOR_PER_CENT
            && m.db == db.(invoices := m.db.invoices, jobs := m.db.jobs, rows := m.db.rows)
            && (!observed ==> m == ChainMatch(db, ps, []))
            && (observed ==> Exhausted(m.db.invoices, m.state.On(c).lots))
            && (forall other :: other != c ==> m.state.On(other) == ps.On(other))
  {
    hide BooksSound, Backed, Held, MatchLots, Exhausted, SumLots, ChainBacked, Total;
    if observed {
      var lots := ps.On(c).lots;
      var m := MatchLots(db, now, c, lots);
      MatchConserves(db, now, c, lots);
      MatchReachesFixpoint(db, now, c, lots);
      BackedChain(ps, c);
      MatchKeepsChain(db, now, c, ps.On(c), ps.lotSequence);
      MatchedRecord(ps, c, m.kept, SumLots(m.matched));
    }
  }

  /** Moving matched lots from a queue to the counter keeps the record backed and the conserved quantity. */
  lemma MatchedRecord(ps: PayState, c: Chain, kept: seq<Lot>, matched: int)
    requires Backed(ps) && ChainBacked(ps.On(c).(lots := kept), ps.lotSequence)
    requires 0 <= matched && SumLots(kept) + matched == SumLots(ps.On(c).lots)
    ensures var next := ps.With(c, ps.On(c).(lots := kept)).(auto := ps.auto + matched);
            && Backed(next) && Held(next) == Held(ps)
            && next.On(c).lots == kept && forall other :: other != c ==> next.On(other) == ps.On(other)
  {
    hide ChainBacked, SumLots;
  }

  lemma MatchKeepsChain(db: Db, now: int, c: Chain, cs: ChainState, lotSequence: int)
    requires BooksSound(db) && ChainBacked(cs, lotSequence)
    ensures ChainBacked(cs.(lots := MatchLots(db, now, c, cs.lots).kept), lotSequence)
    ensures 0 <= SumLots(MatchLots(db, now, c, cs.lots).matched)
  {
    hide BooksSound, MatchLots;
    var m := MatchLots(db, now, c, cs.lots);
    MatchConserves(db, now, c, cs.lots);
    MatchDeals(db, now, c, cs.lots);
    DealtFifo(m.kept, m.matched, cs.lots, lotSequence);
    MatchedPositive(m.kept, m.matched, cs.lots);
  }

  lemma {:induction false} MatchedPositive(kept: seq<Lot>, matched: seq<Lot>, lots: seq<Lot>)
    requires Dealt(kept, matched, lots) && Positive(lots)
    ensures 0 <= SumLots(matched)
    decreases |lots|
  {
    if lots != [] {
      if kept != [] && kept[0] == lots[0] && Dealt(kept[1..], matched, lots[1..]) {
        MatchedPositive(kept[1..], matched, lots[1..]);
      } else {
        MatchedPositive(kept, matched[1..], lots[1..]);
      }
    }
  }
}
