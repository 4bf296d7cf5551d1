/**
 Invoicing and treasury on the transactional store: each operation either does exactly what its
 specification in Books says, or raises and leaves the store as it found it.
 */
module Billing {
  import opened Tables
  import opened Ledger
  import opened Money
  import opened Invoices
  import opened Suspense
  import opened Books
  import opened Persistence
  import opened BalanceCache
  import opened PaymentRecord

  class Office {
    const store: Store
    const book: LedgerBook
    const mode: Mode

    constructor (book: LedgerBook, mode: Mode)
      ensures this.book == book && this.store == book.store && this.mode == mode
    {
      this.book := book;
      this.store := book.store;
      this.mode := mode;
    }

    ghost predicate Ready()
      reads this, store, book
    {
      book.store == store && store.Valid() && book.Coherent()
    }

    /**
     The contract of an operation: it returns what the specification returns and leaves its store, or it raises
     and, unless a nested RELEASE failed, changes nothing; and it raises only when the specification does or a
     statement failed.
     */
    twostate predicate Atomic(new r: Result<Invoice>, new spec: Result<Ticket>)
      reads store
    {
      && (r.Ok? ==> spec.Ok? && r.value == spec.value.invoice && store.working == spec.value.db)
      && (r.Err? ==> store.NothingOrLeak(if r.error == StoreError && spec.Ok? then Some(spec.value.db) else None))
      && (r.Err? && r.error != StoreError ==> spec == Err(r.error))
      && (r == Err(StoreError) ==> old(store.MayFail())) && store.Hit(r == Err(StoreError))
    }

    /** One write; raises when the database does. */
    method Put(w: Write) returns (r: Result<()>)
      requires Ready() && !w.PostRow?
      modifies store`working, store`committed, store`ledgerRevision, store`writeFaults, store`hits
      ensures Ready() && store.Restored()
      ensures store.working == if r.Ok? then Apply(w, old(store.working)) else old(store.working)
      ensures (r.Err? ==> r.error == StoreError && Strikes(old(store.writeFaults))) && store.Hit(r.Err?)
    {
      hide Apply;
      var ok := store.Execute(w);
      r := if ok then Ok(()) else Err(StoreError);
    }

    // ---- invoice.py ------------------------------------------------------------------------

    /** `_unique_open_amount`: count up from the quote past every amount an open invoice uses. */
    method UniqueOpenAmount(quoted: int) returns (cents: int)
      ensures cents == LeastFree(OpenCents(store.working.invoices), quoted)
    {
      var used := OpenCents(store.working.invoices);
      cents := quoted;
      while cents in used
        invariant quoted <= cents
        invariant LeastFree(used, quoted) == LeastFree(used, cents)
        decreases |AtLeast(used, cents)|
      {
        AtLeastShrinks(used, cents);
        cents := cents + 1;
      }
    }

    /** `issue`. */
    method Issue(now: int, job: JobCard, account: Account) returns (r: Result<Invoice>)
      requires Ready()
      modifies book, store
      ensures Ready() && store.Restored()
      ensures Atomic(r, Books.Issue(old(store.working), now, job, account))
    {
      hide Apply, Books.Issue;
      ghost var k := if store.depth == 0 then 0 else |store.savepoints|;
      var frame := store.Enter();
      r := IssueBody(now, job, account);
      r := store.Leave(frame, k, r);
    }

    method IssueBody(now: int, job: JobCard, account: Account) returns (r: Result<Invoice>)
      requires Ready() && store.depth > 0
      modifies book, store
      ensures Ready() && store.Restored()
      ensures var spec := Books.Issue(old(store.working), now, job, account);
              && (r.Ok? ==> spec.Ok? && r.value == spec.value.invoice && store.working == spec.value.db)
              && (r.Err? && r.error != StoreError ==> spec == Err(r.error))
              && (r == Err(StoreError) ==> old(store.MayFail())) && store.Hit(r == Err(StoreError))
    {
      hide Numbered, Ledger.Post, Upsert, FindByJob, QuoteCents, OpenCents, MemoFor, InvId, LeastFree;
      var existing := FindByJob(store.working.invoices, job.id);
      if existing.Some? && !existing.value.status.Void? {
        return Ok(existing.value);
      }
      var cents := UniqueOpenAmount(QuoteCents(job.price, job.fit));
      var inv := NewInvoice(job, cents, account);
      var _ :- Put(UpsertInvoice(inv));
      var _ :- Put(UpsertJob(job.id, Job("invoiced", cents, inv.id)));
      var _ :- book.Post(now, RECEIVABLE, UNEARNED, cents, "invoice " + inv.id);
      return Ok(inv);
    }

    method ReconcileState(state: PaymentState, minor: nat)
      requires Backed(state.View())
      modifies state
      ensures state.View() == Reconcile(old(state.View()), minor)
    {
      hide Backed, ConsumeAny;
      var consumed := state.ConsumeAnySuspense(minor);
      state.reserved := state.reserved + minor - consumed;
      state.manual := state.manual + minor;
    }

    /** `reconcile_manual_collection`: load the record, consume or reserve, store it back. */
    method ReconcileManual(minor: nat) returns (r: Result<()>)
      requires Ready() && Backed(LoadState(store.working))
      modifies store
      ensures Ready() && store.Restored()
      ensures var done := old(store.working).(pay := Some(Reconcile(LoadState(old(store.working)), minor)));
              && (r.Ok? ==> store.working == done)
              && (r.Err? ==> r.error == StoreError && old(store.MayFail()) && store.NothingOrLeak(Some(done)))
              && store.Hit(r.Err?)
    {
      hide Backed, LoadState, Reconcile, Numbered, Apply;
      ghost var k := if store.depth == 0 then 0 else |store.savepoints|;
      var frame := store.Enter();
      var state := new PaymentState(LoadState(store.working));
      ReconcileState(state, minor);
      PayIsSet(store.working, state.View());
      r := Put(SetPay(state.View()));
      r := store.Leave(frame, k, r);
    }

    /** `collect`. */
    method Collect(now: int, reference: string, source: string) returns (r: Result<Invoice>)
      requires Ready() && Backed(LoadState(store.working))
      modifies book, store
      ensures Ready() && store.Restored()
      ensures Atomic(r, Books.Collect(old(store.working), now, mode, reference, source))
    {
      hide Apply, Books.Collect, Backed, LoadState;
      ghost var k := if store.depth == 0 then 0 else |store.savepoints|;
      var frame := store.Enter();
      r := CollectBody(now, reference, source);
      r := store.Leave(frame, k, r);
    }

    method CollectBody(now: int, reference: string, source: string) returns (r: Result<Invoice>)
      requires Ready() && store.depth > 0 && Backed(LoadState(store.working))
      modifies book, store
      ensures Ready() && store.Restored()
      ensures var spec := Books.Collect(old(store.working), now, mode, reference, source);
              && (r.Ok? ==> spec.Ok? && r.value == spec.value.invoice && store.working == spec.value.db)
              && (r.Err? && r.error != StoreError ==> spec == Err(r.error))
              && (r == Err(StoreError) ==> old(store.MayFail())) && store.Hit(r == Err(StoreError))
    {
      hide Numbered, Settle, Lookup, LoadState, Backed, Reconcile, FromChain;
      var found := Lookup(store.working.invoices, reference);
      if found.None? {
        return Err(KeyError);
      }
      var inv := found.value;
      if !inv.status.Open? {
        return Ok(inv);
      }
      if inv.cents < 0 {
        return Err(ValueError);
      }
      if mode.Live? && !FromChain(source) {
        var _ :- ReconcileManual(Minor(inv));
      }
      r := SettleBody(now, inv, source);
    }

    /** The tail of `collect`. */
    method SettleBody(now: int, inv: Invoice, source: string) returns (r: Result<Invoice>)
      requires Ready() && store.depth > 0 && 0 <= inv.cents
      modifies book, store
      ensures Ready() && store.Restored()
      ensures r.Ok? ==> r.value == inv.(status := Paid, source := source)
                        && store.working == Settle(old(store.working), now, inv, source)
      ensures (r.Err? ==> r.error == StoreError && old(store.MayFail())) && store.Hit(r.Err?)
    {
      hide Numbered, Ledger.Post, Upsert;
      var _ :- book.Post(now, USDC, RECEIVABLE, inv.cents, "collect " + inv.id + " via " + source);
      var _ :- book.Post(now, UNEARNED, inv.account, inv.cents, "recognize " + inv.id);
      var paid := inv.(status := Paid, source := source);
      var _ :- Put(UpsertInvoice(paid));
      if inv.jobId in store.working.jobs {
        var _ :- Put(UpsertJob(inv.jobId, store.working.jobs[inv.jobId].(status := "paid")));
      }
      return Ok(paid);
    }

    /** `void`. */
    method Cancel(now: int, reference: string) returns (r: Result<Invoice>)
      requires Ready()
      modifies book, store
      ensures Ready() && store.Restored()
      ensures Atomic(r, Books.Cancel(old(store.working), now, reference))
    {
      hide Apply, Books.Cancel;
      ghost var k := if store.depth == 0 then 0 else |store.savepoints|;
      var frame := store.Enter();
      r := CancelBody(now, reference);
      r := store.Leave(frame, k, r);
    }

    method CancelBody(now: int, reference: string) returns (r: Result<Invoice>)
      requires Ready() && store.depth > 0
      modifies book, store
      ensures Ready() && store.Restored()
      ensures var spec := Books.Cancel(old(store.working), now, reference);
              && (r.Ok? ==> spec.Ok? && r.value == spec.value.invoice && store.working == spec.value.db)
              && (r.Err? && r.error != StoreError ==> spec == Err(r.error))
              && (r == Err(StoreError) ==> old(store.MayFail())) && store.Hit(r == Err(StoreError))
    {
      hide Numbered, Ledger.Post, Upsert, Lookup;
      var found := Lookup(store.working.invoices, reference);
      if found.None? {
        return Err(KeyError);
      }
      var inv := found.value;
      if !inv.status.Open? {
        return Ok(inv);
      }
      var _ :- book.Post(now, UNEARNED, RECEIVABLE, inv.cents, "void " + inv.id);
      inv := inv.(status := Void);
      var _ :- Put(UpsertInvoice(inv));
      return Ok(inv);
    }

    // ---- treasury.py -----------------------------------------------------------------------

    /** `operating_cash`: the two cash accounts of the cached or freshly aggregated balances. */
    method ReadOperatingCash() returns (cash: int)
      requires Ready()
      modifies book`cache, store`working, store`committed, store`dataVersion
      ensures Ready() && store.Restored()
      ensures cash == OperatingCash(old(store.working.rows)) && store.working == old(store.working)
    {
      hide Totals, OperatingCash, Balance, Read, Landed, ApplyAll, Numbered;
      var undisturbed := (k: nat) => [];
      var totals, hit, points := book.Balances(undisturbed);
      UndisturbedLandsNothing(undisturbed, points);
      NothingApplied(old(store.working));
      CashFromTotals(store.working.rows);
      cash := (if CASH in totals then totals[CASH] else 0) + (if USDC in totals then totals[USDC] else 0);
    }

    /** `receive`. */
    method Receive(now: int, cents: int, account: Account, memo: string) returns (r: Result<()>)
      requires Ready()
      modifies book, store
      ensures Ready() && store.Restored()
      ensures var spec := Books.Receive(old(store.working), now, cents, account, memo);
              && (r.Ok? ==> spec.Ok? && store.working == spec.value)
              && (r.Err? ==> store.working == old(store.working))
              && (r.Err? && r.error != StoreError ==> spec == Err(r.error))
              && (r == Err(StoreError) ==> Strikes(old(store.writeFaults))) && store.Hit(r == Err(StoreError))
    {
      hide Numbered, Ledger.Post;
      r := book.Post(now, USDC, account, cents, memo);
    }

    /** The trader's mark-to-market posting. */
    method Mark(now: int, gain: int) returns (r: Result<()>)
      requires Ready()
      modifies book, store
      ensures Ready() && store.Restored()
      ensures store.working == if r.Ok? then Books.Mark(old(store.working), now, gain) else old(store.working)
      ensures (r.Err? ==> r == Err(StoreError) && Strikes(old(store.writeFaults))) && store.Hit(r.Err?)
    {
      hide Numbered, Ledger.Post;
      if gain > 0 {
        r := book.Post(now, TRADING_BOOK, TRADING_PAPER, gain, "mtm gain");
      } else if gain < 0 {
        r := book.Post(now, TRADING_PAPER, TRADING_BOOK, -gain, "mtm loss");
      } else {
        r := Ok(());
      }
    }

    /** `pay`: spend only what operating cash covers. */
    method Pay(now: int, cents: int, account: Account, memo: string) returns (r: Result<bool>)
      requires Ready()
      modifies book, store
      ensures Ready() && store.Restored()
      ensures var spec := Books.Pay(old(store.working), now, cents, account, memo);
              && (r.Ok? ==> r.value == spec.done && store.working == spec.db)
              && (r.Err? ==> r.error == StoreError && Strikes(old(store.writeFaults)) && store.working == old(store.working))
              && store.Hit(r.Err?)
      ensures r.Err? <==> Books.Pay(old(store.working), now, cents, account, memo).done && Strikes(old(store.writeFaults))
      ensures store.writeFaults
              == if r == Ok(false) then old(store.writeFaults) else After(old(store.writeFaults), 1)
    {
      hide Numbered, Balance, Ledger.Post;
      if cents <= 0 {
        return Ok(false);
      }
      var cash := ReadOperatingCash();
      if cents > cash {
        return Ok(false);
      }
      var _ :- book.Post(now, account, USDC, cents, memo);
      return Ok(true);
    }

    /** `allocate_trading`: within cash, and within a tenth of it until the revenue goal is met. */
    method AllocateTrading(now: int, cents: int, goal: int) returns (r: Result<bool>)
      requires Ready()
      modifies book, store
      ensures Ready() && store.Restored()
      ensures var spec := Books.Allocate(old(store.working), now, cents, goal);
              && (r.Ok? ==> r.value == spec.done && store.working == spec.db)
              && (r.Err? ==> r.error == StoreError && Strikes(old(store.writeFaults)) && store.working == old(store.working))
              && store.Hit(r.Err?)
    {
      hide Numbered, Balance, Ledger.Post, Read;
      if cents <= 0 {
        return Ok(false);
      }
      var cash := ReadOperatingCash();
      if cash - cents < 0 {
        return Ok(false);
      }
      if Read(Earned(None), store.working.rows) < goal && cents * 10 > cash {
        return Ok(false);
      }
      var _ :- book.Post(now, TRADING_BOOK, USDC, cents, "alloc_trading");
      return Ok(true);
    }
  }

  lemma PayIsSet(db: Db, ps: PayState)
    ensures Apply(SetPay(ps), db) == db.(pay := Some(ps))
  {}

  lemma NothingApplied(db: Db)
    ensures ApplyAll([], db) == db
  {}

  /** `get(account, 0)` on the aggregation is the balance. */
  lemma CashFromTotals(rows: seq<Row>)
    ensures var totals := Totals(rows);
            (if CASH in totals then totals[CASH] else 0) + (if USDC in totals then totals[USDC] else 0) == OperatingCash(rows)
  {
    hide Read, Accounts;
    if CASH !in Totals(rows) {
      UnlistedIsZero(rows, CASH);
    }
    if USDC !in Totals(rows) {
      UnlistedIsZero(rows, USDC);
    }
  }

  lemma {:induction false} UndisturbedLandsNothing(moves: nat -> Interference, points: nat)
    requires forall k: nat :: moves(k) == []
    ensures Landed(moves, points) == []
  {
    if points > 0 {
      UndisturbedLandsNothing(moves, points - 1);
    }
  }
}
