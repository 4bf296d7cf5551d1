/**
 What billing and treasury operations do, read off the tables: every account's balance, every invoice, the job and
 the watcher's record, and nothing else.
 */
module Effects {
  import opened Tables
  import opened Money
  import opened Ledger
  import opened Invoices
  import opened Suspense
  import opened Books
  import opened Settlement

  // ---- Moves of money ----------------------------------------------------------------------

  function If(b: bool, n: int): int {
    if b then n else 0
  }

  /** Rows were only added, stamped `now`, and between them they moved `cents` from one account to another. */
  ghost predicate Moved(before: seq<Row>, after: seq<Row>, now: int, debit: Account, credit: Account, cents: int) {
    && before <= after && (forall i :: |before| <= i < |after| ==> after[i].ts == now)
    && forall a: Account :: Balance(after, a) == Balance(before, a) + If(a == debit, cents) - If(a == credit, cents)
  }

  lemma PostMoves(rows: seq<Row>, now: int, debit: Account, credit: Account, cents: nat, memo: string)
    ensures Moved(rows, Post(rows, now, debit, credit, cents, memo), now, debit, credit, cents)
  {
    hide Read;
    forall a: Account
      ensures Balance(Post(rows, now, debit, credit, cents, memo), a)
              == Balance(rows, a) + If(a == debit, cents) - If(a == credit, cents)
    {
      ReadPost(Of(a), rows, now, debit, credit, cents, memo);
    }
  }

  /** The rest of the store is as it was. */
  predicate SameElsewhere(before: Db, after: Db) {
    after == before.(invoices := after.invoices, jobs := after.jobs, rows := after.rows, pay := after.pay)
  }

  /** One invoice has this row now, and all the others are as they were. */
  ghost predicate OnlyInvoice(before: seq<Invoice>, after: seq<Invoice>, inv: Invoice) {
    Find(after, inv.id) == Some(inv) && forall id :: id != inv.id ==> Find(after, id) == Find(before, id)
  }

  // ---- Looking an invoice up ---------------------------------------------------------------

  /** A reference is an invoice id, or else the id of a job, of which a keyed table has at most one invoice. */
  lemma LookupExactly(invoices: seq<Invoice>, reference: string, i: nat)
    requires Keyed(invoices) && i < |invoices|
    ensures invoices[i].id == reference ==> Lookup(invoices, reference) == Some(invoices[i])
    ensures invoices[i].jobId == reference && (forall j :: 0 <= j < |invoices| ==> invoices[j].id != reference) ==>
              Lookup(invoices, reference) == Some(invoices[i])
    ensures Lookup(invoices, reference) == Some(invoices[i]) ==> reference in {invoices[i].id, invoices[i].jobId}
  {
    FindAt(invoices, i);
    var k := LookupAt(invoices, reference);
    var byJob := FindByJobAt(invoices, reference);
    if Find(invoices, reference).Some? {
      var at := UpsertAt(invoices, Invoice(reference, "", 0, LABOR, Open, "", ""));
    } else if byJob < |invoices| && invoices[i].jobId == reference {
      assert invoices[byJob].id == invoices[i].id;
    }
  }

  // ---- Billing -----------------------------------------------------------------------------

  /** The job has an invoice that was not voided. */
  predicate Billed(invoices: seq<Invoice>, jobId: string) {
    exists i :: 0 <= i < |invoices| && invoices[i].jobId == jobId && !invoices[i].status.Void?
  }

  lemma FoundByJob(invoices: seq<Invoice>, jobId: string)
    requires Keyed(invoices)
    ensures var found := FindByJob(invoices, jobId);
            && (Billed(invoices, jobId) <==> found.Some? && !found.value.status.Void?)
            && (found.Some? ==> found.value.jobId == jobId && Find(invoices, found.value.id) == found)
  {
    var k := FindByJobAt(invoices, jobId);
    if k < |invoices| {
      FindAt(invoices, k);
      forall i | 0 <= i < |invoices| && invoices[i].jobId == jobId ensures i == k {
        assert invoices[i].id == invoices[k].id;
      }
    }
  }

  /**
   A job that is billed already gets its invoice back. Any other is billed at the first cent from its quote up that no
   open invoice asks for, into receivable and unearned; a quote below zero is refused.
   */
  lemma IssueExactly(db: Db, now: int, job: JobCard, account: Account)
    requires Keyed(db.invoices)
    ensures var r, quote := Issue(db, now, job, account), QuoteCents(job.price, job.fit);
            if Billed(db.invoices, job.id) then
              && r.Ok? && r.value.db == db && r.value.invoice.jobId == job.id && !r.value.invoice.status.Void?
              && Find(db.invoices, r.value.invoice.id) == Some(r.value.invoice)
            else if quote < 0 then r == Err(ValueError)
            else
              && r.Ok?
              && var after, inv := r.value.db, r.value.invoice;
                 && inv == Invoice(InvId(job.id), job.id, inv.cents, account, Open, MemoFor(job.id), "")
                 && quote <= inv.cents && inv.cents !in OpenCents(db.invoices)
                 && (forall x :: quote <= x < inv.cents ==> x in OpenCents(db.invoices))
                 && OnlyInvoice(db.invoices, after.invoices, inv)
                 && after.jobs == db.jobs[job.id := Job("invoiced", inv.cents, inv.id)]
                 && Moved(db.rows, after.rows, now, RECEIVABLE, UNEARNED, inv.cents)
                 && after.pay == db.pay && SameElsewhere(db, after)
  {
    hide Moved, Post, MemoFor, QuoteCents, LeastFree;
    FoundByJob(db.invoices, job.id);
    var cents := LeastFree(OpenCents(db.invoices), QuoteCents(job.price, job.fit));
    assert forall x :: x in OpenCents(db.invoices) ==> 0 <= x;
    assert QuoteCents(job.price, job.fit) < 0 ==> QuoteCents(job.price, job.fit) !in OpenCents(db.invoices);
    if !Billed(db.invoices, job.id) && 0 <= cents {
      var inv := NewInvoice(job, cents, account);
      UpsertKeyed(db.invoices, inv);
      PostMoves(db.rows, now, RECEIVABLE, UNEARNED, cents, "invoice " + inv.id);
    }
  }

  /** A job's positive price is its quote, to the nearest cent; otherwise its fit sets one between $450 and $1350. */
  lemma QuoteExactly(price: real, fit: real)
    ensures var quote := QuoteCents(price, fit);
            if price >= 0.005 then Abs(quote as real - price * 100.0) <= 0.5 && quote >= 1
            else Abs(quote as real - (45000.0 + 90000.0 * (if fit == 0.0 then 0.5 else fit))) <= 0.5
                 && (0.0 < fit <= 1.0 ==> 45000 <= quote <= 135000)
  {
    var x := price * 100.0;
    var y := (450.0 + (if fit == 0.0 then 0.5 else fit) * 900.0) * 100.0;
    NearestHalf(x);
    NearestHalf(y);
  }

  lemma NearestHalf(x: real)
    ensures Abs(RoundHalfUp(x) as real - x) <= 0.5
    ensures RoundHalfUp(x) > 0 <==> x >= 0.5
  {}

  // ---- Collecting and voiding --------------------------------------------------------------

  /** What paying one open invoice does to the tables. */
  ghost predicate Paying(before: Db, after: Db, now: int, inv: Invoice, source: string) {
    && PaidAs(after.invoices, inv.(status := Paid, source := source))
    && OnlyInvoice(before.invoices, after.invoices, inv.(status := Paid, source := source))
    && before.rows <= after.rows && (forall i :: |before.rows| <= i < |after.rows| ==> after.rows[i].ts == now)
    && (forall a: Account :: Balance(after.rows, a)
          == Balance(before.rows, a) + If(a == USDC, inv.cents) - If(a == RECEIVABLE, inv.cents)
             + If(a == UNEARNED, inv.cents) - If(a == inv.account, inv.cents))
    && after.jobs == (if inv.jobId in before.jobs
                      then before.jobs[inv.jobId := before.jobs[inv.jobId].(status := "paid")] else before.jobs)
    && SameElsewhere(before, after)
  }

  lemma MovedTwice(a: seq<Row>, b: seq<Row>, c: seq<Row>, now: int, d1: Account, c1: Account, d2: Account, c2: Account, cents: int)
    requires Moved(a, b, now, d1, c1, cents) && Moved(b, c, now, d2, c2, cents)
    ensures a <= c && forall i :: |a| <= i < |c| ==> c[i].ts == now
    ensures forall x: Account :: Balance(c, x)
              == Balance(a, x) + If(x == d1, cents) - If(x == c1, cents) + If(x == d2, cents) - If(x == c2, cents)
  {
    hide Balance;
    forall i | |a| <= i < |c| ensures c[i].ts == now {
      if i < |b| {
        assert c[i] == b[i];
      }
    }
  }

  lemma SettleExactly(db: Db, now: int, inv: Invoice, source: string)
    requires Keyed(db.invoices) && Find(db.invoices, inv.id) == Some(inv) && 0 <= inv.cents && inv.id == InvId(inv.jobId)
    ensures Paying(db, Settle(db, now, inv, source), now, inv, source) && Settle(db, now, inv, source).pay == db.pay
  {
    hide Post, Balance;
    var moved := Post(db.rows, now, USDC, RECEIVABLE, inv.cents, "collect " + inv.id + " via " + source);
    var both := Post(moved, now, UNEARNED, inv.account, inv.cents, "recognize " + inv.id);
    PostMoves(db.rows, now, USDC, RECEIVABLE, inv.cents, "collect " + inv.id + " via " + source);
    PostMoves(moved, now, UNEARNED, inv.account, inv.cents, "recognize " + inv.id);
    MovedTwice(db.rows, moved, both, now, USDC, RECEIVABLE, UNEARNED, inv.account, inv.cents);
    UpsertKeyed(db.invoices, inv.(status := Paid, source := source));
  }

  lemma FoundIsSound(db: Db, reference: string)
    requires Keyed(db.invoices) && Lookup(db.invoices, reference).Some?
    ensures var inv := Lookup(db.invoices, reference).value;
            Find(db.invoices, inv.id) == Some(inv) && 0 <= inv.cents && inv.id == InvId(inv.jobId)
  {
    var i := LookupAt(db.invoices, reference);
  }

  /**
   Collecting an open invoice pays it under any source: its amount goes from receivable to USDC and from unearned to
   its income account, and its job is paid. Outside the chain, in live mode, the record attributes it by hand, from
   suspense first; in every other case the record is left alone. A closed invoice comes back as it is.
   */
  lemma CollectExactly(db: Db, now: int, mode: Mode, reference: string, source: string)
    requires Keyed(db.invoices) && Backed(LoadState(db))
    ensures var r, found := Collect(db, now, mode, reference, source), Lookup(db.invoices, reference);
            if found.None? then r == Err(KeyError)
            else if !found.value.status.Open? then r == Ok(Ticket(db, found.value))
            else
              && r.Ok?
              && var after, inv := r.value.db, found.value;
                 && r.value.invoice == inv.(status := Paid, source := source)
                 && Paying(db, after, now, inv, source)
                 && if mode.Live? && !("chain" <= source) then
                      && after.pay.Some? && SettlesFrom(LoadState(db), after.pay.value, Minor(inv))
                      && after.pay.value.manual == LoadState(db).manual + Minor(inv)
                      && after.pay.value.auto == LoadState(db).auto
                    else after.pay == db.pay
  {
    hide Balance, Post, Backed, LoadState, Reconcile, SettlesFrom, Settle;
    if Lookup(db.invoices, reference).Some? {
      FoundIsSound(db, reference);
      var inv := Lookup(db.invoices, reference).value;
      var reconciled := db.(pay := Some(Reconcile(LoadState(db), Minor(inv))));
      SettlementExactly(LoadState(db), Minor(inv));
      SettleExactly(db, now, inv, source);
      SettleExactly(reconciled, now, inv, source);
      assert Paying(db, Settle(reconciled, now, inv, source), now, inv, source);
    }
  }

  /** Voiding an open invoice takes its amount off receivable and unearned; a closed one comes back as it is. */
  lemma CancelExactly(db: Db, now: int, reference: string)
    requires Keyed(db.invoices)
    ensures var r, found := Cancel(db, now, reference), Lookup(db.invoices, reference);
            if found.None? then r == Err(KeyError)
            else if !found.value.status.Open? then r == Ok(Ticket(db, found.value))
            else
              && r.Ok?
              && var after, inv := r.value.db, found.value.(status := Void);
                 && r.value.invoice == inv && OnlyInvoice(db.invoices, after.invoices, inv)
                 && Moved(db.rows, after.rows, now, UNEARNED, RECEIVABLE, inv.cents)
                 && after.jobs == db.jobs && after.pay == db.pay && SameElsewhere(db, after)
  {
    hide Moved, Post;
    if Lookup(db.invoices, reference).Some? {
      FoundIsSound(db, reference);
      var inv := Lookup(db.invoices, reference).value;
      PostMoves(db.rows, now, UNEARNED, RECEIVABLE, inv.cents, "void " + inv.id);
      UpsertKeyed(db.invoices, inv.(status := Void));
    }
  }

  // ---- Treasury ----------------------------------------------------------------------------

  predicate OnlyRows(before: Db, after: Db) {
    after == before.(rows := after.rows)
  }

  /** Receiving is refused only below zero, paying exactly when the two cash accounts do not cover it. */
  lemma TreasuryExactly(db: Db, now: int, cents: int, account: Account, memo: string)
    ensures var r := Receive(db, now, cents, account, memo);
            if cents < 0 then r == Err(ValueError)
            else r.Ok? && OnlyRows(db, r.value) && Moved(db.rows, r.value.rows, now, USDC, account, cents)
    ensures var paid := Pay(db, now, cents, account, memo);
            && (paid.done <==> 0 < cents <= Balance(db.rows, CASH) + Balance(db.rows, USDC))
            && OnlyRows(db, paid.db)
            && if paid.done then Moved(db.rows, paid.db.rows, now, account, USDC, cents) else paid.db == db
  {
    hide Moved, Post, Balance;
    if 0 <= cents {
      PostMoves(db.rows, now, USDC, account, cents, memo);
      PostMoves(db.rows, now, account, USDC, cents, memo);
    }
  }

  /** Trading money comes from cash, all of it once revenue meets the goal and at most a tenth of it before. */
  lemma TradingExactly(db: Db, now: int, cents: int, goal: int)
    ensures var cash := Balance(db.rows, CASH) + Balance(db.rows, USDC);
            var r := Allocate(db, now, cents, goal);
            && (r.done <==> 0 < cents <= cash && (goal <= Read(Earned(None), db.rows) || cents * 10 <= cash))
            && OnlyRows(db, r.db)
            && if r.done then Moved(db.rows, r.db.rows, now, TRADING_BOOK, USDC, cents) else r.db == db
    ensures OnlyRows(db, Mark(db, now, cents)) && Moved(db.rows, Mark(db, now, cents).rows, now, TRADING_BOOK, TRADING_PAPER, cents)
  {
    hide Read, Post;
    if 0 <= cents {
      PostMoves(db.rows, now, TRADING_BOOK, USDC, cents, "alloc_trading");
      PostMoves(db.rows, now, TRADING_BOOK, TRADING_PAPER, cents, "mtm gain");
    } else {
      PostMoves(db.rows, now, TRADING_PAPER, TRADING_BOOK, -cents, "mtm loss");
    }
  }

  lemma {:induction false} MentionsExactly(s: string, word: string)
    ensures Mentions(s, word) <==> exists i :: 0 <= i <= |s| && OccursAt(s, word, i)
    decreases |s|
  {
    if EndsWith(s, word) {
      assert OccursAt(s, word, |s| - |word|);
    } else if s != "" {
      var rest := s[..|s| - 1];
      MentionsExactly(rest, word);
      forall i | 0 <= i <= |rest| && OccursAt(rest, word, i) ensures OccursAt(s, word, i) {
        assert rest[i..i + |word|] == s[i..i + |word|];
      }
      forall i | 0 <= i <= |s| && OccursAt(s, word, i) ensures OccursAt(rest, word, i) && i <= |rest| {
        assert i + |word| != |s|;
        assert rest[i..i + |word|] == s[i..i + |word|];
      }
    }
  }

  /**
   Revenue is what was credited, less what was debited, since then to income accounts that neither end in `_paper` nor
   mention `unearned`. Billed work and collected invoices of such accounts count when they are recognised.
   */
  lemma RevenueExactly(rows: seq<Row>, since: Option<int>, now: int, debit: Account, credit: Account, cents: nat, memo: string)
    ensures var counts := (a: Account) =>
              a.kind.IncomeKind? && !Contains(a.name, "unearned")
              && !(|a.name| >= 6 && a.name[|a.name| - 6..] == "_paper");
            Read(Earned(since), Post(rows, now, debit, credit, cents, memo))
            == Read(Earned(since), rows)
               + If(since.None? || since.value <= now, If(counts(credit), cents) - If(counts(debit), cents))
  {
    hide Read, Post;
    ReadPost(Earned(since), rows, now, debit, credit, cents, memo);
    MentionsExactly(debit.name, "unearned");
    MentionsExactly(credit.name, "unearned");
  }

  // ---- The four checks ---------------------------------------------------------------------

  /**
   What the ledger checks find, on any books: receivable, unearned and open invoices agree to the cent and USDC is not
   overdrawn by more than one. The accounting identity adds nothing: it holds exactly when unearned agrees.
   */
  lemma ChecksExactly(db: Db)
    ensures var open := Total(OpenTotal, db.invoices); var checks := VerifyInvariants(db);
            var unearned := -1 <= -Balance(db.rows, UNEARNED) - open <= 1;
            && |checks| == 4
            && checks[0] == Check("accounting_identity", unearned)
            && checks[1] == Check("receivable_matches_open_invoices", -1 <= Balance(db.rows, RECEIVABLE) - open <= 1)
            && checks[2] == Check("unearned_matches_open_invoices", unearned)
            && checks[3] == Check("non_negative_cash", -1 <= Balance(db.rows, USDC))
  {
    hide Read, Total;
    PrefixesCancel(db.rows);
  }
}
