/**
 Billing and treasury operations on the store, as values, and the books invariant they keep.
 */
module Books {
  import opened Tables
  import opened Money
  import opened Ledger
  import opened Invoices
  import opened Suspense

  datatype Mode = Sim | Live

  datatype Ticket = Ticket(db: Db, invoice: Invoice)

  datatype JobCard = JobCard(id: string, price: real, fit: real)

  predicate FromChain(source: string) {
    "chain" <= source
  }

  // ---- Invoices ----------------------------------------------------------------------------

  function NewInvoice(job: JobCard, cents: int, account: Account): Invoice {
    Invoice(InvId(job.id), job.id, cents, account, Open, MemoFor(job.id), "")
  }

  /** `issue`: return the job's live invoice, or bill it at the first free amount. */
  function Issue(db: Db, now: int, job: JobCard, account: Account): Result<Ticket> {
    var existing := FindByJob(db.invoices, job.id);
    if existing.Some? && !existing.value.status.Void? then Ok(Ticket(db, existing.value))
    else
      var cents := LeastFree(OpenCents(db.invoices), QuoteCents(job.price, job.fit));
      if cents < 0 then Err(ValueError)
      else
        var inv := NewInvoice(job, cents, account);
        Ok(Ticket(db.(invoices := Upsert(db.invoices, inv),
                      jobs := db.jobs[job.id := Job("invoiced", cents, inv.id)],
                      rows := Post(db.rows, now, RECEIVABLE, UNEARNED, cents, "invoice " + inv.id)),
                  inv))
  }

  function PaidJobs(jobs: map<string, Job>, jobId: string): map<string, Job> {
    if jobId in jobs then jobs[jobId := jobs[jobId].(status := "paid")] else jobs
  }

  /** The tail of `collect`: move the money, recognise the income, mark the invoice and its job paid. */
  function Settle(db: Db, now: int, inv: Invoice, source: string): Db
    requires 0 <= inv.cents
  {
    var moved := Post(db.rows, now, USDC, RECEIVABLE, inv.cents, "collect " + inv.id + " via " + source);
    db.(rows := Post(moved, now, UNEARNED, inv.account, inv.cents, "recognize " + inv.id),
        invoices := Upsert(db.invoices, inv.(status := Paid, source := source)),
        jobs := PaidJobs(db.jobs, inv.jobId))
  }

  /** `collect`. Outside the chain watcher a live collection also reconciles the watcher's record. */
  function Collect(db: Db, now: int, mode: Mode, reference: string, source: string): Result<Ticket> {
    var found := Lookup(db.invoices, reference);
    if found.None? then Err(KeyError)
    else if !found.value.status.Open? then Ok(Ticket(db, found.value))
    else if found.value.cents < 0 then Err(ValueError)
    else
      var inv := found.value;
      var reconciled :=
        if mode.Live? && !FromChain(source) then db.(pay := Some(Reconcile(LoadState(db), Minor(inv)))) else db;
      Ok(Ticket(Settle(reconciled, now, inv, source), inv.(status := Paid, source := source)))
  }

  /** `void`: take an open invoice off the books. */
  function Cancel(db: Db, now: int, reference: string): Result<Ticket> {
    var found := Lookup(db.invoices, reference);
    if found.None? then Err(KeyError)
    else if !found.value.status.Open? then Ok(Ticket(db, found.value))
    else if found.value.cents < 0 then Err(ValueError)
    else
      var inv := found.value;
      Ok(Ticket(db.(rows := Post(db.rows, now, UNEARNED, RECEIVABLE, inv.cents, "void " + inv.id),
                    invoices := Upsert(db.invoices, inv.(status := Void))),
                inv.(status := Void)))
  }

  // ---- Treasury ----------------------------------------------------------------------------

  datatype Transfer = Transfer(db: Db, done: bool)

  function Receive(db: Db, now: int, cents: int, account: Account, memo: string): Result<Db> {
    if cents < 0 then Err(ValueError)
    else Ok(db.(rows := Post(db.rows, now, USDC, account, cents, memo)))
  }

  predicate CanSpend(rows: seq<Row>, cents: int) {
    0 < cents <= OperatingCash(rows)
  }

  function Pay(db: Db, now: int, cents: int, account: Account, memo: string): Transfer {
    if !CanSpend(db.rows, cents) then Transfer(db, false)
    else Transfer(db.(rows := Post(db.rows, now, account, USDC, cents, memo)), true)
  }

  /** `allocate_trading`: never more than the cash, and at most a tenth of it before the revenue goal. */
  function Allocate(db: Db, now: int, cents: int, goal: int): Transfer {
    if cents <= 0 || OperatingCash(db.rows) - cents < 0 then Transfer(db, false)
    else if Read(Earned(None), db.rows) < goal && cents * 10 > OperatingCash(db.rows) then Transfer(db, false)
    else Transfer(db.(rows := Post(db.rows, now, TRADING_BOOK, USDC, cents, "alloc_trading")), true)
  }

  /** The trader's mark-to-market entry. */
  function Mark(db: Db, now: int, gain: int): Db {
    if gain > 0 then db.(rows := Post(db.rows, now, TRADING_BOOK, TRADING_PAPER, gain, "mtm gain"))
    else if gain < 0 then db.(rows := Post(db.rows, now, TRADING_PAPER, TRADING_BOOK, -gain, "mtm loss"))
    else db
  }

  // ---- verify_invariants -------------------------------------------------------------------

  datatype Check = Check(name: string, ok: bool)

  predicate Within(diff: int, tolerance: int) {
    -tolerance <= diff <= tolerance
  }

  /** The four ledger checks, each with the source's tolerance of one cent. */
  function VerifyInvariants(db: Db): seq<Check> {
    var open := Total(OpenTotal, db.invoices);
    var unearned := -Balance(db.rows, UNEARNED);
    var otherLiabilities := -(Read(Prefix(LiabilityKind), db.rows) + unearned);
    var equity := -Read(Prefix(EquityKind), db.rows);
    var netIncome := -Read(Prefix(IncomeKind), db.rows) - Read(Prefix(ExpenseKind), db.rows);
    var assets := Read(Prefix(AssetKind), db.rows);
    [ Check("accounting_identity", Within(assets - (open + otherLiabilities + equity + netIncome), 1)),
      Check("receivable_matches_open_invoices", Within(Balance(db.rows, RECEIVABLE) - open, 1)),
      Check("unearned_matches_open_invoices", Within(unearned - open, 1)),
      Check("non_negative_cash", -1 <= Balance(db.rows, USDC)) ]
  }

  predicate Passes(checks: seq<Check>) {
    forall i :: 0 <= i < |checks| ==> checks[i].ok
  }

  // ---- The books invariant -----------------------------------------------------------------

  predicate InvoicesSound(invoices: seq<Invoice>) {
    && Keyed(invoices) && DistinctOpen(invoices)
    && forall i :: 0 <= i < |invoices| ==> invoices[i].account.kind.IncomeKind?
  }

  /** Receivable and unearned both equal what open invoices ask for, to the cent, and no cash is overdrawn. */
  predicate Balanced(db: Db) {
    && Balance(db.rows, RECEIVABLE) == Total(OpenTotal, db.invoices)
    && Balance(db.rows, UNEARNED) == -Total(OpenTotal, db.invoices)
    && Read(Collected, db.rows) == Total(PaidTotal, db.invoices)
    && 0 <= Balance(db.rows, USDC) && Balance(db.rows, CASH) == 0
  }

  predicate BooksSound(db: Db) {
    InvoicesSound(db.invoices) && Balanced(db)
  }

  /** Books that balance exactly pass every check. */
  lemma SoundBooksPass(db: Db)
    requires BooksSound(db)
    ensures Passes(VerifyInvariants(db))
  {
    PrefixesCancel(db.rows);
  }

  /** Posting to accounts other than the four the invariant watches cannot disturb it. */
  lemma PostElsewhere(db: Db, ts: int, debit: Account, credit: Account, cents: nat, memo: string)
    requires BooksSound(db)
    requires debit !in {RECEIVABLE, UNEARNED, CASH} && credit !in {RECEIVABLE, UNEARNED, CASH}
    requires debit != credit
    requires credit == USDC ==> cents <= Balance(db.rows, USDC)
    ensures BooksSound(db.(rows := Post(db.rows, ts, debit, credit, cents, memo)))
  {
    ReadPost(Of(RECEIVABLE), db.rows, ts, debit, credit, cents, memo);
    ReadPost(Of(UNEARNED), db.rows, ts, debit, credit, cents, memo);
    ReadPost(Of(USDC), db.rows, ts, debit, credit, cents, memo);
    ReadPost(Of(CASH), db.rows, ts, debit, credit, cents, memo);
    ReadPost(Collected, db.rows, ts, debit, credit, cents, memo);
  }

  lemma TreasuryKeepsBooks(db: Db, now: int, cents: int, account: Account, memo: string, goal: int)
    requires BooksSound(db)
    ensures account.kind.IncomeKind? || account.kind.EquityKind? ==>
              (var r := Receive(db, now, cents, account, memo); r.Ok? ==> BooksSound(r.value))
    ensures account.kind.ExpenseKind? ==> BooksSound(Pay(db, now, cents, account, memo).db)
    ensures BooksSound(Allocate(db, now, cents, goal).db)
    ensures BooksSound(Mark(db, now, cents))
  {
    if 0 <= cents && (account.kind.IncomeKind? || account.kind.EquityKind?) {
      PostElsewhere(db, now, USDC, account, cents, memo);
    }
    if CanSpend(db.rows, cents) && account.kind.ExpenseKind? {
      PostElsewhere(db, now, account, USDC, cents, memo);
    }
    if Allocate(db, now, cents, goal).done {
      PostElsewhere(db, now, TRADING_BOOK, USDC, cents, "alloc_trading");
    }
    if cents > 0 {
      PostElsewhere(db, now, TRADING_BOOK, TRADING_PAPER, cents, "mtm gain");
    } else if cents < 0 {
      PostElsewhere(db, now, TRADING_PAPER, TRADING_BOOK, -cents, "mtm loss");
    }
  }

  lemma UpsertSound(invoices: seq<Invoice>, inv: Invoice)
    requires InvoicesSound(invoices)
    requires inv.id == InvId(inv.jobId) && 0 <= inv.cents && inv.account.kind.IncomeKind?
    requires inv.status.Open? ==> inv.cents !in OpenCents(invoices)
    ensures InvoicesSound(Upsert(invoices, inv))
  {
    UpsertKeyed(invoices, inv);
    UpsertDistinct(invoices, inv);
    var _ := UpsertAt(invoices, inv);
  }

  /** One posted row between receivable and unearned moves both by the same amount. */
  lemma PostBilling(rows: seq<Row>, ts: int, cents: nat, memo: string)
    ensures var after := Post(rows, ts, RECEIVABLE, UNEARNED, cents, memo);
            && Balance(after, RECEIVABLE) == Balance(rows, RECEIVABLE) + cents
            && Balance(after, UNEARNED) == Balance(rows, UNEARNED) - cents
            && Balance(after, USDC) == Balance(rows, USDC) && Balance(after, CASH) == Balance(rows, CASH)
            && Read(Collected, after) == Read(Collected, rows)
    ensures var after := Post(rows, ts, UNEARNED, RECEIVABLE, cents, memo);
            && Balance(after, RECEIVABLE) == Balance(rows, RECEIVABLE) - cents
            && Balance(after, UNEARNED) == Balance(rows, UNEARNED) + cents
            && Balance(after, USDC) == Balance(rows, USDC) && Balance(after, CASH) == Balance(rows, CASH)
            && Read(Collected, after) == Read(Collected, rows)
  {
    hide Read, Ledger.Post;
    ReadPost(Of(RECEIVABLE), rows, ts, RECEIVABLE, UNEARNED, cents, memo);
    ReadPost(Of(UNEARNED), rows, ts, RECEIVABLE, UNEARNED, cents, memo);
    ReadPost(Of(USDC), rows, ts, RECEIVABLE, UNEARNED, cents, memo);
    ReadPost(Of(CASH), rows, ts, RECEIVABLE, UNEARNED, cents, memo);
    ReadPost(Collected, rows, ts, RECEIVABLE, UNEARNED, cents, memo);
    ReadPost(Of(RECEIVABLE), rows, ts, UNEARNED, RECEIVABLE, cents, memo);
    ReadPost(Of(UNEARNED), rows, ts, UNEARNED, RECEIVABLE, cents, memo);
    ReadPost(Of(USDC), rows, ts, UNEARNED, RECEIVABLE, cents, memo);
    ReadPost(Of(CASH), rows, ts, UNEARNED, RECEIVABLE, cents, memo);
    ReadPost(Collected, rows, ts, UNEARNED, RECEIVABLE, cents, memo);
  }

  /** The two rows of a collection. */
  lemma PostCollection(rows: seq<Row>, ts: int, account: Account, cents: nat, memo: string, memo': string)
    requires account.kind.IncomeKind?
    ensures var after := Post(Post(rows, ts, USDC, RECEIVABLE, cents, memo), ts, UNEARNED, account, cents, memo');
            && Balance(after, RECEIVABLE) == Balance(rows, RECEIVABLE) - cents
            && Balance(after, UNEARNED) == Balance(rows, UNEARNED) + cents
            && Balance(after, USDC) == Balance(rows, USDC) + cents && Balance(after, CASH) == Balance(rows, CASH)
            && Read(Collected, after) == Read(Collected, rows) + cents
  {
    hide Read, Ledger.Post;
    var moved := Post(rows, ts, USDC, RECEIVABLE, cents, memo);
    ReadPost(Of(RECEIVABLE), rows, ts, USDC, RECEIVABLE, cents, memo);
    ReadPost(Of(UNEARNED), rows, ts, USDC, RECEIVABLE, cents, memo);
    ReadPost(Of(USDC), rows, ts, USDC, RECEIVABLE, cents, memo);
    ReadPost(Of(CASH), rows, ts, USDC, RECEIVABLE, cents, memo);
    ReadPost(Collected, rows, ts, USDC, RECEIVABLE, cents, memo);
    ReadPost(Of(RECEIVABLE), moved, ts, UNEARNED, account, cents, memo');
    ReadPost(Of(UNEARNED), moved, ts, UNEARNED, account, cents, memo');
    ReadPost(Of(USDC), moved, ts, UNEARNED, account, cents, memo');
    ReadPost(Of(CASH), moved, ts, UNEARNED, account, cents, memo');
    ReadPost(Collected, moved, ts, UNEARNED, account, cents, memo');
  }

  /** Billing a job, including one whose earlier invoice was voided, keeps the books. */
  lemma IssueKeepsBooks(db: Db, now: int, job: JobCard, account: Account)
    requires BooksSound(db) && account.kind.IncomeKind?
    requires Issue(db, now, job, account).Ok?
    ensures BooksSound(Issue(db, now, job, account).value.db)
    ensures Total(PaidTotal, Issue(db, now, job, account).value.db.invoices) == Total(PaidTotal, db.invoices)
  {
    var i := FindByJobAt(db.invoices, job.id);
    var existing := FindByJob(db.invoices, job.id);
    if existing.None? || existing.value.status.Void? {
      var cents := LeastFree(OpenCents(db.invoices), QuoteCents(job.price, job.fit));
      var inv := NewInvoice(job, cents, account);
      IssueReplacesVoid(db.invoices, job.id);
      UpsertSound(db.invoices, inv);
      UpsertTotal(OpenTotal, db.invoices, inv);
      UpsertTotal(PaidTotal, db.invoices, inv);
      PostBilling(db.rows, now, cents, "invoice " + inv.id);
    }
  }

  /** In a keyed table the row an issue overwrites is the job's own row. */
  lemma IssueReplacesVoid(invoices: seq<Invoice>, jobId: string)
    requires Keyed(invoices)
    ensures Find(invoices, InvId(jobId)) == FindByJob(invoices, jobId)
  {
    var i := FindByJobAt(invoices, jobId);
    if i < |invoices| {
      FindAt(invoices, i);
    } else if Find(invoices, InvId(jobId)).Some? {
      var k := UpsertAt(invoices, Invoice(InvId(jobId), jobId, 0, LABOR, Open, "", ""));
      InvIdInjective(invoices[k].jobId, jobId);
    }
  }

  lemma SettleKeepsBooks(db: Db, now: int, inv: Invoice, source: string)
    requires BooksSound(db)
    requires Find(db.invoices, inv.id) == Some(inv) && inv.status.Open?
    ensures 0 <= inv.cents && inv.account.kind.IncomeKind? && inv.id == InvId(inv.jobId)
    ensures BooksSound(Settle(db, now, inv, source))
    ensures Total(PaidTotal, Settle(db, now, inv, source).invoices) == Total(PaidTotal, db.invoices) + inv.cents
  {
    var paid := inv.(status := Paid, source := source);
    var i := UpsertAt(db.invoices, paid);
    UpsertSound(db.invoices, paid);
    UpsertTotal(OpenTotal, db.invoices, paid);
    UpsertTotal(PaidTotal, db.invoices, paid);
    PostCollection(db.rows, now, inv.account, inv.cents, "collect " + inv.id + " via " + source, "recognize " + inv.id);
  }

  lemma CollectKeepsBooks(db: Db, now: int, mode: Mode, reference: string, source: string)
    requires BooksSound(db)
    requires Collect(db, now, mode, reference, source).Ok?
    ensures BooksSound(Collect(db, now, mode, reference, source).value.db)
  {
    var i := LookupAt(db.invoices, reference);
    var inv := Lookup(db.invoices, reference).value;
    if inv.status.Open? {
      var reconciled :=
        if mode.Live? && !FromChain(source) then db.(pay := Some(Reconcile(LoadState(db), Minor(inv)))) else db;
      SettleKeepsBooks(reconciled, now, inv, source);
    }
  }

  lemma CancelKeepsBooks(db: Db, now: int, reference: string)
    requires BooksSound(db)
    requires Cancel(db, now, reference).Ok?
    ensures BooksSound(Cancel(db, now, reference).value.db)
    ensures Total(PaidTotal, Cancel(db, now, reference).value.db.invoices) == Total(PaidTotal, db.invoices)
  {
    var i := LookupAt(db.invoices, reference);
    var inv := Lookup(db.invoices, reference).value;
    if inv.status.Open? {
      var void := inv.(status := Void);
      UpsertSound(db.invoices, void);
      UpsertTotal(OpenTotal, db.invoices, void);
      UpsertTotal(PaidTotal, db.invoices, void);
      PostBilling(db.rows, now, inv.cents, "void " + inv.id);
    }
  }
}
