/**
 Whole runs of the money core: billing, collecting, voiding, treasury moves and chain watching in any
 order, where any step may also fail midway and be rolled back.
 */
module Firm {
  import opened Tables
  import opened Ledger
  import opened Money
  import opened Invoices
  import opened Suspense
  import opened Books
  import opened Settlement
  import opened TransferLogs

  // ---- The watcher -------------------------------------------------------------------------

  /** What one poll saw: the transfer logs, if any chain served them, and each chain's balance read. */
  datatype Evidence = Evidence(logs: Option<seq<Incoming>>, eth: Option<Observation>, sol: Option<Observation>)

  /** `inflow` and `removed` measure what the poll's accepted balance reads did; the code keeps neither. */
  datatype Watched = Watched(db: Db, collected: seq<Invoice>, inflow: int, removed: int)

  function ObserveMaybe(ps: PayState, c: Chain, obs: Option<Observation>): Observed {
    if obs.Some? then Observe(ps, c, obs.value) else Observed(ps, Repeated, 0, 0)
  }

  /** The balance path of `watch_and_collect`. */
  function WatchBalances(db: Db, now: int, eth: Option<Observation>, sol: Option<Observation>): Watched {
    if eth.None? && sol.None? then Watched(db, [], 0, 0)
    else
      var e := ObserveMaybe(LoadState(db), Eth, eth);
      var s := ObserveMaybe(e.state, Sol, sol);
      var first := MatchChain(db, s.state, now, Eth, e.freshness.Accepted?);
      var second := MatchChain(first.db, first.state, now, Sol, s.freshness.Accepted?);
      Watched(second.db.(pay := Some(second.state)), first.settled + second.settled,
              e.inflow + s.inflow, e.removed + s.removed)
  }

  /** `watch_and_collect`: transfer logs when there are any, balance deltas otherwise, live mode only. */
  function Watch(db: Db, now: int, mode: Mode, useLogs: bool, ev: Evidence): Watched {
    if !mode.Live? then Watched(db, [], 0, 0)
    else if useLogs && ev.logs.Some? && ev.logs.value != [] then
      var p := CollectLogs(db, now, ev.logs.value);
      Watched(p.db, p.collected, 0, 0)
    else WatchBalances(db, now, ev.eth, ev.sol)
  }

  // ---- Runs --------------------------------------------------------------------------------

  datatype Config = Config(mode: Mode, useLogs: bool, goal: int)

  datatype Op =
    | BillOp(job: JobCard, account: Account)
    | CollectOp(reference: string, source: string)
    | VoidOp(reference: string)
    | ReceiveOp(cents: int, account: Account, memo: string)
    | PayOp(cents: int, account: Account, memo: string)
    | AllocateOp(cents: int)
    | MarkOp(gain: int)
    | WatchOp(evidence: Evidence)

  /** The accounts the firm's own callers use: income is billed and received, equity seeded, expenses paid. */
  predicate Admissible(op: Op) {
    match op
    case BillOp(_, account) => account.kind.IncomeKind?
    case ReceiveOp(_, account, _) => account.kind.IncomeKind? || account.kind.EquityKind?
    case PayOp(_, account, _) => account.kind.ExpenseKind?
    case _ => true
  }

  /** One step; `aborted` means a write inside it failed and its transaction was rolled back. */
  datatype Event = Event(now: int, op: Op, aborted: bool)

  /** The store, and three sums over the run that the code does not keep. */
  datatype FirmState = FirmState(db: Db, inflow: int, removed: int, bypassed: int)

  function Perform(cfg: Config, db: Db, now: int, op: Op): Db {
    match op
    case BillOp(job, account) =>
      var r := Issue(db, now, job, account); if r.Ok? then r.value.db else db
    case CollectOp(reference, source) =>
      var r := Collect(db, now, cfg.mode, reference, source); if r.Ok? then r.value.db else db
    case VoidOp(reference) =>
      var r := Cancel(db, now, reference); if r.Ok? then r.value.db else db
    case ReceiveOp(cents, account, memo) =>
      var r := Receive(db, now, cents, account, memo); if r.Ok? then r.value else db
    case PayOp(cents, account, memo) => Pay(db, now, cents, account, memo).db
    case AllocateOp(cents) => Allocate(db, now, cents, cfg.goal).db
    case MarkOp(gain) => Mark(db, now, gain)
    case WatchOp(ev) => Watch(db, now, cfg.mode, cfg.useLogs, ev).db
  }

  /** Cents a direct `collect` moved under a source that claims to come from the chain. */
  function Bypassed(db: Db, op: Op): int {
    match op
    case CollectOp(reference, source) =>
      var found := Lookup(db.invoices, reference);
      if FromChain(source) && found.Some? && found.value.status.Open? then found.value.cents else 0
    case _ => 0
  }

  function FirmStep(cfg: Config, s: FirmState, e: Event): FirmState {
    if e.aborted then s
    else
      var flow := if e.op.WatchOp? then Watch(s.db, e.now, cfg.mode, cfg.useLogs, e.op.evidence) else Watched(s.db, [], 0, 0);
      FirmState(Perform(cfg, s.db, e.now, e.op), s.inflow + flow.inflow, s.removed + flow.removed,
                s.bypassed + Bypassed(s.db, e.op))
  }

  function FirmRun(cfg: Config, s: FirmState, es: seq<Event>): FirmState
    decreases |es|
  {
    if es == [] then s else FirmRun(cfg, FirmStep(cfg, s, es[0]), es[1..])
  }

  predicate AllAdmissible(es: seq<Event>) {
    forall i :: 0 <= i < |es| ==> Admissible(es[i].op)
  }

  /** A store without bills, postings or watcher record; balances from before the record may exist. */
  predicate Fresh(s: FirmState) {
    && s.db.invoices == [] && s.db.rows == [] && s.db.pay.None? && s.db.txids == map[]
    && s.inflow == 0 && s.removed == 0 && s.bypassed == 0
  }

  // ---- The run invariant -------------------------------------------------------------------

  /** The stored record is backed, and loading it gives back what was stored. */
  predicate RecordSound(db: Db) {
    Backed(LoadState(db)) && (db.pay.Some? ==> LoadState(db) == db.pay.value)
  }

  /** Conservation: suspense and attributions equal reservations plus accepted inflow less what withdrawals removed. */
  predicate Conserved(s: FirmState) {
    var ps := LoadState(s.db);
    TotalSuspense(ps) + ps.manual + ps.auto == ps.reserved + s.inflow - s.removed
  }

  /** Attribution: in live mode the counters are the paid invoices, less what bypassed the watcher. */
  predicate Attributed(cfg: Config, s: FirmState) {
    var ps := LoadState(s.db);
    cfg.mode.Live? ==> ps.manual + ps.auto == (Total(PaidTotal, s.db.invoices) - s.bypassed) * MINOR_PER_CENT
  }

  predicate FirmSound(cfg: Config, s: FirmState) {
    BooksSound(s.db) && LogsSound(s.db) && RecordSound(s.db) && Conserved(s) && Attributed(cfg, s)
  }

  /** Paid invoices are final: nothing changes or reopens one. */
  ghost predicate PaidStays(before: seq<Invoice>, after: seq<Invoice>) {
    forall inv :: PaidAs(before, inv) ==> PaidAs(after, inv)
  }

  lemma LogsStaySound(before: Db, after: Db)
    requires LogsSound(before) && after.txids == before.txids && PaidStays(before.invoices, after.invoices)
    ensures LogsSound(after)
  {
    forall k | k in after.txids && after.txids[k].invoiceId.Some?
      ensures var inv := Find(after.invoices, after.txids[k].invoiceId.value);
              inv.Some? && inv.value.status.Paid? && Minor(inv.value) == after.txids[k].minor
    {
      var id := after.txids[k].invoiceId.value;
      FindHasId(before.invoices, id);
      assert PaidAs(before.invoices, Find(before.invoices, id).value);
    }
  }

  lemma {:induction false} FindHasId(invoices: seq<Invoice>, id: string)
    ensures Find(invoices, id).Some? ==> Find(invoices, id).value.id == id
  {
    if invoices != [] && invoices[0].id != id {
      FindHasId(invoices[1..], id);
    }
  }

  /** Overwriting a row that is not paid leaves every paid row alone. */
  lemma UpsertKeepsPaid(invoices: seq<Invoice>, inv: Invoice)
    requires Find(invoices, inv.id).None? || !Find(invoices, inv.id).value.status.Paid?
    ensures PaidStays(invoices, Upsert(invoices, inv))
  {
    forall other | PaidAs(invoices, other) ensures PaidAs(Upsert(invoices, inv), other) {
      FindAfterUpsert(invoices, inv, other.id);
    }
  }

  // ---- Each operation keeps the invariant --------------------------------------------------

  lemma BooksAreKeyed(db: Db)
    requires BooksSound(db)
    ensures Keyed(db.invoices)
  {}

  /** Operations that touch neither the watcher's record nor paid invoices only need to keep the books. */
  lemma QuietStep(cfg: Config, s: FirmState, db: Db)
    requires FirmSound(cfg, s) && BooksSound(db)
    requires db.pay == s.db.pay && db.legacy == s.db.legacy && db.txids == s.db.txids
    requires PaidStays(s.db.invoices, db.invoices)
    requires Total(PaidTotal, db.invoices) == Total(PaidTotal, s.db.invoices)
    ensures FirmSound(cfg, s.(db := db))
  {
    hide BooksSound, LogsSound, Backed, LoadState, PaidStays, Total, TotalSuspense;
    LoadOnlyReadsRecord(s.db, db);
    LogsStaySound(s.db, db);
  }

  lemma BillStep(cfg: Config, s: FirmState, now: int, job: JobCard, account: Account)
    requires FirmSound(cfg, s) && account.kind.IncomeKind?
    ensures FirmSound(cfg, s.(db := Perform(cfg, s.db, now, BillOp(job, account))))
    ensures PaidStays(s.db.invoices, Perform(cfg, s.db, now, BillOp(job, account)).invoices)
  {
    hide BooksSound, LogsSound, RecordSound, Conserved, Attributed, Total, PaidStays, Keyed, Find, FindByJob;
    var r := Issue(s.db, now, job, account);
    PaidStaysReflexive(s.db.invoices);
    if r.Ok? && r.value.db != s.db {
      IssueKeepsBooks(s.db, now, job, account);
      BooksAreKeyed(s.db);
      IssueReplacesVoid(s.db.invoices, job.id);
      UpsertKeepsPaid(s.db.invoices, r.value.invoice);
      QuietStep(cfg, s, r.value.db);
    }
  }

  lemma VoidStep(cfg: Config, s: FirmState, now: int, reference: string)
    requires FirmSound(cfg, s)
    ensures FirmSound(cfg, s.(db := Perform(cfg, s.db, now, VoidOp(reference))))
    ensures PaidStays(s.db.invoices, Perform(cfg, s.db, now, VoidOp(reference)).invoices)
  {
    hide BooksSound, LogsSound, RecordSound, Conserved, Attributed, Total, PaidStays, Keyed, Find, Lookup;
    var r := Cancel(s.db, now, reference);
    PaidStaysReflexive(s.db.invoices);
    if r.Ok? && Lookup(s.db.invoices, reference).value.status.Open? {
      CancelKeepsBooks(s.db, now, reference);
      BooksAreKeyed(s.db);
      var i := LookupAt(s.db.invoices, reference);
      UpsertKeepsPaid(s.db.invoices, r.value.invoice);
      QuietStep(cfg, s, r.value.db);
    }
  }

  lemma PaidStaysReflexive(invoices: seq<Invoice>)
    ensures PaidStays(invoices, invoices)
  {}

  lemma TreasuryStep(cfg: Config, s: FirmState, now: int, op: Op)
    requires FirmSound(cfg, s) && Admissible(op)
    requires op.ReceiveOp? || op.PayOp? || op.AllocateOp? || op.MarkOp?
    ensures FirmSound(cfg, s.(db := Perform(cfg, s.db, now, op)))
    ensures PaidStays(s.db.invoices, Perform(cfg, s.db, now, op).invoices)
  {
    hide BooksSound, LogsSound, RecordSound, Conserved, Attributed, Total, PaidStays, Read, Balance, OperatingCash;
    match op {
      case ReceiveOp(cents, account, memo) => TreasuryKeepsBooks(s.db, now, cents, account, memo, cfg.goal);
      case PayOp(cents, account, memo) => TreasuryKeepsBooks(s.db, now, cents, account, memo, cfg.goal);
      case AllocateOp(cents) => TreasuryKeepsBooks(s.db, now, cents, LABOR, "", cfg.goal);
      case MarkOp(gain) => TreasuryKeepsBooks(s.db, now, gain, LABOR, "", cfg.goal);
    }
    PaidStaysReflexive(s.db.invoices);
    QuietStep(cfg, s, Perform(cfg, s.db, now, op));
  }

  /** A direct collection either reconciles the record by exactly the invoice, or counts as bypassing it. */
  lemma CollectConserves(cfg: Config, s: FirmState, now: int, inv: Invoice, source: string, reconciled: Db)
    requires BooksSound(s.db) && RecordSound(s.db) && Conserved(s) && Attributed(cfg, s)
    requires Find(s.db.invoices, inv.id) == Some(inv) && inv.status.Open? && 0 <= inv.cents
    requires reconciled == if cfg.mode.Live? && !FromChain(source)
                           then s.db.(pay := Some(Reconcile(LoadState(s.db), Minor(inv)))) else s.db
    ensures var s' := s.(db := Settle(reconciled, now, inv, source),
                         bypassed := s.bypassed + if FromChain(source) then inv.cents else 0);
            BooksSound(s'.db) && RecordSound(s'.db) && Conserved(s') && Attributed(cfg, s')
  {
    hide BooksSound, Backed, Reconcile, LoadState, Total;
    BooksAreApart(s.db, reconciled);
    SettleKeepsBooks(reconciled, now, inv, source);
    if cfg.mode.Live? && !FromChain(source) {
      ReconcileRecord(s.db, Minor(inv));
    }
    LoadOnlyReadsRecord(reconciled, Settle(reconciled, now, inv, source));
  }

  lemma BooksAreApart(db: Db, db': Db)
    requires BooksSound(db) && db' == db.(pay := db'.pay)
    ensures BooksSound(db')
  {}

  lemma LoadOnlyReadsRecord(db: Db, db': Db)
    requires db.pay == db'.pay && db.legacy == db'.legacy
    ensures LoadState(db) == LoadState(db')
  {}

  lemma ReconcileRecord(db: Db, minor: nat)
    requires Backed(LoadState(db))
    ensures var db' := db.(pay := Some(Reconcile(LoadState(db), minor)));
            && LoadState(db') == Reconcile(LoadState(db), minor) && RecordSound(db')
            && Held(LoadState(db')) == Held(LoadState(db))
            && LoadState(db').manual == LoadState(db).manual + minor && LoadState(db').auto == LoadState(db).auto
  {
    hide Backed, Reconcile;
    SettlementKeepsHeld(LoadState(db), minor);
    LoadIsIdentity(Reconcile(LoadState(db), minor));
  }

  lemma CollectStep(cfg: Config, s: FirmState, now: int, reference: string, source: string)
    requires FirmSound(cfg, s)
    ensures var op := CollectOp(reference, source);
            && FirmSound(cfg, s.(db := Perform(cfg, s.db, now, op), bypassed := s.bypassed + Bypassed(s.db, op)))
            && PaidStays(s.db.invoices, Perform(cfg, s.db, now, op).invoices)
  {
    hide BooksSound, LogsSound, RecordSound, Conserved, Attributed, Total, PaidStays, Keyed, Find, Lookup, LoadState;
    PaidStaysReflexive(s.db.invoices);
    BooksAreKeyed(s.db);
    var i := LookupAt(s.db.invoices, reference);
    var found := Lookup(s.db.invoices, reference);
    if found.Some? && found.value.status.Open? {
      var inv := found.value;
      SettleKeepsBooks(s.db, now, inv, source);
      var reconciled :=
        if cfg.mode.Live? && !FromChain(source)
        then s.db.(pay := Some(Reconcile(LoadState(s.db), Minor(inv)))) else s.db;
      CollectConserves(cfg, s, now, inv, source, reconciled);
      UpsertKeepsPaid(s.db.invoices, inv.(status := Paid, source := source));
      LogsStaySound(s.db, Settle(reconciled, now, inv, source));
    }
  }

  lemma ObserveBoth(ps: PayState, eth: Option<Observation>, sol: Option<Observation>)
    requires Backed(ps)
    ensures var e := ObserveMaybe(ps, Eth, eth); var s := ObserveMaybe(e.state, Sol, sol);
            && Backed(s.state) && s.state.manual == ps.manual && s.state.auto == ps.auto
            && Held(s.state) == Held(ps) + e.inflow + s.inflow - e.removed - s.removed
  {
    if eth.Some? {
      ObserveKeepsBacked(ps, Eth, eth.value);
      ObserveMovesHeld(ps, Eth, eth.value);
    }
    var e := ObserveMaybe(ps, Eth, eth);
    if sol.Some? {
      ObserveKeepsBacked(e.state, Sol, sol.value);
      ObserveMovesHeld(e.state, Sol, sol.value);
    }
  }

  lemma MatchChainKeepsPaid(db: Db, ps: PayState, now: int, c: Chain, observed: bool)
    requires BooksSound(db)
    ensures PaidStays(db.invoices, MatchChain(db, ps, now, c, observed).db.invoices)
  {
    if observed {
      forall inv | PaidAs(db.invoices, inv)
        ensures PaidAs(MatchLots(db, now, c, ps.On(c).lots).db.invoices, inv)
      {
        MatchKeepsPaid(db, now, c, ps.On(c).lots, inv);
      }
    }
  }

  /** After a balance poll no freshly read chain holds an untainted lot that some single open invoice matches. */
  lemma PollReachesFixpoint(db: Db, now: int, eth: Option<Observation>, sol: Option<Observation>)
    requires BooksSound(db) && Backed(LoadState(db)) && (eth.Some? || sol.Some?)
    ensures var e := ObserveMaybe(LoadState(db), Eth, eth); var s := ObserveMaybe(e.state, Sol, sol);
            var w := WatchBalances(db, now, eth, sol);
            && w.db.pay.Some?
            && (e.freshness.Accepted? ==> Exhausted(w.db.invoices, w.db.pay.value.eth.lots))
            && (s.freshness.Accepted? ==> Exhausted(w.db.invoices, w.db.pay.value.sol.lots))
  {
    hide BooksSound, Backed, Exhausted, Held, LoadState, ObserveMaybe, Total, MatchLots;
    var e := ObserveMaybe(LoadState(db), Eth, eth);
    var s := ObserveMaybe(e.state, Sol, sol);
    ObserveBoth(LoadState(db), eth, sol);
    var first := MatchChain(db, s.state, now, Eth, e.freshness.Accepted?);
    MatchChainConserves(db, s.state, now, Eth, e.freshness.Accepted?);
    MatchChainConserves(first.db, first.state, now, Sol, s.freshness.Accepted?);
    if e.freshness.Accepted? && s.freshness.Accepted? {
      ExhaustedStays(first.db, now, Sol, first.state.sol.lots, first.state.eth.lots);
    }
  }

  /** The effect of a balance poll on the record: what the invariant needs, and nothing else. */
  lemma PollConserves(db: Db, now: int, eth: Option<Observation>, sol: Option<Observation>)
    requires BooksSound(db) && Backed(LoadState(db)) && (eth.Some? || sol.Some?)
    ensures var w := WatchBalances(db, now, eth, sol);
            && BooksSound(w.db) && w.db.txids == db.txids && w.db.pay.Some? && Backed(w.db.pay.value)
            && Held(w.db.pay.value) == Held(LoadState(db)) + w.inflow - w.removed
            && w.db.pay.value.manual == LoadState(db).manual
            && w.db.pay.value.auto - LoadState(db).auto
               == (Total(PaidTotal, w.db.invoices) - Total(PaidTotal, db.invoices)) * MINOR_PER_CENT
            && PaidStays(db.invoices, w.db.invoices)
  {
    hide BooksSound, Backed, Exhausted, Held, LoadState, ObserveMaybe, MatchChain, Total, PaidAs;
    var e := ObserveMaybe(LoadState(db), Eth, eth);
    var s := ObserveMaybe(e.state, Sol, sol);
    ObserveBoth(LoadState(db), eth, sol);
    var first := MatchChain(db, s.state, now, Eth, e.freshness.Accepted?);
    MatchChainConserves(db, s.state, now, Eth, e.freshness.Accepted?);
    MatchChainConserves(first.db, first.state, now, Sol, s.freshness.Accepted?);
    MatchChainKeepsPaid(db, s.state, now, Eth, e.freshness.Accepted?);
    MatchChainKeepsPaid(first.db, first.state, now, Sol, s.freshness.Accepted?);
    BooksAreApart(MatchChain(first.db, first.state, now, Sol, s.freshness.Accepted?).db,
                  WatchBalances(db, now, eth, sol).db);
  }

  lemma TransferKeepsPaid(p: Progress, now: int, t: Incoming)
    requires Sound(p)
    ensures PaidStays(p.db.invoices, ProcessOne(p, now, t).db.invoices)
  {
    hide Sound, PaidStays, Find;
    PaidStaysReflexive(p.db.invoices);
    if KeyOf(t) !in p.db.txids {
      UnambiguousTransfer(p, now, t);
      var candidates := Candidates(p.db.invoices, t.minor);
      if candidates != [] {
        UpsertKeepsPaid(p.db.invoices, candidates[0].(status := Paid, source := ChainSource(t.chain)));
      }
    }
  }

  lemma {:induction false} LogsKeepPaid(p: Progress, now: int, ts: seq<Incoming>)
    requires Sound(p)
    ensures PaidStays(p.db.invoices, ProcessAll(p, now, ts).db.invoices)
    decreases |ts|
  {
    hide Sound, PaidAs, ProcessOne;
    if ts == [] {
      PaidStaysReflexive(p.db.invoices);
    } else {
      ProcessOnePreserves(p, now, ts[0]);
      TransferKeepsPaid(p, now, ts[0]);
      LogsKeepPaid(ProcessOne(p, now, ts[0]), now, ts[1..]);
    }
  }

  lemma LogPollConserves(db: Db, now: int, ts: seq<Incoming>)
    requires BooksSound(db) && Backed(LoadState(db)) && LogsSound(db)
    ensures var p := CollectLogs(db, now, ts);
            && BooksSound(p.db) && LogsSound(p.db) && RecordSound(p.db)
            && Held(LoadState(p.db)) == Held(LoadState(db))
            && LoadState(p.db).manual == LoadState(db).manual
            && LoadState(p.db).auto - LoadState(db).auto
               == (Total(PaidTotal, p.db.invoices) - Total(PaidTotal, db.invoices)) * MINOR_PER_CENT
            && PaidStays(db.invoices, p.db.invoices)
  {
    hide BooksSound, LogsSound, Backed, LoadState, Total, PaidStays, Held;
    var start := Progress(db, LoadState(db), []);
    var end := ProcessAll(start, now, ts);
    ProcessAllPreserves(start, now, ts);
    ReloadAfterLogs(db, now, ts);
    RecordIsApart(end.db, end.state);
    LogsKeepPaid(start, now, ts);
  }

  /** The log table and the invoices do not depend on the stored record. */
  lemma RecordIsApart(db: Db, ps: PayState)
    requires LogsSound(db)
    ensures LogsSound(db.(pay := Some(ps)))
  {}

  /** What a poll by either path must establish for the run invariant to carry over. */
  lemma PollStep(cfg: Config, s: FirmState, s': FirmState)
    requires FirmSound(cfg, s) && s'.bypassed == s.bypassed
    requires BooksSound(s'.db) && LogsSound(s'.db) && RecordSound(s'.db)
    requires Held(LoadState(s'.db)) - s'.inflow + s'.removed == Held(LoadState(s.db)) - s.inflow + s.removed
    requires LoadState(s'.db).manual == LoadState(s.db).manual
    requires LoadState(s'.db).auto - LoadState(s.db).auto
             == (Total(PaidTotal, s'.db.invoices) - Total(PaidTotal, s.db.invoices)) * MINOR_PER_CENT
    ensures FirmSound(cfg, s')
  {
    hide BooksSound, LogsSound, RecordSound, LoadState, Total;
  }

  lemma WatchStep(cfg: Config, s: FirmState, now: int, ev: Evidence)
    requires FirmSound(cfg, s)
    ensures var w := Watch(s.db, now, cfg.mode, cfg.useLogs, ev);
            && FirmSound(cfg, s.(db := w.db, inflow := s.inflow + w.inflow, removed := s.removed + w.removed))
            && PaidStays(s.db.invoices, w.db.invoices)
  {
    hide BooksSound, LogsSound, Backed, LoadState, Total, PaidStays, Held, Conserved, Attributed, WatchBalances, CollectLogs;
    PaidStaysReflexive(s.db.invoices);
    var w := Watch(s.db, now, cfg.mode, cfg.useLogs, ev);
    var s' := s.(db := w.db, inflow := s.inflow + w.inflow, removed := s.removed + w.removed);
    if cfg.mode.Live? && cfg.useLogs && ev.logs.Some? && ev.logs.value != [] {
      LogPollConserves(s.db, now, ev.logs.value);
      PollStep(cfg, s, s');
    } else if cfg.mode.Live? && (ev.eth.Some? || ev.sol.Some?) {
      PollConserves(s.db, now, ev.eth, ev.sol);
      ReloadRecord(w.db);
      LogsStaySound(s.db, w.db);
      PollStep(cfg, s, s');
    } else if cfg.mode.Live? {
      QuietPoll(s.db, now);
    }
  }

  lemma QuietPoll(db: Db, now: int)
    ensures WatchBalances(db, now, None, None) == Watched(db, [], 0, 0)
  {}

  lemma ReloadRecord(db: Db)
    requires db.pay.Some? && Backed(db.pay.value)
    ensures LoadState(db) == db.pay.value
  {
    LoadIsIdentity(db.pay.value);
  }

  lemma StepKeepsSound(cfg: Config, s: FirmState, e: Event)
    requires FirmSound(cfg, s) && Admissible(e.op)
    ensures FirmSound(cfg, FirmStep(cfg, s, e))
    ensures PaidStays(s.db.invoices, FirmStep(cfg, s, e).db.invoices)
  {
    hide FirmSound, PaidStays, Watch, Lookup;
    PaidStaysReflexive(s.db.invoices);
    if !e.aborted {
      match e.op
      case BillOp(job, account) => BillStep(cfg, s, e.now, job, account);
      case CollectOp(reference, source) => CollectStep(cfg, s, e.now, reference, source);
      case VoidOp(reference) => VoidStep(cfg, s, e.now, reference);
      case WatchOp(ev) => WatchStep(cfg, s, e.now, ev);
      case ReceiveOp(_, _, _) => TreasuryStep(cfg, s, e.now, e.op);
      case PayOp(_, _, _) => TreasuryStep(cfg, s, e.now, e.op);
      case AllocateOp(_) => TreasuryStep(cfg, s, e.now, e.op);
      case MarkOp(_) => TreasuryStep(cfg, s, e.now, e.op);
    }
  }

  // ---- Main results ------------------------------------------------------------------------

  lemma FreshIsSound(cfg: Config, s: FirmState)
    requires Fresh(s)
    ensures FirmSound(cfg, s)
  {}

  /** Every run keeps the invariant, and every invoice paid at its start is paid, unchanged, at its end. */
  lemma {:induction false} RunKeepsSound(cfg: Config, s: FirmState, es: seq<Event>)
    requires FirmSound(cfg, s) && AllAdmissible(es)
    ensures FirmSound(cfg, FirmRun(cfg, s, es))
    ensures PaidStays(s.db.invoices, FirmRun(cfg, s, es).db.invoices)
    decreases |es|
  {
    hide FirmSound, PaidAs, FirmStep;
    if es != [] {
      StepKeepsSound(cfg, s, es[0]);
      RunKeepsSound(cfg, FirmStep(cfg, s, es[0]), es[1..]);
    }
  }

  /** Nothing is attributed that neither observed inflow nor an outstanding reservation backs. */
  lemma EveryAttributionIsBacked(cfg: Config, s: FirmState, es: seq<Event>)
    requires Fresh(s) && AllAdmissible(es)
    ensures var end := FirmRun(cfg, s, es); var ps := LoadState(end.db);
            && TotalSuspense(ps) + ps.manual + ps.auto == ps.reserved + end.inflow - end.removed
            && ps.manual + ps.auto <= ps.reserved + end.inflow - end.removed
            && SumLots(ps.eth.lots) <= ps.eth.balance && SumLots(ps.sol.lots) <= ps.sol.balance
  {
    FreshIsSound(cfg, s);
    RunKeepsSound(cfg, s, es);
    PositiveSum(LoadState(FirmRun(cfg, s, es).db).eth.lots);
    PositiveSum(LoadState(FirmRun(cfg, s, es).db).sol.lots);
  }

  /** In every run from a fresh store the books pass every check, open amounts are distinct, and cash is not overdrawn. */
  lemma BooksHoldOverRuns(cfg: Config, s: FirmState, es: seq<Event>)
    requires Fresh(s) && AllAdmissible(es)
    ensures var db := FirmRun(cfg, s, es).db;
            && Passes(VerifyInvariants(db))
            && Balance(db.rows, RECEIVABLE) == Total(OpenTotal, db.invoices) == -Balance(db.rows, UNEARNED)
            && 0 <= OperatingCash(db.rows)
            && DistinctOpen(db.invoices)
            && (forall minor :: |Candidates(db.invoices, minor)| <= 1)
            && LogsSound(db)
  {
    FreshIsSound(cfg, s);
    RunKeepsSound(cfg, s, es);
    var db := FirmRun(cfg, s, es).db;
    SoundBooksPass(db);
    forall minor ensures |Candidates(db.invoices, minor)| <= 1 {
      NeverAmbiguous(db.invoices, minor);
    }
  }

  /**
   The attribution counters equal the paid invoices and the cash collected for them if and only if no
   invoice worth anything was collected directly under a chain source.
   */
  lemma AttributionAgreesWithBooks(cfg: Config, s: FirmState, es: seq<Event>)
    requires Fresh(s) && AllAdmissible(es) && cfg.mode.Live?
    ensures var end := FirmRun(cfg, s, es); var ps := LoadState(end.db);
            && Total(PaidTotal, end.db.invoices) == Read(Collected, end.db.rows)
            && (ps.manual + ps.auto == Total(PaidTotal, end.db.invoices) * MINOR_PER_CENT <==> end.bypassed == 0)
  {
    hide FirmRun, BooksSound, LogsSound, RecordSound, LoadState, Total, Read, PaidStays;
    FreshIsSound(cfg, s);
    RunKeepsSound(cfg, s, es);
    CollectedIsPaid(FirmRun(cfg, s, es).db);
  }

  lemma CollectedIsPaid(db: Db)
    requires BooksSound(db)
    ensures Total(PaidTotal, db.invoices) == Read(Collected, db.rows)
  {}

  /** When only the watcher uses chain sources nothing is bypassed. */
  lemma {:induction false} OnlyWatcherMeansNoBypass(cfg: Config, s: FirmState, es: seq<Event>)
    requires s.bypassed == 0
    requires forall i :: 0 <= i < |es| && es[i].op.CollectOp? ==> !FromChain(es[i].op.source)
    ensures FirmRun(cfg, s, es).bypassed == 0
    decreases |es|
  {
    if es != [] {
      OnlyWatcherMeansNoBypass(cfg, FirmStep(cfg, s, es[0]), es[1..]);
    }
  }

  /** The other case is reachable: bill a job, then collect it directly as if the chain had paid. */
  lemma BypassIsReachable(cfg: Config, s: FirmState, now: int, job: JobCard, account: Account)
    requires Fresh(s) && cfg.mode.Live? && account.kind.IncomeKind? && 0 < QuoteCents(job.price, job.fit)
    ensures var es := [Event(now, BillOp(job, account), false),
                       Event(now, CollectOp(InvId(job.id), ChainSource(Eth)), false)];
            var end := FirmRun(cfg, s, es); var ps := LoadState(end.db);
            && AllAdmissible(es) && end.bypassed == QuoteCents(job.price, job.fit)
            && ps.manual + ps.auto != Total(PaidTotal, end.db.invoices) * MINOR_PER_CENT
  {
    hide QuoteCents, InvId, MemoFor, LoadState, BooksSound, LogsSound;
    var cents := QuoteCents(job.price, job.fit);
    var bill, take := Event(now, BillOp(job, account), false), Event(now, CollectOp(InvId(job.id), ChainSource(Eth)), false);
    var es := [bill, take];
    assert es[1..] == [take] && [take][1..] == [];
    assert OpenCents([]) == {};
    assert LeastFree({}, cents) == cents;
    var inv := NewInvoice(job, cents, account);
    var billed := FirmStep(cfg, s, bill);
    assert billed.db.invoices == [inv];
    assert Find(billed.db.invoices, InvId(job.id)) == Some(inv);
    assert FirmRun(cfg, billed, [take]) == FirmRun(cfg, FirmStep(cfg, billed, take), []);
    assert FirmRun(cfg, s, es) == FirmRun(cfg, billed, [take]);
    AttributionAgreesWithBooks(cfg, s, es);
  }
}
