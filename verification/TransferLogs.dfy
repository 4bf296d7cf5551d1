/**
 Settlement from transfer logs: each (chain, txid) is recorded the first time it is seen, and settles
 at most one invoice then.
 */
module TransferLogs {
  import opened Tables
  import opened Ledger
  import opened Money
  import opened Invoices
  import opened Suspense
  import opened Books
  import opened Settlement

  datatype Incoming = Incoming(chain: Chain, txid: string, minor: nat, memo: Option<string>)

  function KeyOf(t: Incoming): TxKey {
    TxKey(t.chain, t.txid)
  }

  function MemoHits(candidates: seq<Invoice>, memo: string): seq<Invoice> {
    if candidates == [] then []
    else
      (if candidates[0].memo != "" && Contains(memo, candidates[0].memo) then [candidates[0]] else [])
      + MemoHits(candidates[1..], memo)
  }

  /** Several invoices of the amount may still be told apart by the transfer's memo. */
  function Disambiguate(candidates: seq<Invoice>, memo: Option<string>): seq<Invoice> {
    if |candidates| > 1 && memo.Some? && memo.value != "" && |MemoHits(candidates, memo.value)| == 1
    then MemoHits(candidates, memo.value)
    else candidates
  }

  predicate Names(memo: string, inv: Invoice) {
    inv.memo != "" && Contains(memo, inv.memo)
  }

  lemma {:induction false} MemoHitsExactly(candidates: seq<Invoice>, memo: string)
    ensures forall x :: x in MemoHits(candidates, memo) <==> x in candidates && Names(memo, x)
    ensures (forall i :: 0 <= i < |candidates| ==> !Names(memo, candidates[i])) ==> MemoHits(candidates, memo) == []
  {
    hide Contains;
    if candidates != [] {
      MemoHitsExactly(candidates[1..], memo);
      assert forall x :: x in candidates <==> x == candidates[0] || x in candidates[1..];
      assert forall i :: 0 <= i < |candidates[1..]| ==> candidates[1..][i] == candidates[i + 1];
    }
  }

  lemma {:induction false} OneMemoHit(candidates: seq<Invoice>, memo: string, k: nat)
    requires k < |candidates| && forall i :: 0 <= i < |candidates| ==> (Names(memo, candidates[i]) <==> i == k)
    ensures MemoHits(candidates, memo) == [candidates[k]]
  {
    hide Contains;
    var rest := candidates[1..];
    assert forall i :: 0 <= i < |rest| ==> rest[i] == candidates[i + 1];
    if k == 0 {
      MemoHitsExactly(rest, memo);
    } else {
      OneMemoHit(rest, memo, k - 1);
    }
  }

  /** The memo decides among several invoices exactly when it contains the memo of one of them and no other. */
  lemma MemoDecides(candidates: seq<Invoice>, memo: string, k: nat)
    requires |candidates| > 1 && memo != "" && k < |candidates|
    requires forall i :: 0 <= i < |candidates| ==> (Names(memo, candidates[i]) <==> i == k)
    ensures Disambiguate(candidates, Some(memo)) == [candidates[k]] && Disambiguate(candidates, None) == candidates
  {
    OneMemoHit(candidates, memo, k);
  }

  /** The store, the watcher's in-memory record, and what has been collected so far. */
  datatype Progress = Progress(db: Db, state: PayState, collected: seq<Invoice>)

  function Record(db: Db, t: Incoming, invoiceId: Option<string>): Db {
    Apply(RecordTxid(KeyOf(t), TxRecord(t.minor, invoiceId)), db)
  }

  /** One iteration of the loop in `_collect_from_tx_logs`, with `_settle_transfer` inlined. */
  function ProcessOne(p: Progress, now: int, t: Incoming): Progress {
    if KeyOf(t) in p.db.txids then p
    else
      var candidates := Disambiguate(Candidates(p.db.invoices, t.minor), t.memo);
      var ticket := if |candidates| == 1 then CollectFromChain(p.db, now, candidates[0].id, t.chain) else None;
      if ticket.Some? then
        Progress(Record(ticket.value.db, t, Some(ticket.value.invoice.id)),
                 Attribute(p.state, t.minor), p.collected + [ticket.value.invoice])
      else p.(db := Record(p.db, t, None))
  }

  function ProcessAll(p: Progress, now: int, ts: seq<Incoming>): Progress
    decreases |ts|
  {
    if ts == [] then p else ProcessAll(ProcessOne(p, now, ts[0]), now, ts[1..])
  }

  /** `_collect_from_tx_logs` once transfers were fetched: load the record, process, persist. */
  function CollectLogs(db: Db, now: int, ts: seq<Incoming>): Progress {
    var p := ProcessAll(Progress(db, LoadState(db), []), now, ts);
    p.(db := p.db.(pay := Some(p.state)))
  }

  // ---- Soundness of one transfer -----------------------------------------------------------

  predicate Sound(p: Progress) {
    BooksSound(p.db) && Backed(p.state)
  }

  /** Every log settlement points at a paid invoice of its amount, and no two point at the same one. */
  predicate LogsSound(db: Db) {
    && (forall k :: k in db.txids && db.txids[k].invoiceId.Some? ==>
          var inv := Find(db.invoices, db.txids[k].invoiceId.value);
          inv.Some? && inv.value.status.Paid? && Minor(inv.value) == db.txids[k].minor)
    && (forall k, l :: k in db.txids && l in db.txids && k != l && db.txids[k].invoiceId.Some?
                       ==> db.txids[k].invoiceId != db.txids[l].invoiceId)
  }

  /** In sound books the transfer's amount names at most one invoice, so the memo never decides. */
  lemma UnambiguousTransfer(p: Progress, now: int, t: Incoming)
    requires Sound(p) && KeyOf(t) !in p.db.txids
    ensures var candidates := Candidates(p.db.invoices, t.minor);
            && |candidates| <= 1
            && (if candidates == [] then ProcessOne(p, now, t) == p.(db := Record(p.db, t, None))
                else
                  var inv := candidates[0];
                  && Find(p.db.invoices, inv.id) == Some(inv) && inv.status.Open? && Minor(inv) == t.minor
                  && 0 <= inv.cents
                  && ProcessOne(p, now, t)
                     == Progress(Record(Settle(p.db, now, inv, ChainSource(t.chain)), t, Some(inv.id)),
                                 Attribute(p.state, t.minor),
                                 p.collected + [inv.(status := Paid, source := ChainSource(t.chain))]))
  {
    NeverAmbiguous(p.db.invoices, t.minor);
    if Candidates(p.db.invoices, t.minor) != [] {
      CandidateSettles(p.db, now, t.chain, t.minor, 0);
    }
  }

  /** What every transfer preserves, whether it settles, is unmatched, or was already seen. */
  predicate Preserves(before: Progress, after: Progress) {
    && Sound(after)
    && Held(after.state) == Held(before.state) && after.state.manual == before.state.manual
    && after.state.auto - before.state.auto
       == (Total(PaidTotal, after.db.invoices) - Total(PaidTotal, before.db.invoices)) * MINOR_PER_CENT
    && after.db.pay == before.db.pay && after.db.legacy == before.db.legacy
    && after.db.messages == before.db.messages && after.db.issued == before.db.issued && after.db.quorum == before.db.quorum
    && after.db.bought == before.db.bought && after.db.votes == before.db.votes
    && before.db.txids.Keys <= after.db.txids.Keys
    && (forall k :: k in before.db.txids ==> after.db.txids[k] == before.db.txids[k])
    && (LogsSound(before.db) ==> LogsSound(after.db))
  }

  lemma PreservesTransitive(a: Progress, b: Progress, c: Progress)
    requires Preserves(a, b) && Preserves(b, c)
    ensures Preserves(a, c)
  {
    assert forall k :: k in a.db.txids ==> k in b.db.txids && k in c.db.txids && c.db.txids[k] == b.db.txids[k];
  }

  lemma RecordKeepsLogs(before: Db, after: Db, t: Incoming, invoiceId: Option<string>)
    requires LogsSound(before) && KeyOf(t) !in before.txids
    requires after.txids == before.txids[KeyOf(t) := TxRecord(t.minor, invoiceId)]
    requires forall id :: Find(before.invoices, id).Some? && Find(before.invoices, id).value.status.Paid?
                          ==> Find(after.invoices, id) == Find(before.invoices, id)
    requires invoiceId.Some? ==>
               var prior, settled := Find(before.invoices, invoiceId.value), Find(after.invoices, invoiceId.value);
               prior.Some? && prior.value.status.Open? && settled.Some? && settled.value.status.Paid?
               && Minor(settled.value) == t.minor
    ensures LogsSound(after)
  {}

  lemma UnmatchedPreserves(p: Progress, t: Incoming)
    requires Sound(p) && KeyOf(t) !in p.db.txids
    ensures Preserves(p, p.(db := Record(p.db, t, None)))
  {
    if LogsSound(p.db) {
      RecordKeepsLogs(p.db, Record(p.db, t, None), t, None);
    }
  }

  lemma SettledKeepsLogs(db: Db, now: int, t: Incoming, inv: Invoice)
    requires BooksSound(db) && KeyOf(t) !in db.txids && LogsSound(db)
    requires Find(db.invoices, inv.id) == Some(inv) && inv.status.Open? && Minor(inv) == t.minor && 0 <= inv.cents
    ensures LogsSound(Record(Settle(db, now, inv, ChainSource(t.chain)), t, Some(inv.id)))
  {
    SettlePaid(db, now, inv, ChainSource(t.chain));
    RecordKeepsLogs(db, Record(Settle(db, now, inv, ChainSource(t.chain)), t, Some(inv.id)), t, Some(inv.id));
  }

  lemma SettledPreserves(p: Progress, now: int, t: Incoming, inv: Invoice, collected: seq<Invoice>)
    requires Sound(p) && KeyOf(t) !in p.db.txids
    requires Find(p.db.invoices, inv.id) == Some(inv) && inv.status.Open? && Minor(inv) == t.minor && 0 <= inv.cents
    ensures var db := Record(Settle(p.db, now, inv, ChainSource(t.chain)), t, Some(inv.id));
            Preserves(p, Progress(db, Attribute(p.state, t.minor), collected))
  {
    var settled := Settle(p.db, now, inv, ChainSource(t.chain));
    var db := Record(settled, t, Some(inv.id));
    assert db == settled.(txids := p.db.txids[KeyOf(t) := TxRecord(t.minor, Some(inv.id))]);
    SettlementKeepsHeld(p.state, t.minor);
    assert BooksSound(db) && Total(PaidTotal, db.invoices) == Total(PaidTotal, p.db.invoices) + inv.cents by {
      SettleKeepsBooks(p.db, now, inv, ChainSource(t.chain));
    }
    assert LogsSound(p.db) ==> LogsSound(db) by {
      if LogsSound(p.db) {
        SettledKeepsLogs(p.db, now, t, inv);
      }
    }
  }

  lemma ProcessOnePreserves(p: Progress, now: int, t: Incoming)
    requires Sound(p)
    ensures Preserves(p, ProcessOne(p, now, t))
  {
    if KeyOf(t) !in p.db.txids {
      UnambiguousTransfer(p, now, t);
      var candidates := Candidates(p.db.invoices, t.minor);
      if candidates == [] {
        UnmatchedPreserves(p, t);
      } else {
        SettledPreserves(p, now, t, candidates[0], ProcessOne(p, now, t).collected);
      }
    }
  }

  lemma {:induction false} ProcessAllPreserves(p: Progress, now: int, ts: seq<Incoming>)
    requires Sound(p)
    ensures Preserves(p, ProcessAll(p, now, ts))
    decreases |ts|
  {
    if ts != [] {
      var next := ProcessOne(p, now, ts[0]);
      ProcessOnePreserves(p, now, ts[0]);
      ProcessAllPreserves(next, now, ts[1..]);
      PreservesTransitive(p, next, ProcessAll(next, now, ts[1..]));
    }
  }

  // ---- Exactly once ------------------------------------------------------------------------

  lemma {:induction false} ProcessConcat(p: Progress, now: int, a: seq<Incoming>, b: seq<Incoming>)
    ensures ProcessAll(p, now, a + b) == ProcessAll(ProcessAll(p, now, a), now, b)
    decreases |a|
  {
    if a == [] {
      assert a + b == b;
    } else {
      assert (a + b)[0] == a[0] && (a + b)[1..] == a[1..] + b;
      ProcessConcat(ProcessOne(p, now, a[0]), now, a[1..], b);
    }
  }

  function KeysOf(ts: seq<Incoming>): set<TxKey> {
    set i | 0 <= i < |ts| :: KeyOf(ts[i])
  }

  /** The transfers whose key was not seen before and does not occur earlier in the list. */
  function FirstSightings(ts: seq<Incoming>, seen: set<TxKey>): seq<Incoming> {
    if ts == [] then []
    else
      (if KeyOf(ts[0]) in seen then [] else [ts[0]]) + FirstSightings(ts[1..], seen + {KeyOf(ts[0])})
  }

  lemma ProcessOneRecords(p: Progress, now: int, t: Incoming)
    ensures ProcessOne(p, now, t).db.txids.Keys == p.db.txids.Keys + {KeyOf(t)}
  {
    if KeyOf(t) !in p.db.txids {
      var candidates := Disambiguate(Candidates(p.db.invoices, t.minor), t.memo);
      if |candidates| == 1 {
        CollectKeepsTxids(p.db, now, candidates[0].id, ChainSource(t.chain));
      }
    }
  }

  lemma CollectKeepsTxids(db: Db, now: int, id: string, source: string)
    ensures var r := Collect(db, now, Live, id, source); r.Ok? ==> r.value.db.txids == db.txids
  {}

  /** A pass over any list is the pass over its first sightings: later copies of a transfer do nothing. */
  lemma {:induction false} OnlyFirstSightingsCount(p: Progress, now: int, ts: seq<Incoming>)
    ensures ProcessAll(p, now, ts) == ProcessAll(p, now, FirstSightings(ts, p.db.txids.Keys))
    ensures ProcessAll(p, now, ts).db.txids.Keys == p.db.txids.Keys + KeysOf(ts)
    decreases |ts|
  {
    if ts != [] {
      var next := ProcessOne(p, now, ts[0]);
      ProcessOneRecords(p, now, ts[0]);
      OnlyFirstSightingsCount(next, now, ts[1..]);
      var rest := FirstSightings(ts[1..], p.db.txids.Keys + {KeyOf(ts[0])});
      assert KeysOf(ts) == {KeyOf(ts[0])} + KeysOf(ts[1..]) by {
        forall k | k in KeysOf(ts[1..]) ensures k in KeysOf(ts) {
          var i :| 0 <= i < |ts[1..]| && KeyOf(ts[1..][i]) == k;
          assert ts[i + 1] == ts[1..][i];
        }
        forall k | k in KeysOf(ts) && k != KeyOf(ts[0]) ensures k in KeysOf(ts[1..]) {
          var i :| 0 <= i < |ts| && KeyOf(ts[i]) == k;
          assert ts[1..][i - 1] == ts[i];
        }
      }
      if KeyOf(ts[0]) in p.db.txids {
        assert FirstSightings(ts, p.db.txids.Keys) == rest;
      } else {
        assert FirstSightings(ts, p.db.txids.Keys) == [ts[0]] + rest;
        ProcessConcat(p, now, [ts[0]], rest);
        assert ProcessAll(p, now, [ts[0]]) == next;
      }
    }
  }

  lemma {:induction false} NothingNew(ts: seq<Incoming>, seen: set<TxKey>)
    requires KeysOf(ts) <= seen
    ensures FirstSightings(ts, seen) == []
  {
    if ts != [] {
      assert KeyOf(ts[0]) in KeysOf(ts);
      forall k | k in KeysOf(ts[1..]) ensures k in seen + {KeyOf(ts[0])} {
        var i :| 0 <= i < |ts[1..]| && KeyOf(ts[1..][i]) == k;
        assert KeyOf(ts[i + 1]) in KeysOf(ts);
      }
      NothingNew(ts[1..], seen + {KeyOf(ts[0])});
    }
  }

  lemma ReloadAfterLogs(db: Db, now: int, ts: seq<Incoming>)
    requires BooksSound(db) && Backed(LoadState(db))
    ensures var p := CollectLogs(db, now, ts);
            && BooksSound(p.db) && Backed(p.state) && LoadState(p.db) == p.state
            && p.db.pay == Some(p.state)
  {
    ProcessAllPreserves(Progress(db, LoadState(db), []), now, ts);
    LoadIsIdentity(CollectLogs(db, now, ts).state);
  }

  /** Two windows read at one moment, with the record stored and reloaded in between, are one window. */
  lemma WindowsComposeAtOnce(db: Db, now: int, a: seq<Incoming>, b: seq<Incoming>)
    requires BooksSound(db) && Backed(LoadState(db))
    ensures CollectLogs(CollectLogs(db, now, a).db, now, b).db == CollectLogs(db, now, a + b).db
  {
    var start := Progress(db, LoadState(db), []);
    ReloadAfterLogs(db, now, a);
    var first := ProcessAll(start, now, a);
    ProcessConcat(start, now, a, b);
    RecordUnread(first.(db := first.db.(pay := Some(first.state)), collected := []), first, now, b);
  }

  /** The loop neither reads nor writes the stored record and the list of what was collected. */
  lemma {:induction false} RecordUnread(p: Progress, q: Progress, now: int, ts: seq<Incoming>)
    requires p.state == q.state && p.db.(pay := q.db.pay) == q.db
    ensures var p', q' := ProcessAll(p, now, ts), ProcessAll(q, now, ts);
            && p'.state == q'.state && p'.db.(pay := q.db.pay) == q'.db
            && p'.db.pay == p.db.pay && q'.db.pay == q.db.pay
    decreases |ts|
  {
    if ts != [] {
      RecordUnreadOne(p, q, now, ts[0]);
      RecordUnread(ProcessOne(p, now, ts[0]), ProcessOne(q, now, ts[0]), now, ts[1..]);
    }
  }

  lemma RecordUnreadOne(p: Progress, q: Progress, now: int, t: Incoming)
    requires p.state == q.state && p.db.(pay := q.db.pay) == q.db
    ensures var p', q' := ProcessOne(p, now, t), ProcessOne(q, now, t);
            && p'.state == q'.state && p'.db.(pay := q.db.pay) == q'.db
            && p'.db.pay == p.db.pay && q'.db.pay == q.db.pay
  {
    hide Candidates, Disambiguate, ConsumeAny, Post, Upsert, Lookup;
    var candidates := Disambiguate(Candidates(p.db.invoices, t.minor), t.memo);
    if |candidates| == 1 {
      assert FromChain(ChainSource(t.chain));
      var a, b := Collect(p.db, now, Live, candidates[0].id, ChainSource(t.chain)),
                  Collect(q.db, now, Live, candidates[0].id, ChainSource(t.chain));
      assert a.Ok? <==> b.Ok?;
    }
  }

  /** A second pass over transfers already seen settles nothing and leaves the whole store as it was. */
  lemma SecondPassChangesNothing(db: Db, now: int, later: int, a: seq<Incoming>, b: seq<Incoming>)
    requires BooksSound(db) && Backed(LoadState(db))
    requires KeysOf(b) <= KeysOf(a) + db.txids.Keys
    ensures var once := CollectLogs(db, now, a).db;
            var twice := CollectLogs(once, later, b);
            twice.db == once && twice.collected == []
  {
    ReloadAfterLogs(db, now, a);
    var once := CollectLogs(db, now, a).db;
    OnlyFirstSightingsCount(Progress(db, LoadState(db), []), now, a);
    NothingNew(b, once.txids.Keys);
    OnlyFirstSightingsCount(Progress(once, LoadState(once), []), later, b);
  }

  /** Windows read at one moment end where one pass over the first sighting of each transfer ends. */
  lemma {:induction false} WindowsAtOnce(db: Db, now: int, windows: seq<seq<Incoming>>)
    requires BooksSound(db) && Backed(LoadState(db)) && windows != []
    ensures RunAtOnce(db, now, windows) == CollectLogs(db, now, FirstSightings(Flatten(windows), db.txids.Keys)).db
    decreases |windows|
  {
    var all := Flatten(windows);
    OnlyFirstSightingsCount(Progress(db, LoadState(db), []), now, all);
    if |windows| == 1 {
      assert windows[1..] == [];
      assert Flatten(windows[1..]) == [];
      assert all == windows[0] + [] == windows[0];
      assert RunAtOnce(CollectLogs(db, now, windows[0]).db, now, windows[1..]) == CollectLogs(db, now, windows[0]).db;
    } else {
      ReloadAfterLogs(db, now, windows[0]);
      var next := CollectLogs(db, now, windows[0]).db;
      WindowsAtOnce(next, now, windows[1..]);
      OnlyFirstSightingsCount(Progress(next, LoadState(next), []), now, Flatten(windows[1..]));
      WindowsComposeAtOnce(db, now, windows[0], Flatten(windows[1..]));
    }
  }

  function RunAtOnce(db: Db, now: int, windows: seq<seq<Incoming>>): Db
    decreases |windows|
  {
    if windows == [] then db else RunAtOnce(CollectLogs(db, now, windows[0]).db, now, windows[1..])
  }

  function Flatten(windows: seq<seq<Incoming>>): seq<Incoming> {
    if windows == [] then [] else windows[0] + Flatten(windows[1..])
  }

  // ---- Timestamps --------------------------------------------------------------------------

  /** The store with the time of every ledger row blanked. */
  function Timeless(db: Db): Db {
    db.(rows := seq(|db.rows|, i requires 0 <= i < |db.rows| => db.rows[i].(ts := 0)))
  }

  /** The clock only stamps rows: windows read at other times give the same store up to timestamps. */
  lemma {:induction false} ClockOnlyStamps(p: Progress, q: Progress, now: int, later: int, ts: seq<Incoming>)
    requires p.state == q.state && Timeless(p.db) == Timeless(q.db)
    ensures var p', q' := ProcessAll(p, now, ts), ProcessAll(q, later, ts);
            p'.state == q'.state && Timeless(p'.db) == Timeless(q'.db)
    decreases |ts|
  {
    if ts != [] {
      ClockOnlyStampsOne(p, q, now, later, ts[0]);
      ClockOnlyStamps(ProcessOne(p, now, ts[0]), ProcessOne(q, later, ts[0]), now, later, ts[1..]);
    }
  }

  lemma ClockOnlyStampsOne(p: Progress, q: Progress, now: int, later: int, t: Incoming)
    requires p.state == q.state && Timeless(p.db) == Timeless(q.db)
    ensures var p', q' := ProcessOne(p, now, t), ProcessOne(q, later, t);
            p'.state == q'.state && Timeless(p'.db) == Timeless(q'.db)
  {
    SameButRows(p.db, q.db);
    hide Candidates, Disambiguate, Attribute, CollectFromChain, Timeless, Record, SameRows;
    var candidates := Disambiguate(Candidates(p.db.invoices, t.minor), t.memo);
    if |candidates| == 1 {
      CollectTimeless(p.db, q.db, now, later, candidates[0].id, t.chain);
      var a, b := CollectFromChain(p.db, now, candidates[0].id, t.chain), CollectFromChain(q.db, later, candidates[0].id, t.chain);
      if a.Some? {
        RecordTimeless(a.value.db, b.value.db, t, Some(a.value.invoice.id));
      }
    }
    RecordTimeless(p.db, q.db, t, None);
  }

  lemma RecordTimeless(d: Db, e: Db, t: Incoming, invoiceId: Option<string>)
    requires Timeless(d) == Timeless(e)
    ensures Timeless(Record(d, t, invoiceId)) == Timeless(Record(e, t, invoiceId))
  {
    SameButRows(d, e);
    assert Timeless(Record(d, t, invoiceId)).rows == Timeless(Record(e, t, invoiceId)).rows;
  }

  lemma CollectTimeless(d: Db, e: Db, now: int, later: int, id: string, c: Chain)
    requires Timeless(d) == Timeless(e)
    ensures var a, b := CollectFromChain(d, now, id, c), CollectFromChain(e, later, id, c);
            && a.Some? == b.Some?
            && (a.Some? ==> a.value.invoice == b.value.invoice && Timeless(a.value.db) == Timeless(b.value.db))
  {
    hide Settle, Reconcile;
    SameButRows(d, e);
    assert FromChain(ChainSource(c));
    var found := Lookup(d.invoices, id);
    if found.Some? && found.value.status.Open? && 0 <= found.value.cents {
      SettleTimeless(d, e, now, later, found.value, ChainSource(c));
    }
  }

  lemma SettleTimeless(d: Db, e: Db, now: int, later: int, inv: Invoice, source: string)
    requires d.(rows := e.rows) == e && SameRows(d.rows, e.rows) && 0 <= inv.cents
    ensures Timeless(Settle(d, now, inv, source)) == Timeless(Settle(e, later, inv, source))
  {
    var memo, memo' := "collect " + inv.id + " via " + source, "recognize " + inv.id;
    PostTimeless(d.rows, e.rows, now, later, USDC, RECEIVABLE, inv.cents, memo);
    PostTimeless(Post(d.rows, now, USDC, RECEIVABLE, inv.cents, memo), Post(e.rows, later, USDC, RECEIVABLE, inv.cents, memo),
                 now, later, UNEARNED, inv.account, inv.cents, memo');
    assert Timeless(Settle(d, now, inv, source)).rows == Timeless(Settle(e, later, inv, source)).rows;
  }

  predicate SameRows(a: seq<Row>, b: seq<Row>) {
    |a| == |b| && forall i :: 0 <= i < |a| ==> a[i].(ts := 0) == b[i].(ts := 0)
  }

  lemma SameButRows(d: Db, e: Db)
    requires Timeless(d) == Timeless(e)
    ensures d.(rows := e.rows) == e && SameRows(d.rows, e.rows)
  {
    assert Timeless(d).(rows := e.rows) == Timeless(e).(rows := e.rows);
    forall i | 0 <= i < |d.rows| ensures d.rows[i].(ts := 0) == e.rows[i].(ts := 0) {
      assert Timeless(d).rows[i] == Timeless(e).rows[i];
    }
  }

  lemma PostTimeless(a: seq<Row>, b: seq<Row>, now: int, later: int, debit: Account, credit: Account, cents: nat, memo: string)
    requires SameRows(a, b)
    ensures SameRows(Post(a, now, debit, credit, cents, memo), Post(b, later, debit, credit, cents, memo))
  {}

  /** One poll of the logs of two stores that agree up to timestamps. */
  lemma PollTimeless(d: Db, e: Db, now: int, later: int, ts: seq<Incoming>)
    requires Timeless(d) == Timeless(e)
    ensures Timeless(CollectLogs(d, now, ts).db) == Timeless(CollectLogs(e, later, ts).db)
  {
    hide LoadState, ProcessAll;
    LoadTimeless(d, e);
    ClockOnlyStamps(Progress(d, LoadState(d), []), Progress(e, LoadState(e), []), now, later, ts);
    var p, q := ProcessAll(Progress(d, LoadState(d), []), now, ts), ProcessAll(Progress(e, LoadState(e), []), later, ts);
    StoreTimeless(p.db, q.db, p.state);
  }

  lemma LoadTimeless(d: Db, e: Db)
    requires Timeless(d) == Timeless(e)
    ensures LoadState(d) == LoadState(e)
  {
    SameButRows(d, e);
  }

  lemma StoreTimeless(d: Db, e: Db, ps: PayState)
    requires Timeless(d) == Timeless(e)
    ensures Timeless(d.(pay := Some(ps))) == Timeless(e.(pay := Some(ps)))
  {
    SameButRows(d, e);
    assert Timeless(d.(pay := Some(ps))).rows == Timeless(e.(pay := Some(ps))).rows;
  }

  /** Polls, each with its own clock. */
  function RunWindows(db: Db, clocks: seq<int>, windows: seq<seq<Incoming>>): Db
    requires |clocks| == |windows|
    decreases |windows|
  {
    if windows == [] then db else RunWindows(CollectLogs(db, clocks[0], windows[0]).db, clocks[1..], windows[1..])
  }

  lemma {:induction false} ClocksDoNotMatter(d: Db, e: Db, clocks: seq<int>, now: int, windows: seq<seq<Incoming>>)
    requires |clocks| == |windows| && Timeless(d) == Timeless(e)
    ensures Timeless(RunWindows(d, clocks, windows)) == Timeless(RunAtOnce(e, now, windows))
    decreases |windows|
  {
    hide CollectLogs, Timeless;
    if windows != [] {
      PollTimeless(d, e, clocks[0], now, windows[0]);
      ClocksDoNotMatter(CollectLogs(d, clocks[0], windows[0]).db, CollectLogs(e, now, windows[0]).db,
                        clocks[1..], now, windows[1..]);
    }
  }

  /** Two polls at any times are one poll of both windows at any time, up to timestamps. */
  lemma WindowsCompose(db: Db, first: int, second: int, now: int, a: seq<Incoming>, b: seq<Incoming>)
    requires BooksSound(db) && Backed(LoadState(db))
    ensures Timeless(CollectLogs(CollectLogs(db, first, a).db, second, b).db) == Timeless(CollectLogs(db, now, a + b).db)
  {
    hide CollectLogs, Timeless, BooksSound, LoadState;
    PollTimeless(db, db, first, now, a);
    PollTimeless(CollectLogs(db, first, a).db, CollectLogs(db, now, a).db, second, now, b);
    WindowsComposeAtOnce(db, now, a, b);
  }

  /**
   Any sequence of overlapping windows, each polled at its own time, ends up to timestamps where one pass
   over the first sighting of each transfer ends.
   */
  lemma OverlappingWindows(db: Db, clocks: seq<int>, now: int, windows: seq<seq<Incoming>>)
    requires BooksSound(db) && Backed(LoadState(db)) && windows != [] && |clocks| == |windows|
    ensures Timeless(RunWindows(db, clocks, windows))
            == Timeless(CollectLogs(db, now, FirstSightings(Flatten(windows), db.txids.Keys)).db)
  {
    hide CollectLogs, Timeless, BooksSound, LoadState, FirstSightings, Flatten, RunWindows, RunAtOnce;
    ClocksDoNotMatter(db, db, clocks, now, windows);
    WindowsAtOnce(db, now, windows);
  }
}
