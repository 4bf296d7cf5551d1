/**
 The firm at work on its store: the operations of billing, treasury and watcher called one after another on a
 database that may fail at any statement.
 */
module Enterprise {
  import opened Tables
  import opened Suspense
  import opened Books
  import opened TransferLogs
  import opened Firm
  import opened Persistence
  import opened Billing
  import opened Watcher

  /** What is asked of the firm, and when. */
  datatype Request = Request(now: int, op: Op)

  /** The run that the requests amount to when those marked were hit by a fault. */
  function Events(requests: seq<Request>, hit: seq<bool>): (es: seq<Event>)
    requires |hit| == |requests|
  {
    seq(|requests|, i requires 0 <= i < |requests| => Event(requests[i].now, requests[i].op, hit[i]))
  }

  lemma {:induction false} RunSnoc(cfg: Config, s: FirmState, es: seq<Event>, e: Event)
    ensures FirmRun(cfg, s, es + [e]) == FirmStep(cfg, FirmRun(cfg, s, es), e)
    decreases |es|
  {
    hide FirmStep;
    if es == [] {
      assert [] + [e] == [e] && [e][1..] == [];
    } else {
      assert (es + [e])[0] == es[0] && (es + [e])[1..] == es[1..] + [e];
      RunSnoc(cfg, FirmStep(cfg, s, es[0]), es[1..], e);
    }
  }

  class Business {
    const watcher: PaymentWatcher
    const office: Office
    const cfg: Config

    constructor (watcher: PaymentWatcher, useLogs: bool, goal: int)
      ensures this.watcher == watcher && office == watcher.office && cfg == Config(watcher.office.mode, useLogs, goal)
    {
      this.watcher := watcher;
      this.office := watcher.office;
      this.cfg := Config(watcher.office.mode, useLogs, goal);
    }

    ghost predicate Ready()
      reads this, office, office.store, office.book
    {
      watcher.office == office && office.Ready() && office.mode == cfg.mode && office.store.depth == 0
    }

    /** One request: it happens as specified, or a fault hits it and nothing happens. */
    method Serve(q: Request, ghost s: FirmState) returns (hit: bool)
      requires Ready() && FirmSound(cfg, s) && s.db == office.store.working
      modifies office.book, office.store
      ensures Ready() && office.store.Restored() && (hit ==> old(office.store.MayFail())) && office.store.Hit(hit)
      ensures office.store.working == FirmStep(cfg, s, Event(q.now, q.op, hit)).db
    {
      hide BooksSound, LogsSound, Conserved, Attributed, Backed, LoadState, Numbered,
           Books.Issue, Books.Collect, Books.Cancel, Books.Receive, Books.Pay, Books.Allocate, Books.Mark, Watch;
      match q.op {
        case BillOp(job, account) =>
          var r := office.Issue(q.now, job, account);
          hit := r == Err(StoreError);
        case CollectOp(reference, source) =>
          var r := office.Collect(q.now, reference, source);
          hit := r == Err(StoreError);
        case VoidOp(reference) =>
          var r := office.Cancel(q.now, reference);
          hit := r == Err(StoreError);
        case ReceiveOp(cents, account, memo) =>
          var r := office.Receive(q.now, cents, account, memo);
          hit := r == Err(StoreError);
        case PayOp(cents, account, memo) =>
          var r := office.Pay(q.now, cents, account, memo);
          hit := r.Err?;
        case AllocateOp(cents) =>
          var r := office.AllocateTrading(q.now, cents, cfg.goal);
          hit := r.Err?;
        case MarkOp(gain) =>
          var r := office.Mark(q.now, gain);
          hit := r.Err?;
        case WatchOp(evidence) =>
          var r := watcher.WatchAndCollect(q.now, cfg.useLogs, evidence);
          hit := r.Err?;
      }
    }

    /**
     Whatever is asked and wherever the database fails, the store ends where the run ends in which exactly the
     requests hit by a fault did nothing; so everything proved of runs holds of it. Without faults none is hit.
     */
    method Work(requests: seq<Request>, ghost s: FirmState) returns (hit: seq<bool>)
      requires Ready() && FirmSound(cfg, s) && s.db == office.store.working
      requires forall i :: 0 <= i < |requests| ==> Admissible(requests[i].op)
      modifies office.book, office.store
      ensures Ready() && |hit| == |requests|
      ensures var end := FirmRun(cfg, s, Events(requests, hit)); office.store.working == end.db && FirmSound(cfg, end)
      ensures (true in hit <==> old(office.store.hits) < office.store.hits) && (true in hit ==> old(office.store.MayFail()))
    {
      hide FirmSound, FirmStep, Admissible, Numbered;
      hit := [];
      var i := 0;
      assert Events(requests[..0], []) == [];
      while i < |requests|
        invariant 0 <= i <= |requests| && |hit| == i && Ready()
        invariant var here := FirmRun(cfg, s, Events(requests[..i], hit)); office.store.working == here.db && FirmSound(cfg, here)
        invariant office.store.MayFail() || true in hit ==> old(office.store.MayFail())
        invariant old(office.store.hits) <= office.store.hits && (true in hit <==> old(office.store.hits) < office.store.hits)
      {
        ghost var here := FirmRun(cfg, s, Events(requests[..i], hit));
        var one := Serve(requests[i], here);
        ghost var e := Event(requests[i].now, requests[i].op, one);
        assert Events(requests[..i + 1], hit + [one]) == Events(requests[..i], hit) + [e];
        RunSnoc(cfg, s, Events(requests[..i], hit), e);
        StepKeepsSound(cfg, here, e);
        hit := hit + [one];
        i := i + 1;
      }
      assert requests[..i] == requests;
    }
  }
}
