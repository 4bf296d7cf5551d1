/**
 Tick after tick: what was proved of runs of the purchase protocol, stated for the engine's own sequence of ticks.
 */
module Days {
  import opened Tables
  import opened Ledger
  import opened Inbox
  import opened QuorumRuns
  import opened ReplyRuns
  import opened Heartbeat
  import opened TickEffects

  /** Ticks from a desk, with the log of all of them. */
  function Beats(ticks: seq<Tick>, desk: Desk, frozen: set<string>): TickState {
    if ticks == [] then TickState(desk, frozen, [])
    else
      var before := Beats(ticks[..|ticks| - 1], desk, frozen);
      var last := Beat(ticks[|ticks| - 1], before.desk, before.frozen);
      TickState(last.desk, last.frozen, before.log + last.log)
  }

  lemma {:induction false} AtConcat(desk: Desk, a: seq<Deed>, b: seq<Deed>, k: nat)
    requires k <= |b|
    ensures At(desk, a + b, |a| + k) == At(At(desk, a, |a|), b, k)
  {
    hide QuorumRuns.Step;
    if k == 0 {
      AtOfPrefix(desk, a, b, |a|);
    } else {
      AtConcat(desk, a, b, k - 1);
      assert (a + b)[|a| + k - 1] == b[k - 1];
    }
  }

  lemma {:induction false} AtOfPrefix(desk: Desk, a: seq<Deed>, b: seq<Deed>, k: nat)
    requires k <= |a|
    ensures At(desk, a + b, k) == At(desk, a, k)
  {
    hide QuorumRuns.Step;
    if k > 0 {
      AtOfPrefix(desk, a, b, k - 1);
    }
  }

  /** Any number of ticks is one run. */
  lemma {:induction false} TicksAreRun(ticks: seq<Tick>, desk: Desk, frozen: set<string>)
    requires forall i :: 0 <= i < |ticks| ==> RolesBehave(ticks[i])
    ensures Follows(desk, Beats(ticks, desk, frozen))
  {
    hide Beat, TickDeed, RolesBehave;
    if ticks != [] {
      var n := |ticks| - 1;
      TicksAreRun(ticks[..n], desk, frozen);
      var before := Beats(ticks[..n], desk, frozen);
      TickIsRun(ticks[n], before.desk, before.frozen);
      var last := Beat(ticks[n], before.desk, before.frozen);
      AtConcat(desk, before.log, last.log, |last.log|);
    }
  }

  /** The sweeps and the role work of a sequence of ticks, each frozen set following from the one before. */
  function AllSweeps(ticks: seq<Tick>): seq<Deed> {
    if ticks == [] then [] else AllSweeps(ticks[..|ticks| - 1]) + DueSweeps(ticks[|ticks| - 1])
  }

  function FrozenThen(ticks: seq<Tick>, frozen: set<string>): set<string> {
    if ticks == [] then frozen
    else FrozenAfter(ticks[|ticks| - 1], FrozenThen(ticks[..|ticks| - 1], frozen), PIPELINE)
  }

  function AllWork(ticks: seq<Tick>, frozen: set<string>): seq<Deed> {
    if ticks == [] then []
    else
      var n := |ticks| - 1;
      AllWork(ticks[..n], frozen) + Work(ticks[n], FrozenThen(ticks[..n], frozen), PIPELINE)
  }

  lemma {:induction false} LogsConcat(a: seq<Deed>, b: seq<Deed>)
    ensures Sweeps(a + b) == Sweeps(a) + Sweeps(b) && RoleDeeds(a + b) == RoleDeeds(a) + RoleDeeds(b)
    decreases |b|
  {
    if b == [] {
      assert a + b == a;
      assert Sweeps(a) + [] == Sweeps(a) && RoleDeeds(a) + [] == RoleDeeds(a);
    } else {
      var n := |b| - 1;
      assert (a + b)[..|a + b| - 1] == a + b[..n] && (a + b)[|a + b| - 1] == b[n];
      LogsConcat(a, b[..n]);
    }
  }

  /** Over any number of ticks the due sweeps and the work of every unfrozen role are done, in order, and no others. */
  lemma {:induction false} TicksExactly(ticks: seq<Tick>, desk: Desk, frozen: set<string>)
    requires forall i :: 0 <= i < |ticks| ==> RolesBehave(ticks[i])
    ensures var p := Beats(ticks, desk, frozen);
            && Sweeps(p.log) == AllSweeps(ticks) && RoleDeeds(p.log) == AllWork(ticks, frozen)
            && p.frozen == FrozenThen(ticks, frozen)
  {
    hide Beat, RolesBehave, Work, FrozenAfter, DueSweeps, PIPELINE, IsSweep;
    if ticks != [] {
      var n := |ticks| - 1;
      TicksExactly(ticks[..n], desk, frozen);
      var before := Beats(ticks[..n], desk, frozen);
      TickExactly(ticks[n], before.desk, before.frozen);
      LogsConcat(before.log, Beat(ticks[n], before.desk, before.frozen).log);
    }
  }

  /** Deed `k` adds a payment for infrastructure. */
  predicate Pays(ds: seq<Deed>, k: nat)
    requires k < |ds|
  {
    Read(Rent, At(EMPTY_DESK, ds, k + 1).db.rows) > Read(Rent, At(EMPTY_DESK, ds, k).db.rows)
  }

  /** Every payment is authorised, and payments are the noted purchase plus those never noted. */
  ghost predicate PurchasesSafe(ds: seq<Deed>) {
    && (forall k :: 0 <= k < |ds| && ds[k].OperateDeed? && Pays(ds, k) ==> Authorised(ds, k))
    && (forall k :: 0 <= k <= |ds| ==>
          var s := At(EMPTY_DESK, ds, k); Read(Rent, s.db.rows) == (if s.db.bought then 1 else 0) + s.lost)
  }

  predicate RepliedAt(ds: seq<Deed>, k: nat, a: nat, q: nat)
    requires k <= |ds|
  {
    RepliesTo(At(EMPTY_DESK, ds, k).db.messages, a, q)
  }

  /** No request ever has two replies. */
  ghost predicate RepliesSafe(ds: seq<Deed>) {
    forall j, k, a: nat, b: nat, q: nat ::
      0 <= j <= |ds| && 0 <= k <= |ds| && RepliedAt(ds, j, a, q) && RepliedAt(ds, k, b, q) ==> a == b
  }

  /** Deed `k` is a complete operator run past the deadline of a quorum. */
  predicate PastDeadlineOf(d: Deed, q: Quorum) {
    d.OperateDeed? && d.cut.None? && d.w.now > q.requested + d.w.quorumWindow
  }

  /** Every open quorum is closed for good by the first complete operator run past its deadline. */
  ghost predicate QuorumsClose(ds: seq<Deed>) {
    forall i, k, n, q ::
      0 <= i <= k < n <= |ds| && At(EMPTY_DESK, ds, i).db.quorum == Some(q) && PastDeadlineOf(ds[k], q) ==>
        At(EMPTY_DESK, ds, n).db.quorum != Some(q)
  }

  lemma RunsAreSafe(ds: seq<Deed>)
    requires AdmissibleDeeds(ds)
    ensures PurchasesSafe(ds) && RepliesSafe(ds) && QuorumsClose(ds)
  {
    hide QuorumRuns.Step, Read, Authorised, RepliesTo;
    forall k | 0 <= k < |ds| && ds[k].OperateDeed? && Pays(ds, k) ensures Authorised(ds, k) {
      PurchaseIsAuthorised(ds, k);
    }
    forall k | 0 <= k <= |ds|
      ensures var s := At(EMPTY_DESK, ds, k); Read(Rent, s.db.rows) == (if s.db.bought then 1 else 0) + s.lost
    {
      PaidOncePlusLost(ds, k);
    }
    forall j, k, a: nat, b: nat, q: nat |
      0 <= j <= |ds| && 0 <= k <= |ds| && RepliedAt(ds, j, a, q) && RepliedAt(ds, k, b, q)
      ensures a == b
    {
      OneReplyEver(ds, j, k, a, b, q);
    }
    forall i, k, n, q | 0 <= i <= k < n <= |ds| && At(EMPTY_DESK, ds, i).db.quorum == Some(q) && PastDeadlineOf(ds[k], q)
      ensures At(EMPTY_DESK, ds, n).db.quorum != Some(q)
    {
      QuorumClosesByDeadline(ds, i, k, q);
    }
  }

  /**
   Over any number of ticks from an empty store every purchase is authorised and accounted for, no request is
   answered twice, and every open quorum is closed for good by the first complete operator run past its deadline.
   */
  lemma TicksAreSafe(ticks: seq<Tick>, frozen: set<string>)
    requires forall i :: 0 <= i < |ticks| ==> RolesBehave(ticks[i])
    ensures var end := Beats(ticks, EMPTY_DESK, frozen);
            && end.desk == At(EMPTY_DESK, end.log, |end.log|)
            && PurchasesSafe(end.log) && RepliesSafe(end.log) && QuorumsClose(end.log)
  {
    hide Beats, RolesBehave, PurchasesSafe, RepliesSafe, QuorumsClose, At;
    TicksAreRun(ticks, EMPTY_DESK, frozen);
    RunsAreSafe(Beats(ticks, EMPTY_DESK, frozen).log);
  }
}
