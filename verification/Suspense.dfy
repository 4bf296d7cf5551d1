/**
 The balance ledger of the payment watcher: one FIFO queue of unattributed inflow per chain, a
 reservation for settlements whose funds have not shown up yet, and two attribution counters.

 These are the value-level specifications of the watcher's state changes and the laws each obeys.
 */
module Suspense {
  import opened Tables

  const NEW_CHAIN := ChainState(false, 0, None, [])
  const NEW_STATE := PayState(NEW_CHAIN, NEW_CHAIN, 0, 0, 0, 0)

  function Min(a: int, b: int): int {
    if a <= b then a else b
  }

  function SumLots(lots: seq<Lot>): int {
    if lots == [] then 0 else lots[0].minor + SumLots(lots[1..])
  }

  lemma {:induction false} SumLotsConcat(a: seq<Lot>, b: seq<Lot>)
    ensures SumLots(a + b) == SumLots(a) + SumLots(b)
  {
    if a == [] {
      assert a + b == b;
    } else {
      assert (a + b)[1..] == a[1..] + b;
      SumLotsConcat(a[1..], b);
    }
  }

  // ---- What a well-formed state looks like -------------------------------------------------

  predicate Positive(lots: seq<Lot>) {
    forall i :: 0 <= i < |lots| ==> lots[i].minor > 0
  }

  /** First in, first out: lot numbers grow along the queue and never exceed the last one issued. */
  predicate Fifo(lots: seq<Lot>, lotSequence: int) {
    && (forall i, j :: 0 <= i < j < |lots| ==> lots[i].number < lots[j].number)
    && (forall i :: 0 <= i < |lots| ==> 0 < lots[i].number <= lotSequence)
  }

  /** Suspense is backed: the queue never holds more than the last accepted balance. */
  predicate ChainBacked(cs: ChainState, lotSequence: int) {
    && Positive(cs.lots) && Fifo(cs.lots, lotSequence)
    && SumLots(cs.lots) <= cs.balance
    && (!cs.initialized ==> cs.lots == [])
    && (cs.height.Some? ==> 0 <= cs.height.value)
  }

  predicate Backed(ps: PayState) {
    && ChainBacked(ps.eth, ps.lotSequence) && ChainBacked(ps.sol, ps.lotSequence)
    && 0 <= ps.lotSequence && 0 <= ps.reserved && 0 <= ps.manual && 0 <= ps.auto
  }

  lemma {:induction false} PositiveSum(lots: seq<Lot>)
    requires Positive(lots)
    ensures 0 <= SumLots(lots)
    ensures lots != [] ==> 0 < SumLots(lots)
  {
    if lots != [] {
      PositiveSum(lots[1..]);
    }
  }

  // ---- Consumption -------------------------------------------------------------------------

  datatype Consumption = Consumption(kept: seq<Lot>, consumed: int)

  /** Walk the queue from its head, taking until the amount is met; the rest is kept untouched. */
  function Eat(lots: seq<Lot>, remaining: int): Consumption {
    if lots == [] then Consumption([], 0)
    else
      var take := Min(lots[0].minor, remaining);
      var left := lots[0].minor - take;
      var head := if left != 0 then [lots[0].(minor := left)] else [];
      if remaining == take then Consumption(head + lots[1..], take)
      else
        var rest := Eat(lots[1..], remaining - take);
        Consumption(head + rest.kept, take + rest.consumed)
  }

  function Taint(lots: seq<Lot>): seq<Lot> {
    seq(|lots|, i requires 0 <= i < |lots| => lots[i].(tainted := true))
  }

  /** `_consume_chain_suspense` on one queue. Every caller taints what remains of a touched queue. */
  function Consume(lots: seq<Lot>, amount: int, taintRemainder: bool): Consumption {
    var eaten := Eat(lots, amount);
    if taintRemainder && eaten.consumed != 0
    then Consumption(Taint(eaten.kept), eaten.consumed)
    else eaten
  }

  /** `kept` is `lots` from position `k` on, with at most its head reduced. */
  predicate IsRemainder(lots: seq<Lot>, kept: seq<Lot>, k: nat) {
    if kept == [] then k == |lots|
    else k < |lots| && 0 < kept[0].minor <= lots[k].minor
         && kept == [lots[k].(minor := kept[0].minor)] + lots[k + 1..]
  }

  lemma {:induction false} EatSum(lots: seq<Lot>, amount: nat)
    requires Positive(lots)
    ensures Eat(lots, amount).consumed == Min(amount, SumLots(lots))
    ensures SumLots(Eat(lots, amount).kept) == SumLots(lots) - Eat(lots, amount).consumed
  {
    if lots != [] {
      PositiveSum(lots[1..]);
      var take := Min(lots[0].minor, amount);
      var kept := Eat(lots, amount).kept;
      if take < lots[0].minor {
        assert kept[1..] == lots[1..];
      } else if amount != take {
        EatSum(lots[1..], amount - take);
        assert kept == Eat(lots[1..], amount - take).kept;
      } else {
        assert kept == lots[1..];
      }
    }
  }

  lemma RemainderOfTail(lots: seq<Lot>, kept: seq<Lot>, k: nat)
    requires lots != [] && IsRemainder(lots[1..], kept, k)
    ensures IsRemainder(lots, kept, k + 1)
  {
    if kept != [] {
      assert lots[1..][k] == lots[k + 1] && lots[1..][k + 1..] == lots[k + 2..];
    }
  }

  /** A queue left alone is its own remainder. */
  lemma WholeRemainder(lots: seq<Lot>)
    requires Positive(lots)
    ensures IsRemainder(lots, lots, 0)
  {
    if lots != [] {
      assert lots[0].(minor := lots[0].minor) == lots[0];
    }
  }

  lemma {:induction false} EatRemainder(lots: seq<Lot>, amount: nat) returns (k: nat)
    requires Positive(lots)
    ensures IsRemainder(lots, Eat(lots, amount).kept, k)
    ensures Eat(lots, amount).consumed == 0 ==> Eat(lots, amount).kept == lots
  {
    k := 0;
    if lots != [] {
      var take := Min(lots[0].minor, amount);
      var kept := Eat(lots, amount).kept;
      if amount < lots[0].minor {
        assert kept == [lots[0].(minor := lots[0].minor - take)] + lots[1..];
      } else if amount == take {
        assert kept == lots[1..];
        WholeRemainder(lots[1..]);
        RemainderOfTail(lots, kept, 0);
        k := 1;
      } else {
        var k' := EatRemainder(lots[1..], amount - take);
        EatSum(lots[1..], amount - take);
        PositiveSum(lots[1..]);
        assert kept == Eat(lots[1..], amount - take).kept;
        RemainderOfTail(lots, kept, k');
        k := k' + 1;
      }
    }
  }

  lemma {:induction false} SumTaint(lots: seq<Lot>)
    ensures SumLots(Taint(lots)) == SumLots(lots)
  {
    if lots != [] {
      assert Taint(lots)[1..] == Taint(lots[1..]);
      SumTaint(lots[1..]);
    }
  }

  /**
   Consumption removes exactly what was asked for, or everything there is; what survives is a suffix
   of the queue with at most its head reduced, all of it tainted as soon as anything was taken.
   */
  lemma ConsumeExact(lots: seq<Lot>, amount: nat) returns (k: nat)
    requires Positive(lots)
    ensures var c := Consume(lots, amount, true);
            && c.consumed == Min(amount, SumLots(lots))
            && SumLots(c.kept) == SumLots(lots) - c.consumed
            && (if c.consumed == 0 then c.kept == lots
                else exists kept :: IsRemainder(lots, kept, k) && c.kept == Taint(kept))
  {
    k := EatRemainder(lots, amount);
    EatSum(lots, amount);
    SumTaint(Eat(lots, amount).kept);
    PositiveSum(lots);
  }

  /** Taking `taken` from the head of a queue: nothing changes, or what is left is a remainder, all of it tainted. */
  ghost predicate LeavesRest(before: seq<Lot>, after: seq<Lot>, taken: int) {
    && SumLots(after) == SumLots(before) - taken
    && (if taken == 0 then after == before
        else exists kept: seq<Lot>, k: nat ::
               && IsRemainder(before, kept, k) && |after| == |kept|
               && forall i :: 0 <= i < |kept| ==> after[i] == kept[i].(tainted := true))
  }

  lemma ConsumeLeavesRest(lots: seq<Lot>, amount: nat)
    requires Positive(lots)
    ensures var c := Consume(lots, amount, true);
            c.consumed == Min(amount, SumLots(lots)) && LeavesRest(lots, c.kept, c.consumed)
  {
    var k := ConsumeExact(lots, amount);
    var c := Consume(lots, amount, true);
    if c.consumed != 0 {
      var kept: seq<Lot> :| IsRemainder(lots, kept, k) && c.kept == Taint(kept);
      assert forall i :: 0 <= i < |kept| ==> c.kept[i] == kept[i].(tainted := true);
    }
  }

  lemma RemainderFifo(lots: seq<Lot>, kept: seq<Lot>, k: nat, lotSequence: int)
    requires IsRemainder(lots, kept, k)
    requires Positive(lots) && Fifo(lots, lotSequence)
    ensures Positive(kept) && Fifo(kept, lotSequence)
  {
    forall i | 0 <= i < |kept| ensures kept[i].number == lots[k + i].number && kept[i].minor > 0 {
      assert i > 0 ==> kept[i] == lots[k + i];
    }
  }

  lemma ConsumeBacked(cs: ChainState, amount: nat, lotSequence: int)
    requires ChainBacked(cs, lotSequence)
    ensures Positive(Consume(cs.lots, amount, true).kept) && Fifo(Consume(cs.lots, amount, true).kept, lotSequence)
    ensures Consume(cs.lots, amount, true).consumed == Min(amount, SumLots(cs.lots))
    ensures SumLots(Consume(cs.lots, amount, true).kept) == SumLots(cs.lots) - Consume(cs.lots, amount, true).consumed
    ensures cs.lots == [] ==> Consume(cs.lots, amount, true).kept == []
    ensures 0 <= Consume(cs.lots, amount, true).consumed <= SumLots(cs.lots)
  {
    var k := EatRemainder(cs.lots, amount);
    RemainderFifo(cs.lots, Eat(cs.lots, amount).kept, k, lotSequence);
    EatSum(cs.lots, amount);
    SumTaint(Eat(cs.lots, amount).kept);
    PositiveSum(cs.lots);
  }

  datatype AnyConsumption = AnyConsumption(state: PayState, consumed: int)

  function ConsumeOn(ps: PayState, c: Chain, amount: int): AnyConsumption {
    var r := Consume(ps.On(c).lots, amount, true);
    AnyConsumption(ps.With(c, ps.On(c).(lots := r.kept)), r.consumed)
  }

  /** `_consume_any_suspense`: Ethereum first, then Solana for what is still missing. */
  function ConsumeAny(ps: PayState, amount: int): AnyConsumption {
    var eth := ConsumeOn(ps, Eth, amount);
    if amount == eth.consumed then eth
    else
      var sol := ConsumeOn(eth.state, Sol, amount - eth.consumed);
      AnyConsumption(sol.state, eth.consumed + sol.consumed)
  }

  function TotalSuspense(ps: PayState): int {
    SumLots(ps.eth.lots) + SumLots(ps.sol.lots)
  }

  lemma ConsumeOnBacked(ps: PayState, c: Chain, amount: nat)
    requires Backed(ps)
    ensures var r := ConsumeOn(ps, c, amount);
            && Backed(r.state)
            && r.consumed == Min(amount, SumLots(ps.On(c).lots))
            && r.state == ps.With(c, ps.On(c).(lots := r.state.On(c).lots))
            && SumLots(r.state.On(c).lots) == SumLots(ps.On(c).lots) - r.consumed
  {
    ConsumeBacked(ps.On(c), amount, ps.lotSequence);
  }

  lemma BackedSums(ps: PayState)
    requires Backed(ps)
    ensures 0 <= SumLots(ps.eth.lots) && 0 <= SumLots(ps.sol.lots)
  {
    PositiveSum(ps.eth.lots);
    PositiveSum(ps.sol.lots);
  }

  lemma ConsumeAnyExact(ps: PayState, amount: nat)
    requires Backed(ps)
    ensures var r := ConsumeAny(ps, amount);
            && r.consumed == Min(amount, TotalSuspense(ps))
            && TotalSuspense(r.state) == TotalSuspense(ps) - r.consumed
            && Backed(r.state)
            && r.state == ps.(eth := r.state.eth, sol := r.state.sol)
            && r.state.eth == ps.eth.(lots := r.state.eth.lots)
            && r.state.sol == ps.sol.(lots := r.state.sol.lots)
  {
    hide Backed, SumLots, ConsumeOn;
    ConsumeOnBacked(ps, Eth, amount);
    BackedSums(ps);
    var eth := ConsumeOn(ps, Eth, amount);
    if amount != eth.consumed {
      ConsumeOnBacked(eth.state, Sol, amount - eth.consumed);
    }
  }

  // ---- State changes -----------------------------------------------------------------------

  /** What is attributed or waiting, less what is owed to future deltas. Only chain movements change it. */
  function Held(ps: PayState): int {
    TotalSuspense(ps) + ps.manual + ps.auto - ps.reserved
  }

  /** `_add_suspense`. */
  function AddSuspense(ps: PayState, c: Chain, minor: int): PayState {
    if minor <= 0 then ps
    else
      var number := ps.lotSequence + 1;
      ps.With(c, ps.On(c).(lots := ps.On(c).lots + [Lot(number, minor, false)])).(lotSequence := number)
  }

  /** `reconcile_manual_collection`: consume what is there and reserve the rest. */
  function Reconcile(ps: PayState, minor: int): PayState {
    var r := ConsumeAny(ps, minor);
    r.state.(reserved := r.state.reserved + minor - r.consumed, manual := r.state.manual + minor)
  }

  /** The counter updates of `_settle_transfer`. */
  function Attribute(ps: PayState, minor: int): PayState {
    var r := ConsumeAny(ps, minor);
    r.state.(reserved := r.state.reserved + minor - r.consumed, auto := r.state.auto + minor)
  }

  lemma SettlementKeepsHeld(ps: PayState, minor: nat)
    requires Backed(ps)
    ensures Backed(Reconcile(ps, minor)) && Held(Reconcile(ps, minor)) == Held(ps)
    ensures Backed(Attribute(ps, minor)) && Held(Attribute(ps, minor)) == Held(ps)
    ensures Reconcile(ps, minor).manual == ps.manual + minor && Reconcile(ps, minor).auto == ps.auto
    ensures Attribute(ps, minor).auto == ps.auto + minor && Attribute(ps, minor).manual == ps.manual
  {
    ConsumeAnyExact(ps, minor);
    PositiveSum(ps.eth.lots);
    PositiveSum(ps.sol.lots);
  }

  /**
   What attributing `minor` does to the queues and the reservation: the waiting lots pay first, Ethereum's before
   Solana's and each queue from its head, and only what they lack is reserved.
   */
  ghost predicate SettlesFrom(before: PayState, after: PayState, minor: nat) {
    var taken := Min(minor, TotalSuspense(before));
    var first := Min(minor, SumLots(before.eth.lots));
    && after == before.(eth := before.eth.(lots := after.eth.lots), sol := before.sol.(lots := after.sol.lots),
                        reserved := before.reserved + minor - taken, manual := after.manual, auto := after.auto)
    && LeavesRest(before.eth.lots, after.eth.lots, first)
    && LeavesRest(before.sol.lots, after.sol.lots, taken - first)
  }

  lemma ConsumeOnLeaves(ps: PayState, c: Chain, amount: nat)
    requires Backed(ps)
    ensures var r := ConsumeOn(ps, c, amount); var lots := r.state.On(c).lots;
            && r.consumed == Min(amount, SumLots(ps.On(c).lots)) && LeavesRest(ps.On(c).lots, lots, r.consumed)
            && r.state == ps.With(c, ps.On(c).(lots := lots))
  {
    hide LeavesRest, SumLots;
    ConsumeLeavesRest(ps.On(c).lots, amount);
  }

  lemma NothingTaken(lots: seq<Lot>)
    ensures LeavesRest(lots, lots, 0)
  {}

  lemma ConsumeAnyLeaves(ps: PayState, amount: nat)
    requires Backed(ps)
    ensures var r := ConsumeAny(ps, amount); var first := Min(amount, SumLots(ps.eth.lots));
            && r.consumed == Min(amount, TotalSuspense(ps))
            && r.state == ps.(eth := ps.eth.(lots := r.state.eth.lots), sol := ps.sol.(lots := r.state.sol.lots))
            && LeavesRest(ps.eth.lots, r.state.eth.lots, first)
            && LeavesRest(ps.sol.lots, r.state.sol.lots, r.consumed - first)
  {
    hide Backed, SumLots, LeavesRest, ConsumeOn;
    BackedSums(ps);
    ConsumeOnBacked(ps, Eth, amount);
    ConsumeOnLeaves(ps, Eth, amount);
    var eth := ConsumeOn(ps, Eth, amount);
    if amount != eth.consumed {
      ConsumeOnLeaves(eth.state, Sol, amount - eth.consumed);
    } else {
      NothingTaken(ps.sol.lots);
    }
  }

  /** Both settlements divide the amount between suspense and reservation the same way, and each has its own counter. */
  lemma SettlementExactly(ps: PayState, minor: nat)
    requires Backed(ps)
    ensures var manual := Reconcile(ps, minor);
            SettlesFrom(ps, manual, minor) && manual.manual == ps.manual + minor && manual.auto == ps.auto
    ensures var auto := Attribute(ps, minor);
            SettlesFrom(ps, auto, minor) && auto.auto == ps.auto + minor && auto.manual == ps.manual
  {
    hide Backed, SumLots, LeavesRest, ConsumeAny;
    ConsumeAnyLeaves(ps, minor);
  }

  datatype Observation = Observation(minor: nat, height: Option<nat>)

  datatype Freshness = Accepted | Stale | ChangedAtSameHeight | Repeated

  /** The result of one balance read; `inflow` and `removed` are what the read did to the suspense. */
  datatype Observed = Observed(state: PayState, freshness: Freshness, inflow: int, removed: int)

  function Judge(cs: ChainState, obs: Observation): Freshness {
    if obs.height.None? || cs.height.None? then Accepted
    else if obs.height.value < cs.height.value then Stale
    else if obs.height.value == cs.height.value then
      if obs.minor != cs.balance then ChangedAtSameHeight else Repeated
    else Accepted
  }

  /** A balance that fell: the shortfall leaves the queue, oldest lots first. */
  function Withdraw(cs: ChainState, withdrawn: int): Consumption {
    Consume(cs.lots, withdrawn, true)
  }

  /** A balance that rose: outstanding reservations absorb it first, the rest becomes a new lot. */
  function Deposit(ps: PayState, c: Chain, delta: int): PayState {
    var reserved := Min(delta, ps.reserved);
    AddSuspense(ps.(reserved := ps.reserved - reserved), c, delta - reserved)
  }

  /** The chain state an accepted read leaves before its delta is booked. */
  function ReadIn(cs: ChainState, obs: Observation): ChainState {
    var height := if obs.height.Some? then Some(obs.height.value as int) else cs.height;
    cs.(balance := obs.minor, height := height, initialized := true)
  }

  /** `_observe_balance`. */
  function Observe(ps: PayState, c: Chain, obs: Observation): (o: Observed) {
    var cs := ps.On(c);
    var freshness := Judge(cs, obs);
    if !freshness.Accepted? then Observed(ps, freshness, 0, 0)
    else
      var read := ReadIn(cs, obs);
      var delta := obs.minor - cs.balance;
      if !cs.initialized || delta == 0 then Observed(ps.With(c, read), Accepted, 0, 0)
      else if delta < 0 then
        var r := Withdraw(cs, -delta);
        Observed(ps.With(c, read.(lots := r.kept)), Accepted, 0, r.consumed)
      else Observed(Deposit(ps.With(c, read), c, delta), Accepted, delta, 0)
  }

  lemma AppendBacked(cs: ChainState, lotSequence: int, minor: int, balance: int)
    requires ChainBacked(cs, lotSequence) && 0 <= lotSequence
    requires 0 < minor && SumLots(cs.lots) + minor <= balance
    ensures var lots := cs.lots + [Lot(lotSequence + 1, minor, false)];
            Positive(lots) && Fifo(lots, lotSequence + 1) && SumLots(lots) == SumLots(cs.lots) + minor <= balance
  {
    SumLotsConcat(cs.lots, [Lot(lotSequence + 1, minor, false)]);
  }

  lemma DepositBacked(ps: PayState, c: Chain, delta: int)
    requires Backed(ps.With(c, ps.On(c).(balance := ps.On(c).balance - delta)))
    requires ps.On(c).initialized && delta > 0
    ensures var d := Deposit(ps, c, delta);
            && ChainBacked(d.On(c), d.lotSequence)
            && d.lotSequence >= ps.lotSequence && 0 <= d.reserved
            && d == ps.With(c, ps.On(c).(lots := d.On(c).lots)).(lotSequence := d.lotSequence, reserved := d.reserved)
            && SumLots(d.On(c).lots) - d.reserved == SumLots(ps.On(c).lots) - ps.reserved + delta
  {
    var reserved := Min(delta, ps.reserved);
    if delta > reserved {
      AppendBacked(ps.On(c).(balance := ps.On(c).balance - delta), ps.lotSequence, delta - reserved, ps.On(c).balance);
    }
  }

  lemma WithdrawBacked(cs: ChainState, obs: Observation, lotSequence: int)
    requires ChainBacked(cs, lotSequence) && obs.minor < cs.balance
    ensures var r := Withdraw(cs, cs.balance - obs.minor);
            && ChainBacked(ReadIn(cs, obs).(lots := r.kept), lotSequence)
            && SumLots(r.kept) == SumLots(cs.lots) - r.consumed
  {
    ConsumeBacked(cs, cs.balance - obs.minor, lotSequence);
  }

  lemma ReadInBacked(ps: PayState, c: Chain, obs: Observation)
    requires Backed(ps) && ps.On(c).initialized
    ensures var read := ps.With(c, ReadIn(ps.On(c), obs));
            Backed(read.With(c, read.On(c).(balance := ps.On(c).balance)))
  {}

  /** What an accepted read must leave on its chain, and how far the suspense there may have moved. */
  predicate ReadWell(ps: PayState, c: Chain, o: Observed) {
    && ChainBacked(o.state.On(c), o.state.lotSequence)
    && o.state.lotSequence >= ps.lotSequence && 0 <= o.state.reserved
    && SumLots(o.state.On(c).lots) - o.state.reserved == SumLots(ps.On(c).lots) - ps.reserved + o.inflow - o.removed
  }

  lemma ObserveWithdrawal(ps: PayState, c: Chain, obs: Observation)
    requires Backed(ps) && Judge(ps.On(c), obs).Accepted? && ps.On(c).initialized && obs.minor < ps.On(c).balance
    ensures ReadWell(ps, c, Observe(ps, c, obs))
  {
    BackedChain(ps, c);
    hide Backed, ChainBacked, SumLots, Withdraw, Consume;
    var r := Withdraw(ps.On(c), ps.On(c).balance - obs.minor);
    WithdrawBacked(ps.On(c), obs, ps.lotSequence);
    var next := ps.With(c, ReadIn(ps.On(c), obs).(lots := r.kept));
    assert Observe(ps, c, obs) == Observed(next, Accepted, 0, r.consumed);
    assert next.On(c) == ReadIn(ps.On(c), obs).(lots := r.kept);
  }

  lemma ObserveDeposit(ps: PayState, c: Chain, obs: Observation)
    requires Backed(ps) && Judge(ps.On(c), obs).Accepted? && ps.On(c).initialized && obs.minor > ps.On(c).balance
    ensures ReadWell(ps, c, Observe(ps, c, obs))
  {
    hide Backed, ChainBacked, SumLots, Deposit;
    ReadInBacked(ps, c, obs);
    DepositBacked(ps.With(c, ReadIn(ps.On(c), obs)), c, obs.minor - ps.On(c).balance);
  }

  lemma BackedChain(ps: PayState, c: Chain)
    requires Backed(ps)
    ensures ChainBacked(ps.On(c), ps.lotSequence) && 0 <= ps.reserved && 0 <= ps.lotSequence
  {}

  lemma ObserveChain(ps: PayState, c: Chain, obs: Observation)
    requires Backed(ps)
    requires Judge(ps.On(c), obs).Accepted?
    ensures ReadWell(ps, c, Observe(ps, c, obs))
  {
    BackedChain(ps, c);
    hide Backed, ChainBacked, SumLots, Withdraw, Deposit;
    var cs := ps.On(c);
    if !cs.initialized || obs.minor == cs.balance {
      QuietReadBacked(cs, obs, ps.lotSequence);
    } else if obs.minor < cs.balance {
      ObserveWithdrawal(ps, c, obs);
    } else {
      ObserveDeposit(ps, c, obs);
    }
  }

  lemma QuietReadBacked(cs: ChainState, obs: Observation, lotSequence: int)
    requires ChainBacked(cs, lotSequence) && (!cs.initialized || obs.minor == cs.balance)
    ensures ChainBacked(ReadIn(cs, obs), lotSequence)
  {}

  lemma FifoMonotone(cs: ChainState, lower: int, upper: int)
    requires ChainBacked(cs, lower) && lower <= upper
    ensures ChainBacked(cs, upper)
  {}

  /** What an observation leaves alone and what it records. */
  lemma ObserveFrame(ps: PayState, c: Chain, obs: Observation)
    ensures var o := Observe(ps, c, obs);
            && (!o.freshness.Accepted? ==> o.state == ps)
            && (o.freshness.Accepted? ==> o.state.On(c).balance == obs.minor && o.state.On(c).initialized)
            && (ps.On(c).height.Some? ==> o.state.On(c).height.Some?
                                          && ps.On(c).height.value <= o.state.On(c).height.value)
            && (forall other :: other != c ==> o.state.On(other) == ps.On(other))
            && o.state.manual == ps.manual && o.state.auto == ps.auto
  {
    hide Withdraw;
  }

  lemma BackedWhole(before: PayState, after: PayState, c: Chain)
    requires Backed(before) && ChainBacked(after.On(c), after.lotSequence)
    requires after.lotSequence >= before.lotSequence && 0 <= after.reserved
    requires after.manual == before.manual && after.auto == before.auto
    requires forall other :: other != c ==> after.On(other) == before.On(other)
    ensures Backed(after)
  {
    var other := if c.Eth? then Sol else Eth;
    BackedChain(before, other);
    FifoMonotone(before.On(other), before.lotSequence, after.lotSequence);
    hide ChainBacked;
    assert after.On(other) == before.On(other);
  }

  /** `_observe_balance` keeps the suspense backed, moves heights forward only, and ignores what it rejects. */
  lemma ObserveKeepsBacked(ps: PayState, c: Chain, obs: Observation)
    requires Backed(ps)
    ensures var o := Observe(ps, c, obs);
            && Backed(o.state)
            && (!o.freshness.Accepted? ==> o.state == ps)
            && (o.freshness.Accepted? ==> o.state.On(c).balance == obs.minor && o.state.On(c).initialized)
            && (ps.On(c).height.Some? ==> o.state.On(c).height.Some?
                                          && ps.On(c).height.value <= o.state.On(c).height.value)
            && (forall other :: other != c ==> o.state.On(other) == ps.On(other))
            && o.state.manual == ps.manual && o.state.auto == ps.auto
  {
    hide Backed, ChainBacked, SumLots, Observe;
    ObserveFrame(ps, c, obs);
    Rejected(ps, c, obs);
    if Judge(ps.On(c), obs).Accepted? {
      ObserveChain(ps, c, obs);
      BackedWhole(ps, Observe(ps, c, obs).state, c);
    }
  }

  lemma Rejected(ps: PayState, c: Chain, obs: Observation)
    ensures Observe(ps, c, obs).freshness == Judge(ps.On(c), obs)
  {}

  /** The conservation law of one observation: suspense moves by accepted inflow less what a withdrawal removed. */
  lemma ObserveMovesHeld(ps: PayState, c: Chain, obs: Observation)
    requires Backed(ps)
    ensures var o := Observe(ps, c, obs); Held(o.state) == Held(ps) + o.inflow - o.removed
  {
    if Judge(ps.On(c), obs).Accepted? {
      ObserveChain(ps, c, obs);
    }
  }

  /** How an accepted read of an initialized chain divides the change of its balance. */
  ghost predicate DividesChange(before: PayState, c: Chain, o: Observed, delta: int) {
    var lots, after := before.On(c).lots, o.state.On(c).lots;
    if delta >= 0 then
      var absorbed := Min(delta, before.reserved);
      && o.inflow == delta && o.removed == 0 && o.state.reserved == before.reserved - absorbed
      && if delta == absorbed then after == lots && o.state.lotSequence == before.lotSequence
         else after == lots + [Lot(before.lotSequence + 1, delta - absorbed, false)]
              && o.state.lotSequence == before.lotSequence + 1
    else
      && o.inflow == 0 && o.removed == Min(-delta, SumLots(lots)) && LeavesRest(lots, after, o.removed)
      && o.state.reserved == before.reserved && o.state.lotSequence == before.lotSequence
  }

  lemma RiseDivides(ps: PayState, c: Chain, obs: Observation)
    requires Backed(ps) && Judge(ps.On(c), obs).Accepted? && ps.On(c).initialized && obs.minor > ps.On(c).balance
    ensures DividesChange(ps, c, Observe(ps, c, obs), obs.minor - ps.On(c).balance)
  {
    BackedChain(ps, c);
    hide Backed, ChainBacked, SumLots, LeavesRest, Withdraw;
    var read := ps.With(c, ReadIn(ps.On(c), obs));
    assert read.On(c).lots == ps.On(c).lots && read.reserved == ps.reserved;
  }

  lemma FallDivides(ps: PayState, c: Chain, obs: Observation)
    requires Backed(ps) && Judge(ps.On(c), obs).Accepted? && ps.On(c).initialized && obs.minor < ps.On(c).balance
    ensures DividesChange(ps, c, Observe(ps, c, obs), obs.minor - ps.On(c).balance)
  {
    BackedChain(ps, c);
    ConsumeLeavesRest(ps.On(c).lots, ps.On(c).balance - obs.minor);
    hide Backed, ChainBacked, SumLots, LeavesRest, Consume, Deposit;
  }

  lemma QuietDivides(ps: PayState, c: Chain, obs: Observation)
    requires Backed(ps) && Judge(ps.On(c), obs).Accepted? && (!ps.On(c).initialized || obs.minor == ps.On(c).balance)
    ensures DividesChange(ps, c, Observe(ps, c, obs), 0)
  {
    BackedChain(ps, c);
    hide Backed, ChainBacked, SumLots, LeavesRest, Withdraw, Deposit;
  }

  /** Everything about a read but how it divides the change of balance. */
  lemma ReadFrame(ps: PayState, c: Chain, obs: Observation)
    ensures var o := Observe(ps, c, obs);
            && o.freshness == Judge(ps.On(c), obs)
            && (if o.freshness.Accepted? then o.state.On(c) == ReadIn(ps.On(c), obs).(lots := o.state.On(c).lots)
                else o.state == ps && o.inflow == 0 && o.removed == 0)
            && (forall other :: other != c ==> o.state.On(other) == ps.On(other))
            && o.state.manual == ps.manual && o.state.auto == ps.auto
  {
    hide Withdraw, Judge;
  }

  /**
   A balance read, exactly. It counts if it or the record has no height or its height is new, and a rejected one does
   nothing. The first read is a baseline. After it a rise first releases reservations, and only the rest becomes one
   new lot; a fall takes the oldest lots and taints the others.
   */
  lemma ObserveExactly(ps: PayState, c: Chain, obs: Observation)
    requires Backed(ps)
    ensures var o := Observe(ps, c, obs); var cs, after := ps.On(c), o.state.On(c);
            var newer := obs.height.None? || cs.height.None? || cs.height.value < obs.height.value;
            && (o.freshness.Accepted? <==> newer)
            && (o.freshness.ChangedAtSameHeight? <==>
                  !newer && cs.height.value == obs.height.value && obs.minor != cs.balance)
            && (o.freshness.Repeated? <==> !newer && cs.height.value == obs.height.value && obs.minor == cs.balance)
            && (!newer ==> o.state == ps && o.inflow == 0 && o.removed == 0)
            && (newer ==>
                  && after.balance == obs.minor && after.initialized
                  && after.height == (if obs.height.None? then cs.height else Some(obs.height.value as int))
                  && o.state.manual == ps.manual && o.state.auto == ps.auto
                  && (forall other :: other != c ==> o.state.On(other) == ps.On(other))
                  && DividesChange(ps, c, o, if cs.initialized then obs.minor - cs.balance else 0))
  {
    hide Backed, Observe, DividesChange;
    var cs := ps.On(c);
    ReadFrame(ps, c, obs);
    if Judge(cs, obs).Accepted? {
      if !cs.initialized || obs.minor == cs.balance {
        QuietDivides(ps, c, obs);
      } else if obs.minor > cs.balance {
        RiseDivides(ps, c, obs);
      } else {
        FallDivides(ps, c, obs);
      }
    }
  }

  // ---- Loading -----------------------------------------------------------------------------

  function AtLeastZero(n: int): int {
    if n < 0 then 0 else n
  }

  function KeepPositive(lots: seq<Lot>): seq<Lot> {
    if lots == [] then []
    else (if lots[0].minor <= 0 then [] else [lots[0]]) + KeepPositive(lots[1..])
  }

  function ChainFromV2(raw: ChainState): ChainState {
    ChainState(raw.initialized, AtLeastZero(raw.balance),
               if raw.height.Some? then Some(AtLeastZero(raw.height.value)) else None,
               KeepPositive(raw.lots))
  }

  /** `_state_from_v2` on a record of version 2: clamp every counter and drop empty lots. */
  function StateFromV2(raw: PayState): PayState {
    PayState(ChainFromV2(raw.eth), ChainFromV2(raw.sol), AtLeastZero(raw.lotSequence),
             AtLeastZero(raw.reserved), AtLeastZero(raw.manual), AtLeastZero(raw.auto))
  }

  lemma {:induction false} KeepPositiveIdentity(lots: seq<Lot>)
    requires Positive(lots)
    ensures KeepPositive(lots) == lots
  {
    if lots != [] {
      KeepPositiveIdentity(lots[1..]);
    }
  }

  /** Reloading a state the watcher wrote gives that state back. */
  lemma LoadIsIdentity(ps: PayState)
    requires Backed(ps)
    ensures StateFromV2(ps) == ps
  {
    PositiveSum(ps.eth.lots);
    PositiveSum(ps.sol.lots);
    KeepPositiveIdentity(ps.eth.lots);
    KeepPositiveIdentity(ps.sol.lots);
  }

  function MigratedChain(legacy: map<Chain, nat>, c: Chain): ChainState {
    if c in legacy then ChainState(true, legacy[c], None, []) else NEW_CHAIN
  }

  /** `_load_state`: the stored record, or a first record that keeps only the legacy baselines. */
  function LoadState(db: Db): PayState {
    if db.pay.Some? then StateFromV2(db.pay.value)
    else NEW_STATE.(eth := MigratedChain(db.legacy, Eth), sol := MigratedChain(db.legacy, Sol))
  }

  lemma {:induction false} KeepPositiveExactly(lots: seq<Lot>)
    ensures forall x :: x in KeepPositive(lots) <==> x in lots && x.minor > 0
    ensures Positive(KeepPositive(lots))
  {
    if lots != [] {
      KeepPositiveExactly(lots[1..]);
      assert forall x :: x in lots <==> x == lots[0] || x in lots[1..];
    }
  }

  /**
   Loading: a store with a record gives it back with negative numbers raised to zero and empty lots dropped; one with
   only the old balances starts from those as baselines, with nothing waiting, reserved or attributed.
   */
  lemma LoadExactly(db: Db, c: Chain)
    ensures var ps := LoadState(db); var cs := ps.On(c);
            if db.pay.None? then
              && cs == ChainState(c in db.legacy, if c in db.legacy then db.legacy[c] else 0, None, [])
              && ps.reserved == 0 && ps.manual == 0 && ps.auto == 0 && ps.lotSequence == 0
            else
              var raw := db.pay.value;
              && cs.initialized == raw.On(c).initialized && cs.balance == -Min(0, -raw.On(c).balance)
              && (forall x :: x in cs.lots <==> x in raw.On(c).lots && x.minor > 0)
              && cs.height.Some? == raw.On(c).height.Some?
              && (cs.height.Some? ==> cs.height.value == -Min(0, -raw.On(c).height.value))
              && ps.reserved == -Min(0, -raw.reserved) && ps.manual == -Min(0, -raw.manual)
              && ps.auto == -Min(0, -raw.auto) && ps.lotSequence == -Min(0, -raw.lotSequence)
  {
    if db.pay.Some? {
      KeepPositiveExactly(db.pay.value.On(c).lots);
    }
  }
}
