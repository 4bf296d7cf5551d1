/**
 The watcher's in-memory record: the dictionary that one payment operation loads, mutates in place and
 stores back.
 */
module PaymentRecord {
  import opened Tables
  import opened Suspense

  /** The loop has rebuilt `kept` and consumed that much; `remaining` is still to come from `tail`. */
  predicate Eating(lots: seq<Lot>, amount: int, tail: seq<Lot>, kept: seq<Lot>, remaining: int, consumed: int) {
    Eat(lots, amount) == Consumption(kept + Eat(tail, remaining).kept, consumed + Eat(tail, remaining).consumed)
  }

  lemma EatingStarts(lots: seq<Lot>, amount: int)
    ensures Eating(lots, amount, lots[0..], [], amount, 0)
  {
    hide Eat;
    assert lots[0..] == lots;
  }

  lemma EatLot(lots: seq<Lot>, amount: int, tail: seq<Lot>, kept: seq<Lot>, remaining: int, consumed: int)
    requires Eating(lots, amount, tail, kept, remaining, consumed) && tail != []
    ensures var take := Min(tail[0].minor, remaining); var left := tail[0].minor - take;
            var rebuilt := if left != 0 then kept + [tail[0].(minor := left)] else kept;
            if remaining == take then Eat(lots, amount) == Consumption(rebuilt + tail[1..], consumed + take)
            else Eating(lots, amount, tail[1..], rebuilt, remaining - take, consumed + take)
  {
    hide Eat;
    EatUnfolds(tail, remaining);
    var take := Min(tail[0].minor, remaining);
    var left := tail[0].minor - take;
    var rest := if remaining == take then tail[1..] else Eat(tail[1..], remaining - take).kept;
    if left == 0 {
      assert kept + ([] + rest) == kept + rest;
    } else {
      assert kept + ([tail[0].(minor := left)] + rest) == kept + [tail[0].(minor := left)] + rest;
    }
  }

  lemma EatUnfolds(tail: seq<Lot>, remaining: int)
    requires tail != []
    ensures var take := Min(tail[0].minor, remaining); var left := tail[0].minor - take;
            var head := if left != 0 then [tail[0].(minor := left)] else [];
            Eat(tail, remaining)
            == if remaining == take then Consumption(head + tail[1..], take)
               else Consumption(head + Eat(tail[1..], remaining - take).kept, take + Eat(tail[1..], remaining - take).consumed)
  {}

  lemma EatingEnds(lots: seq<Lot>, amount: int, kept: seq<Lot>, remaining: int, consumed: int)
    requires Eating(lots, amount, [], kept, remaining, consumed)
    ensures Eat(lots, amount) == Consumption(kept, consumed)
  {
    assert kept + [] == kept;
  }

  class PaymentState {
    var eth: ChainState
    var sol: ChainState
    var lotSequence: int
    var reserved: int
    var manual: int
    var auto: int

    constructor (ps: PayState)
      ensures View() == ps
    {
      eth, sol, lotSequence := ps.eth, ps.sol, ps.lotSequence;
      reserved, manual, auto := ps.reserved, ps.manual, ps.auto;
    }

    function View(): PayState
      reads this
    {
      PayState(eth, sol, lotSequence, reserved, manual, auto)
    }

    method SetLots(c: Chain, lots: seq<Lot>)
      modifies this`eth, this`sol
      ensures View() == old(View()).With(c, old(View()).On(c).(lots := lots))
    {
      match c {
        case Eth => eth := eth.(lots := lots);
        case Sol => sol := sol.(lots := lots);
      }
    }

    method SetChain(c: Chain, cs: ChainState)
      modifies this`eth, this`sol
      ensures View() == old(View()).With(c, cs)
    {
      match c {
        case Eth => eth := cs;
        case Sol => sol := cs;
      }
    }

    /** `_add_suspense`: a new lot at the tail, under the next lot number. */
    method AddSuspense(c: Chain, minor: int)
      modifies this
      ensures View() == Suspense.AddSuspense(old(View()), c, minor)
    {
      if minor <= 0 {
        return;
      }
      lotSequence := lotSequence + 1;
      SetLots(c, View().On(c).lots + [Lot(lotSequence, minor, false)]);
    }

    /** `_consume_chain_suspense`: rebuild the queue lot by lot until the amount is met. */
    method ConsumeChainSuspense(c: Chain, amount: nat, taintRemainder: bool) returns (consumed: int)
      modifies this`eth, this`sol
      ensures var r := Consume(old(View()).On(c).lots, amount, taintRemainder);
              && consumed == r.consumed
              && View() == old(View()).With(c, old(View()).On(c).(lots := r.kept))
    {
      hide Eat, Eating, Taint;
      var kept;
      kept, consumed := RebuildQueue(View().On(c).lots, amount);
      if taintRemainder && consumed != 0 {
        kept := Taint(kept);
      }
      SetLots(c, kept);
    }

    method RebuildQueue(lots: seq<Lot>, amount: nat) returns (kept: seq<Lot>, consumed: int)
      ensures Eat(lots, amount) == Consumption(kept, consumed)
    {
      hide Eat, Eating;
      var remaining: int := amount;
      kept, consumed := [], 0;
      var index := 0;
      EatingStarts(lots, amount);
      while index < |lots|
        invariant 0 <= index <= |lots|
        invariant Eating(lots, amount, lots[index..], kept, remaining, consumed)
      {
        EatLot(lots, amount, lots[index..], kept, remaining, consumed);
        assert lots[index..][0] == lots[index] && lots[index..][1..] == lots[index + 1..];
        var available := lots[index].minor;
        var take := Min(available, remaining);
        available := available - take;
        if available != 0 {
          kept := kept + [lots[index].(minor := available)];
        }
        consumed := consumed + take;
        if remaining == take {
          kept := kept + lots[index + 1..];
          return;
        }
        remaining := remaining - take;
        index := index + 1;
      }
      assert lots[index..] == [];
      EatingEnds(lots, amount, kept, remaining, consumed);
    }

    /** `_consume_any_suspense`: chain by chain, stopping as soon as nothing is missing. */
    method ConsumeAnySuspense(amount: nat) returns (consumed: int)
      requires Backed(View())
      modifies this`eth, this`sol
      ensures consumed == ConsumeAny(old(View()), amount).consumed
      ensures View() == ConsumeAny(old(View()), amount).state
      ensures Backed(View())
    {
      hide Backed, Consume, SumLots, TotalSuspense;
      ConsumeAnyExact(View(), amount);
      ConsumeOnBacked(View(), Eth, amount);
      BackedSums(View());
      consumed := ConsumeChainSuspense(Eth, amount, true);
      if amount != consumed {
        var got := ConsumeChainSuspense(Sol, amount - consumed, true);
        consumed := consumed + got;
      }
    }

    /** `_observe_balance`: judge the read, book its delta, and say whether it was fresh. */
    method ObserveBalance(c: Chain, obs: Observation) returns (freshness: Freshness)
      requires Backed(View())
      modifies this
      ensures freshness == Observe(old(View()), c, obs).freshness
      ensures View() == Observe(old(View()), c, obs).state
      ensures Backed(View())
    {
      hide Backed, Consume, SumLots;
      ObserveKeepsBacked(View(), c, obs);
      var cs := View().On(c);
      var previous := cs.balance;
      freshness := Judge(cs, obs);
      if !freshness.Accepted? {
        return;
      }
      SetChain(c, ReadIn(cs, obs));
      if !cs.initialized {
        return;
      }
      var delta := obs.minor - previous;
      if delta < 0 {
        var _ := ConsumeChainSuspense(c, -delta, true);
      } else if delta > 0 {
        var absorbed := Min(delta, reserved);
        if absorbed != 0 {
          reserved := reserved - absorbed;
        }
        AddSuspense(c, delta - absorbed);
      }
    }
  }
}
