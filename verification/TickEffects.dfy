/**
 Which deeds a tick consists of: the sweeps it starts with, and the work of every role that is not frozen, in order.
 */
module TickEffects {
  import opened Tables
  import opened Bus
  import opened Lifecycle
  import opened QuorumRuns
  import opened Heartbeat

  predicate IsSweep(d: Deed) {
    d.BusDeed? && (d.op.SweepOp? || d.op.PruneOp?)
  }

  /** The sweeps in a log. */
  function Sweeps(log: seq<Deed>): seq<Deed> {
    if log == [] then []
    else Sweeps(log[..|log| - 1]) + if IsSweep(log[|log| - 1]) then [log[|log| - 1]] else []
  }

  /** What roles did in a log: everything but pumps and sweeps. */
  function RoleDeeds(log: seq<Deed>): seq<Deed> {
    if log == [] then []
    else RoleDeeds(log[..|log| - 1])
         + if !log[|log| - 1].PumpDeed? && !IsSweep(log[|log| - 1]) then [log[|log| - 1]] else []
  }

  /** The work of the roles in turn, where each decides who is frozen after it and a frozen one does nothing. */
  function Work(t: Tick, frozen: set<string>, names: seq<string>): seq<Deed>
    decreases |names|
  {
    if names == [] then []
    else if names[0] in frozen then Work(t, frozen, names[1..])
    else t.work(names[0]).deeds + Work(t, t.work(names[0]).frozen, names[1..])
  }

  function FrozenAfter(t: Tick, frozen: set<string>, names: seq<string>): set<string>
    decreases |names|
  {
    if names == [] then frozen
    else FrozenAfter(t, if names[0] in frozen then frozen else t.work(names[0]).frozen, names[1..])
  }

  lemma AfterDo(p: TickState, d: Deed)
    ensures Sweeps(Do(p, d).log) == Sweeps(p.log) + if IsSweep(d) then [d] else []
    ensures RoleDeeds(Do(p, d).log) == RoleDeeds(p.log) + if !d.PumpDeed? && !IsSweep(d) then [d] else []
  {
    hide Step;
    assert (p.log + [d])[..|p.log|] == p.log;
  }

  lemma {:induction false} AfterDoAll(p: TickState, ds: seq<Deed>)
    requires forall i :: 0 <= i < |ds| ==> !ds[i].PumpDeed? && !IsSweep(ds[i])
    ensures Sweeps(DoAll(p, ds).log) == Sweeps(p.log) && RoleDeeds(DoAll(p, ds).log) == RoleDeeds(p.log) + ds
    ensures DoAll(p, ds).frozen == p.frozen
    decreases |ds|
  {
    hide Step, Sweeps, RoleDeeds, IsSweep;
    if ds == [] {
      assert RoleDeeds(p.log) + [] == RoleDeeds(p.log);
    } else {
      AfterDo(p, ds[0]);
      AfterDoAll(Do(p, ds[0]), ds[1..]);
      assert RoleDeeds(p.log) + [ds[0]] + ds[1..] == RoleDeeds(p.log) + ds;
    }
  }

  lemma AfterTurn(t: Tick, start: seq<Message>, p: TickState, name: string)
    requires RolesBehave(t)
    ensures var q := Turn(t, start, p, name);
            && Sweeps(q.log) == Sweeps(p.log)
            && RoleDeeds(q.log) == RoleDeeds(p.log) + (if name in p.frozen then [] else t.work(name).deeds)
            && q.frozen == if name in p.frozen then p.frozen else t.work(name).frozen
  {
    hide Do, DoAll, Sweeps, RoleDeeds, HasMail;
    var pump := PumpDeed(t.w.(frozen := p.frozen), name);
    AfterDo(p, pump);
    var pumped := if t.w.comms && HasMail(start, name) then PumpFor(t, p, name) else p;
    AfterDoAll(pumped, t.work(name).deeds);
    assert RoleDeeds(p.log) + [] == RoleDeeds(p.log) && Sweeps(p.log) + [] == Sweeps(p.log);
  }

  lemma {:induction false} AfterTurns(t: Tick, start: seq<Message>, p: TickState, names: seq<string>)
    requires RolesBehave(t)
    ensures var q := Turns(t, start, p, names);
            && Sweeps(q.log) == Sweeps(p.log) && RoleDeeds(q.log) == RoleDeeds(p.log) + Work(t, p.frozen, names)
            && q.frozen == FrozenAfter(t, p.frozen, names)
    decreases |names|
  {
    hide Turn, Sweeps, RoleDeeds, RolesBehave;
    if names == [] {
      assert RoleDeeds(p.log) + [] == RoleDeeds(p.log);
    } else {
      var next := Turn(t, start, p, names[0]);
      AfterTurn(t, start, p, names[0]);
      AfterTurns(t, start, next, names[1..]);
      var own := if names[0] in p.frozen then [] else t.work(names[0]).deeds;
      assert RoleDeeds(p.log) + own + Work(t, next.frozen, names[1..])
          == RoleDeeds(p.log) + (own + Work(t, next.frozen, names[1..]));
      assert [] + Work(t, next.frozen, names[1..]) == Work(t, next.frozen, names[1..]);
    }
  }

  lemma {:induction false} AfterPumps(t: Tick, p: TickState, names: seq<string>)
    ensures var q := Pumps(t, p, names);
            Sweeps(q.log) == Sweeps(p.log) && RoleDeeds(q.log) == RoleDeeds(p.log) && q.frozen == p.frozen
    decreases |names|
  {
    hide Sweeps, RoleDeeds, Step;
    if names != [] {
      AfterDo(p, PumpDeed(t.w.(frozen := p.frozen), names[0]));
      assert RoleDeeds(p.log) + [] == RoleDeeds(p.log) && Sweeps(p.log) + [] == Sweeps(p.log);
      AfterPumps(t, PumpFor(t, p, names[0]), names[1..]);
    }
  }

  /** The sweeps a tick makes before anything else: overdue mail, and old settled mail when that is due. */
  function DueSweeps(t: Tick): seq<Deed> {
    if !t.w.comms then []
    else [BusDeed(t.w.env, SweepOp(t.w.now))]
         + if t.retention then [BusDeed(t.w.env, PruneOp(t.w.now, 14 * 86400, {Done, Expired}))] else []
  }

  lemma AfterSweep(t: Tick, desk: Desk, frozen: set<string>)
    ensures var q := Sweep(t, TickState(desk, frozen, []));
            q.log == DueSweeps(t) && Sweeps(q.log) == DueSweeps(t) && RoleDeeds(q.log) == [] && q.frozen == frozen
  {
    hide Step;
    if t.w.comms {
      var sweep := BusDeed(t.w.env, SweepOp(t.w.now));
      var p := TickState(desk, frozen, []);
      AfterDo(p, sweep);
      AfterDo(Do(p, sweep), BusDeed(t.w.env, PruneOp(t.w.now, RETENTION, {Done, Expired})));
    }
  }

  /**
   A tick starts with the sweeps that are due and makes no others; then every role that nobody has frozen by its turn
   does exactly its work, in the order of the pipeline, whatever the pumps between them do.
   */
  lemma TickExactly(t: Tick, desk: Desk, frozen: set<string>)
    requires RolesBehave(t)
    ensures var p := Beat(t, desk, frozen);
            && DueSweeps(t) <= p.log && Sweeps(p.log) == DueSweeps(t)
            && RoleDeeds(p.log) == Work(t, frozen, PIPELINE)
            && p.frozen == FrozenAfter(t, frozen, PIPELINE)
  {
    hide Step, Turns, Pumps, Late, Sweep, Sweeps, RoleDeeds, RolesBehave, Work, FrozenAfter, DueSweeps, PIPELINE;
    var swept := Sweep(t, TickState(desk, frozen, []));
    var start := swept.desk.db.messages;
    AfterSweep(t, desk, frozen);
    AfterTurns(t, start, swept, PIPELINE);
    var turned := Turns(t, start, swept, PIPELINE);
    var late := Late(PIPELINE, start, turned.desk.db.messages, turned.frozen);
    AfterPumps(t, turned, late);
    assert [] + Work(t, frozen, PIPELINE) == Work(t, frozen, PIPELINE);
    TurnsExtend(t, start, swept, PIPELINE);
    PumpsExtend(t, turned, late);
  }

  lemma {:induction false} DoAllExtends(p: TickState, ds: seq<Deed>)
    ensures p.log <= DoAll(p, ds).log
    decreases |ds|
  {
    hide Step;
    if ds != [] {
      DoAllExtends(Do(p, ds[0]), ds[1..]);
    }
  }

  lemma {:induction false} TurnsExtend(t: Tick, start: seq<Message>, p: TickState, names: seq<string>)
    ensures p.log <= Turns(t, start, p, names).log
    decreases |names|
  {
    hide Step, HasMail, DoAll;
    if names != [] {
      var pumped := if t.w.comms && HasMail(start, names[0]) then PumpFor(t, p, names[0]) else p;
      DoAllExtends(pumped, t.work(names[0]).deeds);
      TurnsExtend(t, start, Turn(t, start, p, names[0]), names[1..]);
    }
  }

  lemma {:induction false} PumpsExtend(t: Tick, p: TickState, names: seq<string>)
    ensures p.log <= Pumps(t, p, names).log
    decreases |names|
  {
    hide Step;
    if names != [] {
      PumpsExtend(t, PumpFor(t, p, names[0]), names[1..]);
    }
  }
}
