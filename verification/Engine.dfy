/**
 `step`'s loops over the pipeline, updating the desk, the frozen agents and the log of what happened.
 */
module Engine {
  import opened Tables
  import opened Inbox
  import opened QuorumRuns
  import Lifecycle
  import opened Heartbeat

  class Clockwork {
    var desk: Desk
    var frozen: set<string>
    var log: seq<Deed>

    constructor (desk: Desk, frozen: set<string>)
      ensures View() == TickState(desk, frozen, [])
    {
      this.desk, this.frozen, log := desk, frozen, [];
    }

    function View(): TickState
      reads this
    {
      TickState(desk, frozen, log)
    }

    method Perform(d: Deed)
      modifies this
      ensures View() == Do(old(View()), d)
    {
      desk := QuorumRuns.Step(desk, d);
      log := log + [d];
    }

    method Pump(t: Tick, name: string)
      modifies this
      ensures View() == PumpFor(t, old(View()), name)
    {
      Perform(PumpDeed(t.w.(frozen := frozen), name));
    }

    method Role(t: Tick, name: string)
      modifies this
      ensures View() == DoAll(old(View()), t.work(name).deeds).(frozen := t.work(name).frozen)
    {
      hide QuorumRuns.Step, Do;
      var deeds := t.work(name).deeds;
      var i := 0;
      assert deeds[0..] == deeds;
      while i < |deeds|
        invariant 0 <= i <= |deeds|
        invariant DoAll(View(), deeds[i..]) == DoAll(old(View()), deeds)
      {
        assert deeds[i..][1..] == deeds[i + 1..];
        Perform(deeds[i]);
        i := i + 1;
      }
      frozen := t.work(name).frozen;
    }

    /** The pipeline loop: pump an unfrozen agent that had mail at the start, then run its role. */
    method Pipeline(t: Tick, start: seq<Message>)
      modifies this
      ensures View() == Turns(t, start, old(View()), PIPELINE)
    {
      hide QuorumRuns.Step, Do, DoAll, HasMail, PIPELINE;
      var i := 0;
      assert PIPELINE[0..] == PIPELINE;
      while i < |PIPELINE|
        invariant 0 <= i <= |PIPELINE|
        invariant Turns(t, start, View(), PIPELINE[i..]) == Turns(t, start, old(View()), PIPELINE)
      {
        var name := PIPELINE[i];
        assert PIPELINE[i..][0] == name && PIPELINE[i..][1..] == PIPELINE[i + 1..];
        if name !in frozen {
          if t.w.comms && HasMail(start, name) {
            Pump(t, name);
          }
          Role(t, name);
        }
        i := i + 1;
      }
    }

    /** The catch-up loop. */
    method CatchUp(t: Tick, late: seq<string>)
      modifies this
      ensures View() == Pumps(t, old(View()), late)
    {
      hide QuorumRuns.Step, Do;
      var i := 0;
      assert late[0..] == late;
      while i < |late|
        invariant 0 <= i <= |late|
        invariant Pumps(t, View(), late[i..]) == Pumps(t, old(View()), late)
      {
        assert late[i..][1..] == late[i + 1..];
        Pump(t, late[i]);
        i := i + 1;
      }
    }

    /** One tick. */
    method Step(t: Tick)
      modifies this
      ensures View() == Beat(t, old(desk), old(frozen))
    {
      hide QuorumRuns.Step, Do, Turns, Pumps, HasMail, Late;
      log := [];
      if t.w.comms {
        Perform(BusDeed(t.w.env, Lifecycle.SweepOp(t.w.now)));
        if t.retention {
          Perform(BusDeed(t.w.env, Lifecycle.PruneOp(t.w.now, RETENTION, {Done, Expired})));
        }
      }
      var start := desk.db.messages;
      Pipeline(t, start);
      if t.w.comms {
        CatchUp(t, Late(PIPELINE, start, desk.db.messages, frozen));
      }
    }
  }
}
