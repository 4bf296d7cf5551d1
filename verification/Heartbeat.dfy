/**
 One tick of the engine: which inboxes it pumps, and how far that can move a message.
 */
module Heartbeat {
  import opened Tables
  import opened Bus
  import opened Lifecycle
  import opened Inbox
  import opened Purchase
  import opened QuorumRuns

  const PIPELINE: seq<string> :=
    ["mechanic", "bookkeeper", "risk", "ethics", "director", "hunter", "closer", "crafter",
     "trader", "publisher", "scout", "operator", "treasurer", "auditor", "improver", "courier"]

  const RETENTION := 14 * 86400

  /** What one agent's role does in its turn, and who is frozen when it returns, raises or times out. */
  datatype RoleWork = RoleWork(deeds: seq<Deed>, frozen: set<string>)

  /** The outside world during one tick; `retention` says whether the pruning slot is due. */
  datatype Tick = Tick(w: World, retention: bool, work: string -> RoleWork)

  datatype TickState = TickState(desk: Desk, frozen: set<string>, log: seq<Deed>)

  function Do(p: TickState, d: Deed): TickState {
    TickState(Step(p.desk, d), p.frozen, p.log + [d])
  }

  function DoAll(p: TickState, ds: seq<Deed>): TickState
    decreases |ds|
  {
    if ds == [] then p else DoAll(Do(p, ds[0]), ds[1..])
  }

  function Sweep(t: Tick, p: TickState): TickState {
    if !t.w.comms then p
    else
      var swept := Do(p, BusDeed(t.w.env, SweepOp(t.w.now)));
      if t.retention then Do(swept, BusDeed(t.w.env, PruneOp(t.w.now, RETENTION, {Done, Expired}))) else swept
  }

  predicate HasMail(rows: seq<Message>, agent: string) {
    Queue(rows, agent) != []
  }

  function PumpFor(t: Tick, p: TickState, name: string): TickState {
    Do(p, PumpDeed(t.w.(frozen := p.frozen), name))
  }

  /** One agent's slot; `start` is the message table when the tick counted the queues. */
  function Turn(t: Tick, start: seq<Message>, p: TickState, name: string): TickState {
    if name in p.frozen then p
    else
      var pumped := if t.w.comms && HasMail(start, name) then PumpFor(t, p, name) else p;
      DoAll(pumped, t.work(name).deeds).(frozen := t.work(name).frozen)
  }

  function Turns(t: Tick, start: seq<Message>, p: TickState, names: seq<string>): TickState
    decreases |names|
  {
    if names == [] then p else Turns(t, start, Turn(t, start, p, names[0]), names[1..])
  }

  /** Agents for the catch-up pump: not frozen, with mail now and none when the tick began. */
  function Late(names: seq<string>, start: seq<Message>, end: seq<Message>, frozen: set<string>): seq<string> {
    if names == [] then []
    else
      var rest := Late(names[..|names| - 1], start, end, frozen);
      var name := names[|names| - 1];
      if name !in frozen && HasMail(end, name) && !HasMail(start, name) then rest + [name] else rest
  }

  function Pumps(t: Tick, p: TickState, names: seq<string>): TickState
    decreases |names|
  {
    if names == [] then p else Pumps(t, PumpFor(t, p, names[0]), names[1..])
  }

  /** The inbox side of `step`. */
  function Beat(t: Tick, desk: Desk, frozen: set<string>): TickState {
    var swept := Sweep(t, TickState(desk, frozen, []));
    var start := swept.desk.db.messages;
    var turned := Turns(t, start, swept, PIPELINE);
    if !t.w.comms then turned
    else Pumps(t, turned, Late(PIPELINE, start, turned.desk.db.messages, turned.frozen))
  }

  /** Roles send plain letters, post rows and run the operator; only the engine pumps and sweeps. */
  ghost predicate RolesBehave(t: Tick) {
    forall name, i :: 0 <= i < |t.work(name).deeds| ==>
      var d := t.work(name).deeds[i];
      AdmissibleDeed(d) && !d.PumpDeed? && (d.BusDeed? ==> d.op.SendOp?)
  }

  // ---- One pump per agent per tick ---------------------------------------------------------

  function PumpCount(log: seq<Deed>, agent: string): nat {
    if log == [] then 0
    else PumpCount(log[..|log| - 1], agent)
         + (if log[|log| - 1].PumpDeed? && log[|log| - 1].agent == agent then 1 else 0)
  }

  function One(b: bool): nat {
    if b then 1 else 0
  }

  lemma CountDo(p: TickState, d: Deed, agent: string)
    ensures PumpCount(Do(p, d).log, agent) == PumpCount(p.log, agent) + One(d.PumpDeed? && d.agent == agent)
  {
    assert (p.log + [d])[..|p.log|] == p.log;
  }

  lemma {:induction false} CountDoAll(p: TickState, ds: seq<Deed>, agent: string)
    requires forall i :: 0 <= i < |ds| ==> !ds[i].PumpDeed?
    ensures PumpCount(DoAll(p, ds).log, agent) == PumpCount(p.log, agent)
    decreases |ds|
  {
    hide Step, PumpCount;
    if ds != [] {
      CountDo(p, ds[0], agent);
      CountDoAll(Do(p, ds[0]), ds[1..], agent);
    }
  }

  predicate Once(names: seq<string>) {
    forall i, j :: 0 <= i < j < |names| ==> names[i] != names[j]
  }

  /** The engine pumps an agent in its slot exactly when it had mail at the start and is not frozen then. */
  lemma CountTurn(t: Tick, start: seq<Message>, p: TickState, name: string, agent: string)
    requires RolesBehave(t)
    ensures PumpCount(Turn(t, start, p, name).log, agent)
            == PumpCount(p.log, agent) + One(name == agent && name !in p.frozen && t.w.comms && HasMail(start, name))
  {
    hide Step, HasMail, PumpCount;
    if name !in p.frozen {
      CountDo(p, PumpDeed(t.w.(frozen := p.frozen), name), agent);
      var pumped := if t.w.comms && HasMail(start, name) then PumpFor(t, p, name) else p;
      CountDoAll(pumped, t.work(name).deeds, agent);
    }
  }

  lemma {:induction false} CountTurns(t: Tick, start: seq<Message>, p: TickState, names: seq<string>, agent: string)
    requires RolesBehave(t) && Once(names)
    ensures var n := PumpCount(Turns(t, start, p, names).log, agent) - PumpCount(p.log, agent);
            0 <= n <= One(agent in names && t.w.comms && HasMail(start, agent))
    decreases |names|
  {
    hide HasMail, PumpCount, RolesBehave, Turn;
    if names != [] {
      CountTurn(t, start, p, names[0], agent);
      CountTurns(t, start, Turn(t, start, p, names[0]), names[1..], agent);
      assert agent in names[1..] ==> names[0] != agent;
    }
  }

  lemma {:induction false} CountPumps(t: Tick, p: TickState, names: seq<string>, agent: string)
    requires Once(names)
    ensures PumpCount(Pumps(t, p, names).log, agent) == PumpCount(p.log, agent) + One(agent in names)
    decreases |names|
  {
    hide PumpCount, Step;
    if names != [] {
      CountDo(p, PumpDeed(t.w.(frozen := p.frozen), names[0]), agent);
      CountPumps(t, PumpFor(t, p, names[0]), names[1..], agent);
      assert agent in names[1..] ==> names[0] != agent;
    }
  }

  lemma {:induction false} LateMembers(names: seq<string>, start: seq<Message>, end: seq<Message>, frozen: set<string>)
    requires Once(names)
    ensures var late := Late(names, start, end, frozen);
            Once(late)
            && forall a :: a in late <==> a in names && a !in frozen && HasMail(end, a) && !HasMail(start, a)
  {
    hide HasMail;
    if names != [] {
      var n := |names| - 1;
      LateMembers(names[..n], start, end, frozen);
      assert names == names[..n] + [names[n]];
      assert names[n] !in names[..n];
    }
  }

  lemma CountSweep(t: Tick, p: TickState, agent: string)
    ensures PumpCount(Sweep(t, p).log, agent) == PumpCount(p.log, agent)
  {
    hide PumpCount, Step;
    if t.w.comms {
      var d := BusDeed(t.w.env, SweepOp(t.w.now));
      CountDo(p, d, agent);
      CountDo(Do(p, d), BusDeed(t.w.env, PruneOp(t.w.now, RETENTION, {Done, Expired})), agent);
    }
  }

  /** Each agent's inbox is pumped at most once per tick, and never for an agent outside the pipeline. */
  lemma PumpedAtMostOnce(t: Tick, desk: Desk, frozen: set<string>, agent: string)
    requires RolesBehave(t)
    ensures PumpCount(Beat(t, desk, frozen).log, agent) <= One(agent in PIPELINE && t.w.comms)
  {
    hide HasMail, PumpCount, RolesBehave, Step, Turns, Late, Pumps, Sweep;
    var swept := Sweep(t, TickState(desk, frozen, []));
    NoLog(agent);
    CountSweep(t, TickState(desk, frozen, []), agent);
    var start := swept.desk.db.messages;
    assert Once(PIPELINE);
    CountTurns(t, start, swept, PIPELINE, agent);
    var turned := Turns(t, start, swept, PIPELINE);
    LateMembers(PIPELINE, start, turned.desk.db.messages, turned.frozen);
    CountPumps(t, turned, Late(PIPELINE, start, turned.desk.db.messages, turned.frozen), agent);
  }

  lemma NoLog(agent: string)
    ensures PumpCount([], agent) == 0
  {}

  ghost predicate NeverFrozen(t: Tick, frozen: set<string>, agent: string) {
    agent !in frozen && forall name :: agent !in t.work(name).frozen
  }

  ghost predicate AlwaysFrozen(t: Tick, frozen: set<string>, agent: string) {
    agent in frozen && forall name :: agent in t.work(name).frozen
  }

  lemma {:induction false} FrozenStays(t: Tick, start: seq<Message>, p: TickState, names: seq<string>, agent: string)
    ensures NeverFrozen(t, p.frozen, agent) ==> NeverFrozen(t, Turns(t, start, p, names).frozen, agent)
    ensures AlwaysFrozen(t, p.frozen, agent) ==> AlwaysFrozen(t, Turns(t, start, p, names).frozen, agent)
    decreases |names|
  {
    hide Do, DoAll, HasMail;
    if names != [] {
      FrozenStays(t, start, Turn(t, start, p, names[0]), names[1..], agent);
    }
  }

  lemma {:induction false} CountTurnsExactly(t: Tick, start: seq<Message>, p: TickState, names: seq<string>, agent: string)
    requires RolesBehave(t) && Once(names)
    ensures var n := PumpCount(Turns(t, start, p, names).log, agent) - PumpCount(p.log, agent);
            && (NeverFrozen(t, p.frozen, agent) ==> n == One(agent in names && t.w.comms && HasMail(start, agent)))
            && (AlwaysFrozen(t, p.frozen, agent) ==> n == 0)
    decreases |names|
  {
    hide HasMail, PumpCount, RolesBehave, Do, DoAll;
    if names != [] {
      CountTurn(t, start, p, names[0], agent);
      CountTurnsExactly(t, start, Turn(t, start, p, names[0]), names[1..], agent);
      assert agent in names[1..] ==> names[0] != agent;
    }
  }

  /**
   An agent that nobody freezes is pumped exactly once if it had mail when the tick counted the queues or has
   some after the roles ran, and otherwise not at all. One that stays frozen is never pumped.
   */
  lemma PumpedExactlyWhenDue(t: Tick, desk: Desk, frozen: set<string>, agent: string)
    requires RolesBehave(t) && agent in PIPELINE
    ensures var start := Sweep(t, TickState(desk, frozen, [])).desk.db.messages;
            var end := Turns(t, start, Sweep(t, TickState(desk, frozen, [])), PIPELINE).desk.db.messages;
            var pumps := PumpCount(Beat(t, desk, frozen).log, agent);
            && (NeverFrozen(t, frozen, agent) ==> pumps == One(t.w.comms && (HasMail(start, agent) || HasMail(end, agent))))
            && (AlwaysFrozen(t, frozen, agent) ==> pumps == 0)
  {
    hide HasMail, PumpCount, RolesBehave, Step, Turns, Late, Pumps, NeverFrozen, AlwaysFrozen;
    var p := TickState(desk, frozen, []);
    var swept := Sweep(t, p);
    NoLog(agent);
    CountSweep(t, p, agent);
    var start := swept.desk.db.messages;
    assert Once(PIPELINE);
    CountTurnsExactly(t, start, swept, PIPELINE, agent);
    FrozenStays(t, start, swept, PIPELINE, agent);
    var turned := Turns(t, start, swept, PIPELINE);
    LateMembers(PIPELINE, start, turned.desk.db.messages, turned.frozen);
    CountPumps(t, turned, Late(PIPELINE, start, turned.desk.db.messages, turned.frozen), agent);
    FrozenMeans(t, turned.frozen, agent);
  }

  lemma FrozenMeans(t: Tick, frozen: set<string>, agent: string)
    ensures NeverFrozen(t, frozen, agent) ==> agent !in frozen
    ensures AlwaysFrozen(t, frozen, agent) ==> agent in frozen
  {}

  // ---- A tick is a run ---------------------------------------------------------------------

  /** What a tick may contain: nobody fails, acks or requeues a message except through a pump. */
  predicate TickDeed(d: Deed) {
    AdmissibleDeed(d) && (d.BusDeed? ==> d.op.SendOp? || d.op.SweepOp? || d.op.PruneOp?)
  }

  ghost predicate Follows(desk: Desk, p: TickState) {
    p.desk == At(desk, p.log, |p.log|) && forall i :: 0 <= i < |p.log| ==> TickDeed(p.log[i])
  }

  lemma {:induction false} AtPrefix(desk: Desk, log: seq<Deed>, d: Deed, k: nat)
    requires k <= |log|
    ensures At(desk, log + [d], k) == At(desk, log, k)
  {
    hide Step;
    if k > 0 {
      AtPrefix(desk, log, d, k - 1);
    }
  }

  lemma DoFollows(desk: Desk, p: TickState, d: Deed)
    requires Follows(desk, p) && TickDeed(d)
    ensures Follows(desk, Do(p, d))
  {
    hide Step, TickDeed;
    AtPrefix(desk, p.log, d, |p.log|);
  }

  lemma {:induction false} DoAllFollows(desk: Desk, p: TickState, ds: seq<Deed>)
    requires Follows(desk, p) && forall i :: 0 <= i < |ds| ==> TickDeed(ds[i])
    ensures Follows(desk, DoAll(p, ds))
    decreases |ds|
  {
    hide Do, Follows, TickDeed;
    if ds != [] {
      DoFollows(desk, p, ds[0]);
      DoAllFollows(desk, Do(p, ds[0]), ds[1..]);
    }
  }

  lemma {:induction false} TurnsFollow(t: Tick, desk: Desk, start: seq<Message>, p: TickState, names: seq<string>)
    requires RolesBehave(t) && Follows(desk, p)
    ensures Follows(desk, Turns(t, start, p, names))
    decreases |names|
  {
    hide Do, DoAll, HasMail, Step;
    if names != [] {
      var name := names[0];
      if name !in p.frozen {
        if t.w.comms && HasMail(start, name) {
          DoFollows(desk, p, PumpDeed(t.w.(frozen := p.frozen), name));
        }
        var pumped := if t.w.comms && HasMail(start, name) then PumpFor(t, p, name) else p;
        DoAllFollows(desk, pumped, t.work(name).deeds);
      }
      TurnsFollow(t, desk, start, Turn(t, start, p, name), names[1..]);
    }
  }

  lemma {:induction false} PumpsFollow(t: Tick, desk: Desk, p: TickState, names: seq<string>)
    requires Follows(desk, p)
    ensures Follows(desk, Pumps(t, p, names))
    decreases |names|
  {
    hide Do, Follows;
    if names != [] {
      DoFollows(desk, p, PumpDeed(t.w.(frozen := p.frozen), names[0]));
      PumpsFollow(t, desk, PumpFor(t, p, names[0]), names[1..]);
    }
  }

  /** A tick is a run of the purchase protocol, so everything proved of runs holds across ticks. */
  lemma TickIsRun(t: Tick, desk: Desk, frozen: set<string>)
    requires RolesBehave(t)
    ensures Follows(desk, Beat(t, desk, frozen))
  {
    hide Do, Turns, Pumps, Late, RolesBehave, Step;
    var p := TickState(desk, frozen, []);
    if t.w.comms {
      var d := BusDeed(t.w.env, SweepOp(t.w.now));
      DoFollows(desk, p, d);
      DoFollows(desk, Do(p, d), BusDeed(t.w.env, PruneOp(t.w.now, RETENTION, {Done, Expired})));
    }
    var swept := Sweep(t, p);
    var turned := Turns(t, swept.desk.db.messages, swept, PIPELINE);
    TurnsFollow(t, desk, swept.desk.db.messages, swept, PIPELINE);
    PumpsFollow(t, desk, turned, Late(PIPELINE, swept.desk.db.messages, turned.desk.db.messages, turned.frozen));
  }

  // ---- One attempt per tick ----------------------------------------------------------------

  function AttemptsOf(m: Option<Message>): nat {
    if m.Some? then m.value.attempts else 0
  }

  /** Only a pump of its recipient adds an attempt to a message, and it adds at most one. */
  lemma StepAttempts(s: Desk, d: Deed, id: nat)
    requires DeskSound(s) && TickDeed(d)
    requires Get(Step(s, d).db.messages, id).Some?
    ensures var before := Get(s.db.messages, id); var after := Get(Step(s, d).db.messages, id);
            && (if before.Some? then before.value.recipient == after.value.recipient else s.db.issued <= id)
            && after.value.attempts <= AttemptsOf(before) + One(d.PumpDeed? && d.agent == after.value.recipient)
  {
    hide Get, MailSound, OneReply, MailKnown, RentKnown, BusStep, PumpResult, Operate, OpensVote;
    match d {
      case BusDeed(env, op) => StepMoves(env, s.db, op); NextSound(BusStep(env, s.db, op), id);
      case PumpDeed(w, agent) =>
        if agent in w.env.roster { PumpAttempts(w, s.db, agent, id); } else { Unknown(w, s.db, agent); }
      case PostDeed(_) =>
      case OperateDeed(w, cut) =>
        OperateMail(w, s.db, cut);
        var op := SendOp(w.now, RequestLetter(w));
        StepMoves(w.env, s.db, op);
        NextSound(BusStep(w.env, s.db, op), id);
    }
  }

  lemma PumpAttempts(w: World, db: Db, agent: string, id: nat)
    requires MailSound(db) && agent in w.env.roster
    requires Get(PumpResult(w, db, agent).messages, id).Some?
    ensures var before := Get(db.messages, id); var after := Get(PumpResult(w, db, agent).messages, id);
            && (if before.Some? then before.value.recipient == after.value.recipient else db.issued <= id)
            && after.value.attempts <= AttemptsOf(before) + One(agent == after.value.recipient)
  {
    hide Get, Bus.Inbox, MailSound, Answered, Raised, Aftermath, ReplyRow;
    var snapshot := Bus.Inbox(db.messages, agent, w.now, MAX_MESSAGES);
    InboxIsTaken(db, agent, w.now, MAX_MESSAGES);
    PumpEffect(w, db, agent, snapshot);
    IdIssued(PumpResult(w, db, agent), id);
    IdIssued(db, id);
    if db.issued <= id {
      var i :| 0 <= i < |snapshot| && Answered(w, db.rows, agent, snapshot[i])
               && Get(PumpResult(w, db, agent).messages, id) == Some(ReplyRow(w, db.rows, agent, snapshot[i], id));
      ReplyIsFresh(w, db.rows, agent, snapshot[i], id);
    } else if InSnapshot(snapshot, id) {
      var i :| 0 <= i < |snapshot| && snapshot[i].id == id;
      assert Get(db.messages, id) == Some(snapshot[i]);
      OneMoreAttempt(w, db.rows, agent, snapshot[i]);
    }
  }

  lemma OneMoreAttempt(w: World, rows: seq<Row>, agent: string, m: Message)
    ensures Aftermath(w, rows, agent, m).recipient == m.recipient
    ensures Aftermath(w, rows, agent, m).attempts <= m.attempts + 1
  {}

  lemma ReplyIsFresh(w: World, rows: seq<Row>, agent: string, m: Message, id: nat)
    requires Answered(w, rows, agent, m)
    ensures ReplyRow(w, rows, agent, m, id).attempts == 0
  {}

  lemma {:induction false} RunAttempts(desk: Desk, log: seq<Deed>, k: nat, id: nat)
    requires DeskSound(desk) && (forall i :: 0 <= i < |log| ==> TickDeed(log[i])) && k <= |log|
    requires Get(At(desk, log, k).db.messages, id).Some?
    ensures var after := Get(At(desk, log, k).db.messages, id).value;
            && (Get(desk.db.messages, id).Some? ==> Get(desk.db.messages, id).value.recipient == after.recipient)
            && after.attempts <= AttemptsOf(Get(desk.db.messages, id)) + PumpCount(log[..k], after.recipient)
    decreases k
  {
    hide Get, Step, DeskSound;
    if k > 0 {
      assert forall i :: 0 <= i < |log| ==> AdmissibleDeed(log[i]);
      RunKeepsDesk(desk, log, k - 1);
      var before := At(desk, log, k - 1);
      StepAttempts(before, log[k - 1], id);
      assert log[..k][..k - 1] == log[..k - 1];
      if Get(before.db.messages, id).Some? {
        RunAttempts(desk, log, k - 1, id);
      } else {
        IssuedGrows(desk, log, 0, k - 1);
        DeskMail(desk);
        IdIssued(desk.db, id);
      }
    }
  }

  lemma DeskMail(s: Desk)
    requires DeskSound(s)
    ensures MailSound(s.db)
  {}

  /** In one tick the attempts of any message grow by at most one, and a new message starts at most at one. */
  lemma OneAttemptPerTick(t: Tick, desk: Desk, frozen: set<string>, id: nat)
    requires DeskSound(desk) && RolesBehave(t)
    ensures var end := Beat(t, desk, frozen).desk;
            Get(end.db.messages, id).Some? ==>
              Get(end.db.messages, id).value.attempts <= AttemptsOf(Get(desk.db.messages, id)) + 1
  {
    hide Get, Beat, RolesBehave, At, DeskSound, TickDeed, PumpCount;
    var p := Beat(t, desk, frozen);
    TickIsRun(t, desk, frozen);
    if Get(p.desk.db.messages, id).Some? {
      RunAttempts(desk, p.log, |p.log|, id);
      assert p.log[..|p.log|] == p.log;
      PumpedAtMostOnce(t, desk, frozen, Get(p.desk.db.messages, id).value.recipient);
    }
  }
}
