/**
 Runs of the vault in which the master key also moves between backends, with a crash allowed at every disk
 step and a backend configured anew after every crash.
 */
module Sessions {
  import opened Tables
  import opened Vault
  import opened VaultRuns
  import opened Migration

  datatype SessionOp = Use(op: VaultOp) | Migrate(to: Backend, deleteOld: bool)

  /** One operation, where it was cut, and the backend the configuration names afterwards. */
  datatype SessionEvent = SessionEvent(op: SessionOp, cut: Option<nat>, next: Backend)

  datatype Session = Session(disk: Disk, live: Backend)

  function SessionPlan(s: Session, op: SessionOp): Plan {
    match op
    case Use(use) => OpPlan(s.disk, s.live, use)
    case Migrate(to, deleteOld) => MigratePlan(s.disk, s.live, to, deleteOld)
  }

  function SessionStep(s: Session, e: SessionEvent): Session {
    Session(Exec(s.disk, SessionPlan(s, e.op), e.cut), e.next)
  }

  function SessionRun(s: Session, es: seq<SessionEvent>): Session
    decreases |es|
  {
    if es == [] then s else SessionRun(SessionStep(s, es[0]), es[1..])
  }

  /** The payload of the last write of the secrets file in the session. */
  function SessionWritten(s: Session, es: seq<SessionEvent>, before: Option<Secrets>): Option<Secrets>
    decreases |es|
  {
    if es == [] then before
    else
      var p := SessionPlan(s, es[0].op);
      SessionWritten(SessionStep(s, es[0]), es[1..], LastWritten(p.steps[..StepsTaken(p, es[0].cut)], before))
  }

  /**
   The configuration follows the migration: the old backend until the new one has its key, the new one once the
   file is rewritten, either at the one point between; and never a key file the migration deleted. Before it has its
   key the new one will do only if it already could: it holds the old one's key, or nothing happened and an earlier
   migration had left it the same payload.
   */
  predicate Resumes(s: Session, e: SessionEvent) {
    match e.op
    case Use(_) => e.next == s.live
    case Migrate(to, deleteOld) =>
      var p := MigratePlan(s.disk, s.live, to, deleteOld);
      var n, midway := StepsTaken(p, e.cut), |ReadPlan(s.disk, s.live).steps| + 2;
      if to == s.live then e.next == to && !DeletesNewKey(p, to, deleteOld, e.cut)
      else if e.next == s.live then n <= midway
      else if midway <= n then !DeletesNewKey(p, to, deleteOld, e.cut)
      else SharedKey(s.disk, s.live, to) || (n == 0 && Recover(s.disk, to) == Recover(s.disk, s.live))
  }

  predicate AllResume(s: Session, es: seq<SessionEvent>)
    decreases |es|
  {
    es == [] || (Resumes(s, es[0]) && AllResume(SessionStep(s, es[0]), es[1..]))
  }

  lemma {:induction false} LastWrittenConcat(xs: seq<DiskStep>, ys: seq<DiskStep>, before: Option<Secrets>)
    ensures LastWritten(xs + ys, before) == LastWritten(ys, LastWritten(xs, before))
    decreases |xs|
  {
    if xs == [] {
      assert xs + ys == ys;
    } else {
      assert (xs + ys)[1..] == xs[1..] + ys;
      LastWrittenConcat(xs[1..], ys, if xs[0].WriteSecrets? then Some(xs[0].blob.payload) else before);
    }
  }

  /** A cut migration has last written what its read saw, or whatever its read got to write. */
  lemma MigrationWrites(d: Disk, b: Backend, to: Backend, deleteOld: bool, cut: Option<nat>)
    requires Intact(d, b)
    ensures var p, read := MigratePlan(d, b, to, deleteOld), ReadPlan(d, b); var n := StepsTaken(p, cut);
            && read.outcome.Payload?
            && LastWritten(p.steps[..n], Recover(d, b))
               == if n <= |read.steps| then LastWritten(read.steps[..n], Recover(d, b)) else Some(read.outcome.secrets)
  {
    hide ReadPlan, MigratePlan, Recover, Intact, Safe, LastWritten, TouchAll, Readable, StageSteps;
    ReadSafe(d, b);
    PlanIsStaged(d, b, to, deleteOld);
    var p, read := MigratePlan(d, b, to, deleteOld), ReadPlan(d, b);
    var blob := Blob(d.next + 1, read.outcome.secrets);
    var n, r := StepsTaken(p, cut), |read.steps|;
    if n <= r {
      assert p.steps[..n] == read.steps[..n];
    } else {
      FiveSteps(to, blob);
      assert p.steps[..n] == read.steps + StageSteps(to, blob)[..n - r];
      LastWrittenConcat(read.steps, StageSteps(to, blob)[..n - r], Recover(d, b));
      SafePrefix(read.steps, Drawn(d), b, r);
      assert read.steps[..r] == read.steps;
      DrawnRecovers(d, b);
      ReadableRecovers(TouchAll(read.steps, Drawn(d)), b, LiveKey(d, b), read.outcome.secrets);
      StageCarries(to, blob);
      CarriedStays(StageSteps(to, blob), read.outcome.secrets, n - r);
    }
  }

  lemma StageCarries(to: Backend, blob: Blob)
    ensures Carries(StageSteps(to, blob), blob.payload)
  {}

  /** The new backend takes over early when it already could read. */
  lemma EarlySafe(d: Disk, b: Backend, to: Backend, deleteOld: bool, cut: Option<nat>)
    requires Intact(d, b) && b != to
    requires StepsTaken(MigratePlan(d, b, to, deleteOld), cut) <= |ReadPlan(d, b).steps| + 1
    ensures var p := MigratePlan(d, b, to, deleteOld); var n, mid := StepsTaken(p, cut), Exec(d, p, cut);
            SharedKey(d, b, to) || (n == 0 && Recover(d, to) == Recover(d, b)) ==>
              Recover(mid, to) == Recover(mid, b) && (Intact(mid, b) ==> Intact(mid, to))
  {
    hide ReadPlan, MigratePlan, Exec, StepsTaken;
    EarlyRecovers(d, b, to, deleteOld, cut);
  }

  lemma SessionStepSafe(s: Session, e: SessionEvent)
    requires Intact(s.disk, s.live) && Resumes(s, e)
    ensures var p, after := SessionPlan(s, e.op), SessionStep(s, e);
            && Intact(after.disk, after.live)
            && Recover(after.disk, after.live) == LastWritten(p.steps[..StepsTaken(p, e.cut)], Recover(s.disk, s.live))
  {
    hide ReadPlan, MigratePlan, OpPlan, Recover, Intact, LastWritten, Exec, DeletesNewKey, SharedKey, StepsTaken;
    match e.op {
      case Use(use) => ExecSafe(s.disk, s.live, use, e.cut);
      case Migrate(to, deleteOld) =>
        MigrationWrites(s.disk, s.live, to, deleteOld, e.cut);
        if to == s.live {
          SameBackendRecovers(s.disk, s.live, deleteOld, e.cut);
        } else {
          WhoRecovers(s.disk, s.live, to, deleteOld, e.cut);
          assert e.next == s.live || e.next == to;
          if StepsTaken(MigratePlan(s.disk, s.live, to, deleteOld), e.cut) <= |ReadPlan(s.disk, s.live).steps| + 1 {
            EarlySafe(s.disk, s.live, to, deleteOld, e.cut);
          }
        }
    }
  }

  /**
   However often operations crash and the key moves, as long as the configuration follows the migrations the
   next read through the live backend returns the last payload that was written.
   */
  lemma {:induction false} LiveBackendReturnsLastWrite(s: Session, es: seq<SessionEvent>)
    requires Intact(s.disk, s.live) && AllResume(s, es)
    ensures var end := SessionRun(s, es);
            && Intact(end.disk, end.live)
            && Recover(end.disk, end.live) == SessionWritten(s, es, Recover(s.disk, s.live))
            && ReadPlan(end.disk, end.live).outcome.Payload?
            && (end.disk.secrets.Some? ==>
                  ReadPlan(end.disk, end.live).outcome == Payload(Recover(end.disk, end.live).value))
    decreases |es|
  {
    hide SessionStep, SessionPlan, Resumes, Recover, Intact, ReadPlan;
    if es == [] {
      ReadSafe(s.disk, s.live);
      EmptyRecovers(s.disk, s.live);
    } else {
      SessionStepSafe(s, es[0]);
      LiveBackendReturnsLastWrite(SessionStep(s, es[0]), es[1..]);
    }
  }

  /**
   And following the migration is exactly what it takes: from any vault that holds a payload, the configured backend
   recovers it after a cut migration if and only if it is one `Resumes` allows.
   */
  lemma ResumesExactly(s: Session, e: SessionEvent)
    requires Intact(s.disk, s.live) && s.disk.secrets.Some? && e.op.Migrate? && e.next in {s.live, e.op.to}
    ensures Resumes(s, e) <==> Recover(SessionStep(s, e).disk, e.next) == Recover(s.disk, s.live)
  {
    hide ReadPlan, MigratePlan, Recover, Intact, LastWritten, Exec, DeletesNewKey, SharedKey, StepsTaken;
    var to, deleteOld := e.op.to, e.op.deleteOld;
    ReadCarries(s.disk, s.live);
    EmptyRecovers(s.disk, s.live);
    var read := ReadPlan(s.disk, s.live);
    var n := StepsTaken(MigratePlan(s.disk, s.live, to, deleteOld), e.cut);
    if n <= |read.steps| {
      CarriedStays(read.steps, Recover(s.disk, s.live).value, n);
    }
    DeletionIsLate(s.disk, s.live, to, deleteOld, e.cut);
    if to == s.live {
      SameBackendRecovers(s.disk, s.live, deleteOld, e.cut);
    } else {
      WhoRecovers(s.disk, s.live, to, deleteOld, e.cut);
      if n <= |read.steps| + 1 {
        EarlyRecovers(s.disk, s.live, to, deleteOld, e.cut);
      }
    }
  }

  lemma DeletionIsLate(d: Disk, b: Backend, to: Backend, deleteOld: bool, cut: Option<nat>)
    requires ReadPlan(d, b).outcome.Payload?
    ensures var p := MigratePlan(d, b, to, deleteOld);
            DeletesNewKey(p, to, deleteOld, cut) ==> StepsTaken(p, cut) == |ReadPlan(d, b).steps| + 5
  {
    hide ReadPlan, MigratePlan;
    PlanIsStaged(d, b, to, deleteOld);
  }
}
