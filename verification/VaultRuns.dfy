/**
 Runs of the vault: reads, credential writes and rotations, each cut short at any disk step, with a restart
 after every cut.
 */
module VaultRuns {
  import opened Tables
  import opened Vault

  datatype VaultOp = ReadOp | PutOp(memory: Option<nat>, name: string, value: string) | RotateOp

  datatype VaultEvent = VaultEvent(op: VaultOp, cut: Option<nat>)

  function OpPlan(d: Disk, b: Backend, op: VaultOp): Plan {
    match op
    case ReadOp => ReadPlan(d, b)
    case PutOp(memory, name, value) => PutPlan(d, b, memory, name, value)
    case RotateOp => RotatePlan(d, b)
  }

  function VaultRun(d: Disk, b: Backend, es: seq<VaultEvent>): Disk
    decreases |es|
  {
    if es == [] then d else VaultRun(Exec(d, OpPlan(d, b, es[0].op), es[0].cut), b, es[1..])
  }

  /** The payload of the last write of the secrets file that happened in the run. */
  function RunWritten(d: Disk, b: Backend, es: seq<VaultEvent>, before: Option<Secrets>): Option<Secrets>
    decreases |es|
  {
    if es == [] then before
    else
      var p := OpPlan(d, b, es[0].op);
      RunWritten(Exec(d, p, es[0].cut), b, es[1..], LastWritten(p.steps[..StepsTaken(p, es[0].cut)], before))
  }

  lemma OpSafe(d: Disk, b: Backend, op: VaultOp)
    requires Intact(d, b)
    ensures Safe(OpPlan(d, b, op).steps, Drawn(d), b)
  {
    match op {
      case ReadOp => ReadSafe(d, b);
      case PutOp(memory, name, value) => PutSafe(d, b, memory, name, value);
      case RotateOp => RotateSafe(d, b);
    }
  }

  lemma ExecSafe(d: Disk, b: Backend, op: VaultOp, cut: Option<nat>)
    requires Intact(d, b)
    ensures var p := OpPlan(d, b, op); var after := Exec(d, p, cut);
            Intact(after, b) && Recover(after, b) == LastWritten(p.steps[..StepsTaken(p, cut)], Recover(d, b))
  {
    hide OpPlan, Safe, LastWritten, TouchAll;
    OpSafe(d, b, op);
    var p := OpPlan(d, b, op);
    SafePrefix(p.steps, Drawn(d), b, StepsTaken(p, cut));
    assert Recover(Drawn(d), b) == Recover(d, b);
  }

  /**
   However often rotations, writes and reads crash, the next read returns the last payload that was
   written, and it fails on no vault that has ever held one.
   */
  lemma {:induction false} NextReadReturnsLastWrite(d: Disk, b: Backend, es: seq<VaultEvent>)
    requires Intact(d, b)
    ensures var end := VaultRun(d, b, es);
            && Intact(end, b) && Recover(end, b) == RunWritten(d, b, es, Recover(d, b))
            && ReadPlan(end, b).outcome.Payload?
            && (end.secrets.Some? ==> ReadPlan(end, b).outcome == Payload(Recover(end, b).value))
    decreases |es|
  {
    hide OpPlan, Recover, Exec, Intact, ReadPlan;
    if es == [] {
      ReadSafe(d, b);
      EmptyRecovers(d, b);
    } else {
      ExecSafe(d, b, es[0].op, es[0].cut);
      NextReadReturnsLastWrite(Exec(d, OpPlan(d, b, es[0].op), es[0].cut), b, es[1..]);
    }
  }

  lemma EmptyRecovers(d: Disk, b: Backend)
    requires Intact(d, b)
    ensures d.secrets.Some? <==> Recover(d, b).Some?
  {}

  // ---- What a write, a read and a rotation mean for the payload ----------------------------

  predicate Carries(ss: seq<DiskStep>, payload: Secrets) {
    forall i :: 0 <= i < |ss| && ss[i].WriteSecrets? ==> ss[i].blob.payload == payload
  }

  lemma {:induction false} CarriedStays(ss: seq<DiskStep>, payload: Secrets, n: nat)
    requires Carries(ss, payload) && n <= |ss|
    ensures LastWritten(ss[..n], Some(payload)) == Some(payload)
    decreases n
  {
    if n > 0 {
      assert ss[..n][1..] == ss[1..][..n - 1];
      CarriedStays(ss[1..], payload, n - 1);
    }
  }

  lemma ReadCarries(d: Disk, b: Backend)
    requires Intact(d, b) && d.secrets.Some?
    ensures ReadPlan(d, b).outcome == Payload(Recover(d, b).value)
    ensures Carries(ReadPlan(d, b).steps, Recover(d, b).value)
  {}

  /** Reads and rotations never change what is recovered, wherever they are cut. */
  lemma RotationIsInvisible(d: Disk, b: Backend, op: VaultOp, cut: Option<nat>)
    requires Intact(d, b) && d.secrets.Some? && !op.PutOp?
    ensures Recover(Exec(d, OpPlan(d, b, op), cut), b) == Recover(d, b)
  {
    hide ReadPlan, Recover, Intact, LastWritten;
    ReadCarries(d, b);
    ExecSafe(d, b, op, cut);
    EmptyRecovers(d, b);
    var p := OpPlan(d, b, op);
    var payload := Recover(d, b).value;
    assert Carries(p.steps, payload);
    CarriedStays(p.steps, payload, StepsTaken(p, cut));
  }

  /** A credential write happens completely or not at all: completely exactly when its last step happened. */
  lemma PutIsAtomic(d: Disk, b: Backend, memory: Option<nat>, name: string, value: string, cut: Option<nat>)
    requires Intact(d, b) && d.secrets.Some?
    ensures var p := PutPlan(d, b, memory, name, value); var s := Recover(d, b).value;
            Recover(Exec(d, p, cut), b)
            == Some(if StepsTaken(p, cut) == |p.steps| then WithCredential(s, memory, name, value) else s)
  {
    hide ReadPlan, Recover, Intact, LastWritten, Safe, TouchAll;
    ReadCarries(d, b);
    EmptyRecovers(d, b);
    ExecSafe(d, b, PutOp(memory, name, value), cut);
    var p, read, s := PutPlan(d, b, memory, name, value), ReadPlan(d, b), Recover(d, b).value;
    var n := StepsTaken(p, cut);
    if n < |p.steps| {
      assert p.steps[..n] == read.steps[..n];
      CarriedStays(read.steps, s, n);
    } else {
      PutSafe(d, b, memory, name, value);
      assert p.steps[..n] == p.steps;
      ReadableRecovers(TouchAll(p.steps, Drawn(d)), b, LiveKey(d, b), p.outcome.secrets);
    }
  }

  lemma ReadableRecovers(d: Disk, b: Backend, key: nat, payload: Secrets)
    requires Readable(d, b, key, payload)
    ensures Recover(d, b) == Some(payload)
  {}

  /** A stored credential, and the wallet, survive any run that does not overwrite that credential. */
  lemma {:induction false} CredentialSurvives(d: Disk, b: Backend, es: seq<VaultEvent>, name: string)
    requires Intact(d, b) && d.secrets.Some? && name in Recover(d, b).value.credentials && Recover(d, b).value.wallet.Some?
    requires forall i :: 0 <= i < |es| && es[i].op.PutOp? ==> es[i].op.name != name
    ensures var end := VaultRun(d, b, es);
            && ReadPlan(end, b).outcome.Payload?
            && var s := ReadPlan(end, b).outcome.secrets;
               && name in s.credentials && s.credentials[name] == Recover(d, b).value.credentials[name]
               && s.wallet == Recover(d, b).value.wallet
    decreases |es|
  {
    hide OpPlan, Recover, Exec, Intact, ReadPlan, PutPlan;
    ReadCarries(d, b);
    if es != [] {
      var op, cut := es[0].op, es[0].cut;
      var next := Exec(d, OpPlan(d, b, op), cut);
      ExecSafe(d, b, op, cut);
      if op.PutOp? {
        PutIsAtomic(d, b, op.memory, op.name, op.value, cut);
        PutPlanIs(d, b, op);
      } else {
        RotationIsInvisible(d, b, op, cut);
      }
      EmptyRecovers(d, b);
      EmptyRecovers(next, b);
      CredentialSurvives(next, b, es[1..], name);
    }
  }

  lemma PutPlanIs(d: Disk, b: Backend, op: VaultOp)
    requires op.PutOp?
    ensures OpPlan(d, b, op) == PutPlan(d, b, op.memory, op.name, op.value)
  {}
}
