/**
 What each vault operation leaves on the disk and returns, when it completes and when it is cut.
 */
module VaultEffects {
  import opened Tables
  import opened Vault
  import opened VaultRuns
  import opened Migration

  /** Nothing on the disk opens under the key. */
  predicate OpensNothing(d: Disk, key: nat) {
    !Opens(d.secrets, key) && !Opens(d.rotating, key)
  }

  lemma WholePlan(d: Disk, p: Plan)
    ensures Exec(d, p, None) == TouchAll(p.steps, Drawn(d))
  {
    assert p.steps[..|p.steps|] == p.steps;
  }

  // ---- Reading -----------------------------------------------------------------------------

  /**
   A complete read of a readable vault returns its payload and ends with the live key opening the secrets file and no
   staged blob it opens. An untouched vault gets a fresh key if its backend has none, and a fresh wallet without
   credentials.
   */
  lemma ReadExactly(d: Disk, b: Backend)
    requires Intact(d, b)
    ensures var p := ReadPlan(d, b); var after := Exec(d, p, None);
            && p.outcome.Payload? && after.Key(b).Some? && after.secrets == Some(Blob(after.Key(b).value, p.outcome.secrets))
            && !Opens(after.rotating, after.Key(b).value)
            && (if d.Key(b).Some? then after.Key(b) == d.Key(b) else d.next <= after.Key(b).value)
            && (if d.secrets.Some? then p.outcome.secrets == Recover(d, b).value
                else p.outcome.secrets.credentials == map[] && p.outcome.secrets.wallet.Some?
                     && d.next <= p.outcome.secrets.wallet.value && Some(p.outcome.secrets.wallet.value) != after.Key(b))
  {
    hide TouchAll, Safe;
    ReadSafe(d, b);
    WholePlan(d, ReadPlan(d, b));
  }

  /** A vault that its backend cannot open is refused, and its blobs are left as they are. */
  lemma UnreadableIsRefused(d: Disk, b: Backend)
    requires KeysDrawn(d) && d.secrets.Some? && Recover(d, b).None?
    ensures var p := ReadPlan(d, b); var after := Exec(d, p, None);
            && p.outcome == Failed(Unreadable) && after.secrets == d.secrets && after.rotating == d.rotating
  {
    var p := ReadPlan(d, b);
    WholePlan(d, p);
    assert p.steps == KeySteps(d, b);
    if p.steps != [] {
      TouchOne(p.steps[0], Drawn(d));
    }
  }

  // ---- Storing a credential ----------------------------------------------------------------

  /**
   A complete write leaves every other credential, sets this one, keeps the wallet or takes over the one in memory when
   there is none, and seals the file under the key that was live.
   */
  lemma PutExactly(d: Disk, b: Backend, memory: Option<nat>, name: string, value: string)
    requires Intact(d, b) && d.secrets.Some?
    ensures var p := PutPlan(d, b, memory, name, value); var after, s := Exec(d, p, None), Recover(d, b).value;
            && p.outcome.Payload?
            && var stored := p.outcome.secrets;
               && name in stored.credentials && stored.credentials[name] == value
               && stored.credentials.Keys == s.credentials.Keys + {name}
               && (forall other :: other in s.credentials && other != name ==> stored.credentials[other] == s.credentials[other])
               && stored.wallet == (if s.wallet.Some? then s.wallet else memory)
               && after.Key(b) == d.Key(b) && d.Key(b).Some?
               && after.secrets == Some(Blob(d.Key(b).value, stored)) && !Opens(after.rotating, d.Key(b).value)
  {
    hide TouchAll, ReadPlan, Safe;
    ReadCarries(d, b);
    PutSafe(d, b, memory, name, value);
    WholePlan(d, PutPlan(d, b, memory, name, value));
  }

  // ---- Rotating ----------------------------------------------------------------------------

  /** A rotation is a migration to the backend in use. */
  lemma RotationIsMigration(d: Disk, b: Backend)
    ensures RotatePlan(d, b) == MigratePlan(d, b, b, false)
  {
    hide ReadPlan;
  }

  lemma RotationState(d: Disk, b: Backend, cut: Option<nat>)
    requires Intact(d, b)
    ensures var p, read := RotatePlan(d, b), ReadPlan(d, b); var n, r, mid := StepsTaken(p, cut), |read.steps|, Exec(d, p, cut);
            && read.outcome.Payload? && p.outcome == (if read.outcome.secrets.wallet.Some? then read.outcome else Failed(NoWallet))
            && |p.steps| == r + (if read.outcome.secrets.wallet.Some? then 4 else 2)
            && (n <= r ==> mid == TouchAll(read.steps[..n], Drawn(d)))
            && (n > r ==> mid == Staged(TouchAll(read.steps, Drawn(d)), b, Blob(d.next + 1, read.outcome.secrets), n - r))
  {
    hide ReadPlan, TouchAll, Staged, Intact, Safe, Readable;
    ReadSafe(d, b);
    RotationIsMigration(d, b);
    CutState(d, b, b, false, cut);
  }

  /**
   A complete rotation of a vault with a wallet leaves a fresh key, the same payload sealed under it, and nothing that
   the old key opens.
   */
  lemma RotateExactly(d: Disk, b: Backend)
    requires Intact(d, b) && (d.secrets.Some? ==> Recover(d, b).value.wallet.Some?)
    ensures var p := RotatePlan(d, b); var after := Exec(d, p, None);
            && p.outcome.Payload? && (d.secrets.Some? ==> p.outcome.secrets == Recover(d, b).value)
            && after.Key(b).Some? && d.next <= after.Key(b).value && after.Key(b) != d.Key(b)
            && after.secrets == Some(Blob(after.Key(b).value, p.outcome.secrets)) && after.rotating.None?
            && (d.Key(b).Some? ==> OpensNothing(after, d.Key(b).value))
            && (forall other :: other != b ==> after.Key(other) == d.Key(other))
  {
    hide ReadPlan, TouchAll, Recover, Safe;
    ReadSafe(d, b);
    CreatedWallet(d, b);
    RotationState(d, b, None);
    var read := ReadPlan(d, b);
    StagedOut(TouchAll(read.steps, Drawn(d)), b, Blob(d.next + 1, read.outcome.secrets), 4);
    OtherKey(d, b);
  }

  lemma CreatedWallet(d: Disk, b: Backend)
    requires Intact(d, b)
    ensures d.secrets.None? ==> ReadPlan(d, b).outcome.Payload? && ReadPlan(d, b).outcome.secrets.wallet.Some?
  {}

  /** A read leaves the other backend's key alone. */
  lemma OtherKey(d: Disk, b: Backend)
    requires Intact(d, b)
    ensures forall other :: other != b ==> TouchAll(ReadPlan(d, b).steps, Drawn(d)).Key(other) == d.Key(other)
  {
    hide ReadPlan, TouchAll;
    forall other: Backend | other != b {
      ReadStaysForeign(d, b, other, |ReadPlan(d, b).steps|);
    }
    assert ReadPlan(d, b).steps[..|ReadPlan(d, b).steps|] == ReadPlan(d, b).steps;
  }

  /** A payload without a wallet cannot be rotated: the new key is in, and opens only the staged blob. */
  lemma RotationNeedsWallet(d: Disk, b: Backend)
    requires Intact(d, b) && d.secrets.Some? && Recover(d, b).value.wallet.None?
    ensures var p := RotatePlan(d, b); var after := Exec(d, p, None);
            && p.outcome == Failed(NoWallet) && after.Key(b).Some? && d.next <= after.Key(b).value
            && after.rotating == Some(Blob(after.Key(b).value, Recover(d, b).value))
            && !Opens(after.secrets, after.Key(b).value)
  {
    hide ReadPlan, TouchAll, Recover, Safe;
    ReadSafe(d, b);
    RotationState(d, b, None);
    StagedOut(TouchAll(ReadPlan(d, b).steps, Drawn(d)), b, Blob(d.next + 1, ReadPlan(d, b).outcome.secrets), 2);
  }

  /** A cut rotation has the old key until its second step after the read, and the new one from then on. */
  lemma CutRotationKey(d: Disk, b: Backend, cut: Option<nat>)
    requires Intact(d, b) && d.secrets.Some?
    ensures var p := RotatePlan(d, b); var mid, n := Exec(d, p, cut), StepsTaken(p, cut);
            && mid.Key(b).Some?
            && (mid.Key(b) == d.Key(b) <==> n < |ReadPlan(d, b).steps| + 2)
            && (mid.Key(b) != d.Key(b) ==> d.next <= mid.Key(b).value && mid.Key(b) == Exec(d, p, None).Key(b))
  {
    hide ReadPlan, TouchAll, Recover, Safe;
    ReadSafe(d, b);
    RotationState(d, b, cut);
    RotationState(d, b, None);
    var p, read := RotatePlan(d, b), ReadPlan(d, b);
    var n, r := StepsTaken(p, cut), |read.steps|;
    var whole, blob := TouchAll(read.steps, Drawn(d)), Blob(d.next + 1, read.outcome.secrets);
    LiveKeyStays(d, b, if n <= r then n else r);
    assert read.steps[..r] == read.steps;
    LiveKeyStays(d, b, r);
    StagedOut(whole, b, blob, if n > r then n - r else 0);
    StagedOut(whole, b, blob, |p.steps| - r);
  }

  lemma LiveKeyStays(d: Disk, b: Backend, n: nat)
    requires Intact(d, b) && d.secrets.Some? && n <= |ReadPlan(d, b).steps|
    ensures d.Key(b).Some? && TouchAll(ReadPlan(d, b).steps[..n], Drawn(d)).Key(b) == d.Key(b) && d.Key(b).value < d.next
  {
    hide ReadPlan, TouchAll;
    var other := if b.KeyFile? then Keyring else KeyFile;
    ReadStaysForeign(d, b, other, n);
  }

  // ---- Migrating ---------------------------------------------------------------------------

  /**
   A complete migration of a vault with a wallet leaves the same payload sealed under a fresh key that only the new
   backend has. The old key file is gone if that was asked for, and the old key is otherwise where it was, opening
   nothing.
   */
  lemma MigrateExactly(d: Disk, b: Backend, to: Backend, deleteOld: bool)
    requires Intact(d, b) && d.secrets.Some? && b != to && Recover(d, b).value.wallet.Some?
    ensures var p := MigratePlan(d, b, to, deleteOld); var after := Exec(d, p, None);
            && p.outcome == Payload(Recover(d, b).value) && after.rotating.None? && after.secrets.Some?
            && after.secrets.value.payload == Recover(d, b).value && d.next <= after.secrets.value.key
            && (if deleteOld then after.file.None? else after.Key(b) == d.Key(b))
            && (to.KeyFile? && deleteOld ==> after.Key(b) == d.Key(b))
            && (!(to.KeyFile? && deleteOld) ==> after.Key(to) == Some(after.secrets.value.key))
            && OpensNothing(after, d.Key(b).value)
  {
    hide ReadPlan, TouchAll, Recover, Safe;
    ReadSafe(d, b);
    CutState(d, b, to, deleteOld, None);
    PlanIsStaged(d, b, to, deleteOld);
    var p, read := MigratePlan(d, b, to, deleteOld), ReadPlan(d, b);
    LiveKeyStays(d, b, |read.steps|);
    assert read.steps[..|read.steps|] == read.steps;
    DeletesWhenAsked(d, b, to, deleteOld);
    StagedOut(TouchAll(read.steps, Drawn(d)), to, Blob(d.next + 1, read.outcome.secrets), |p.steps| - |read.steps|);
  }

  /** With two different backends one of them is the key file, so there is one to delete. */
  lemma DeletesWhenAsked(d: Disk, b: Backend, to: Backend, deleteOld: bool)
    requires b != to && ReadPlan(d, b).outcome.Payload? && ReadPlan(d, b).outcome.secrets.wallet.Some?
    ensures var p, read := MigratePlan(d, b, to, deleteOld), ReadPlan(d, b);
            p.outcome == read.outcome && |p.steps| == |read.steps| + if deleteOld then 5 else 4
  {
    hide ReadPlan;
  }
}
