/**
 Moving the master key between two backends: what each backend can read after a crash at any step, and
 what becomes of credentials written after an interrupted migration.
 */
module Migration {
  import opened Tables
  import opened Vault
  import opened VaultRuns

  // ---- The disk at every crash point -------------------------------------------------------

  /** The disk `i` steps after the read of a migration completed. */
  function Staged(d: Disk, to: Backend, blob: Blob, i: nat): Disk {
    if i == 0 then d
    else
      var before := Staged(d, to, blob, i - 1);
      match i
      case 1 => Touch(WriteRotating(blob), before)
      case 2 => Touch(StoreKey(to, blob.key), before)
      case 3 => Touch(WriteSecrets(blob), before)
      case 4 => Touch(UnlinkRotating, before)
      case 5 => Touch(UnlinkKeyFile, before)
      case _ => before
  }

  function StageSteps(to: Backend, blob: Blob): seq<DiskStep> {
    [WriteRotating(blob), StoreKey(to, blob.key), WriteSecrets(blob), UnlinkRotating, UnlinkKeyFile]
  }

  lemma TouchLast(ss: seq<DiskStep>, i: nat, d: Disk)
    requires 0 < i <= |ss|
    ensures TouchAll(ss[..i], d) == Touch(ss[i - 1], TouchAll(ss[..i - 1], d))
  {
    assert ss[..i] == ss[..i - 1] + [ss[i - 1]];
    TouchConcat(ss[..i - 1], [ss[i - 1]], d);
    assert [ss[i - 1]][1..] == [];
  }

  lemma {:induction false} StagedIsTouched(d: Disk, to: Backend, blob: Blob, i: nat)
    requires i <= 5
    ensures TouchAll(StageSteps(to, blob)[..i], d) == Staged(d, to, blob, i)
  {
    hide Touch;
    if i > 0 {
      StagedIsTouched(d, to, blob, i - 1);
      TouchLast(StageSteps(to, blob), i, d);
    }
  }

  /** The plan is the read, the staged steps, and the deletion if there is one to do. */
  lemma PlanIsStaged(d: Disk, b: Backend, to: Backend, deleteOld: bool)
    requires ReadPlan(d, b).outcome.Payload?
    ensures var p, read := MigratePlan(d, b, to, deleteOld), ReadPlan(d, b);
            var extra := |p.steps| - |read.steps|;
            && extra in {2, 4, 5} && (extra > 2 <==> p.outcome.Payload?)
            && (deleteOld && to.KeyFile? && p.outcome.Payload? ==> extra == 5) && (extra == 5 ==> deleteOld)
            && p.steps == read.steps + StageSteps(to, Blob(d.next + 1, read.outcome.secrets))[..extra]
  {
    hide ReadPlan;
  }

  /** The disk after a migration that was cut: part of its read, or the read and part of the staging. */
  lemma CutState(d: Disk, b: Backend, to: Backend, deleteOld: bool, cut: Option<nat>)
    requires ReadPlan(d, b).outcome.Payload?
    ensures var p, read := MigratePlan(d, b, to, deleteOld), ReadPlan(d, b);
            var n, r := StepsTaken(p, cut), |read.steps|;
            Exec(d, p, cut) == if n <= r then TouchAll(read.steps[..n], Drawn(d))
                               else Staged(TouchAll(read.steps, Drawn(d)), to, Blob(d.next + 1, read.outcome.secrets), n - r)
  {
    hide ReadPlan, MigratePlan, TouchAll, Staged, StageSteps;
    PlanIsStaged(d, b, to, deleteOld);
    var p, read := MigratePlan(d, b, to, deleteOld), ReadPlan(d, b);
    var blob := Blob(d.next + 1, read.outcome.secrets);
    var n, r := StepsTaken(p, cut), |read.steps|;
    if n <= r {
      assert p.steps[..n] == read.steps[..n];
    } else {
      FiveSteps(to, blob);
      assert p.steps[..n] == read.steps + StageSteps(to, blob)[..n - r];
      TouchConcat(read.steps, StageSteps(to, blob)[..n - r], Drawn(d));
      StagedIsTouched(TouchAll(read.steps, Drawn(d)), to, blob, n - r);
    }
  }

  lemma FiveSteps(to: Backend, blob: Blob)
    ensures |StageSteps(to, blob)| == 5
  {}

  /** The run deletes the key file that it has just moved the key into. */
  predicate DeletesNewKey(p: Plan, to: Backend, deleteOld: bool, cut: Option<nat>) {
    to.KeyFile? && deleteOld && p.outcome.Payload? && StepsTaken(p, cut) == |p.steps|
  }

  /** Whether a disk `i` steps into the staging can be read through a backend that could not read before. */
  lemma StagedRecovers(d: Disk, b: Backend, to: Backend, key: nat, s: Secrets, key': nat, i: nat)
    requires Readable(d, b, key, s) && key < key' < d.next && i <= 5 && b != to
    ensures var mid := Staged(d, to, Blob(key', s), i);
            && (i <= 2 ==> Intact(mid, b) && Recover(mid, b) == Some(s))
            && (i > 2 ==> Recover(mid, b) == None)
            && (i >= 2 && !(i == 5 && to.KeyFile?) ==> Intact(mid, to) && Recover(mid, to) == Some(s))
            && (i == 5 && to.KeyFile? ==> Recover(mid, to) == None)
  {
    StagedOut(d, to, Blob(key', s), i);
  }

  lemma StagedOut(d: Disk, to: Backend, blob: Blob, i: nat)
    requires i <= 5
    ensures var mid := Staged(d, to, blob, i);
            && mid.next == d.next
            && mid.rotating == (if i == 0 then d.rotating else if i <= 3 then Some(blob) else None)
            && mid.secrets == (if i <= 2 then d.secrets else Some(blob))
            && mid.file == (if i == 5 then None else if i >= 2 && to.KeyFile? then Some(blob.key) else d.file)
            && mid.ring == (if i >= 2 && to.Keyring? then Some(blob.key) else d.ring)
  {
    if i > 0 {
      StagedOut(d, to, blob, i - 1);
    }
  }

  /** The same when the migration stays on its backend, as a rotation does. */
  lemma StagedSame(d: Disk, b: Backend, key: nat, s: Secrets, key': nat, i: nat)
    requires Readable(d, b, key, s) && key < key' < d.next && i <= 5
    ensures var mid := Staged(d, b, Blob(key', s), i);
            if i == 5 && b.KeyFile? then Recover(mid, b) == None else Intact(mid, b) && Recover(mid, b) == Some(s)
  {
    StagedOut(d, b, Blob(key', s), i);
  }

  /**
   What each backend reads after a migration cut anywhere: the old one until the file is rewritten, the new one
   from the moment it has its key, unless that key is the file the migration deletes at its end.
   */
  lemma WhoRecovers(d: Disk, b: Backend, to: Backend, deleteOld: bool, cut: Option<nat>)
    requires Intact(d, b) && b != to
    ensures var p, read := MigratePlan(d, b, to, deleteOld), ReadPlan(d, b);
            var n, r, mid := StepsTaken(p, cut), |read.steps|, Exec(d, p, cut);
            && read.outcome.Payload?
            && (n <= r ==> Intact(mid, b) && Recover(mid, b) == LastWritten(read.steps[..n], Recover(d, b)))
            && (n >= r ==>
                  var s := read.outcome.secrets;
                  && (n <= r + 2 ==> Intact(mid, b) && Recover(mid, b) == Some(s))
                  && (n > r + 2 ==> Recover(mid, b) == None)
                  && (n >= r + 2 && !DeletesNewKey(p, to, deleteOld, cut) ==> Intact(mid, to) && Recover(mid, to) == Some(s))
                  && (DeletesNewKey(p, to, deleteOld, cut) ==> Recover(mid, to) == None))
  {
    hide ReadPlan, MigratePlan, Recover, Intact, Safe, LastWritten, TouchAll, Readable, Staged;
    ReadSafe(d, b);
    CutState(d, b, to, deleteOld, cut);
    PlanIsStaged(d, b, to, deleteOld);
    var p, read := MigratePlan(d, b, to, deleteOld), ReadPlan(d, b);
    var n, r := StepsTaken(p, cut), |read.steps|;
    var whole := TouchAll(read.steps, Drawn(d));
    ReadableRecovers(whole, b, LiveKey(d, b), read.outcome.secrets);
    assert read.steps[..r] == read.steps;
    if n <= r {
      SafePrefix(read.steps, Drawn(d), b, n);
      DrawnRecovers(d, b);
      ReadableIntact(whole, b, LiveKey(d, b), read.outcome.secrets);
    } else {
      DrawsStay(read.steps, Drawn(d));
      StagedRecovers(whole, b, to, LiveKey(d, b), read.outcome.secrets, d.next + 1, n - r);
    }
  }

  lemma ReadableIntact(d: Disk, b: Backend, key: nat, s: Secrets)
    requires Readable(d, b, key, s)
    ensures Intact(d, b)
  {}

  lemma DrawnRecovers(d: Disk, b: Backend)
    ensures Recover(Drawn(d), b) == Recover(d, b)
  {}

  predicate EitherRecovers(d: Disk, b: Backend, to: Backend, s: Secrets) {
    Recover(d, b) == Some(s) || Recover(d, to) == Some(s)
  }

  /** A migration to the backend already in use is a rotation, except that it may delete its own key. */
  lemma SameBackendRecovers(d: Disk, b: Backend, deleteOld: bool, cut: Option<nat>)
    requires Intact(d, b)
    ensures var p, read := MigratePlan(d, b, b, deleteOld), ReadPlan(d, b);
            var n, r, mid := StepsTaken(p, cut), |read.steps|, Exec(d, p, cut);
            && read.outcome.Payload?
            && (n <= r ==> Intact(mid, b) && Recover(mid, b) == LastWritten(read.steps[..n], Recover(d, b)))
            && (n >= r ==>
                  if DeletesNewKey(p, b, deleteOld, cut) then Recover(mid, b) == None
                  else Intact(mid, b) && Recover(mid, b) == Some(read.outcome.secrets))
  {
    hide ReadPlan, MigratePlan, Recover, Intact, Safe, LastWritten, TouchAll, Readable, Staged;
    ReadSafe(d, b);
    CutState(d, b, b, deleteOld, cut);
    PlanIsStaged(d, b, b, deleteOld);
    var p, read := MigratePlan(d, b, b, deleteOld), ReadPlan(d, b);
    var n, r := StepsTaken(p, cut), |read.steps|;
    var whole := TouchAll(read.steps, Drawn(d));
    ReadableRecovers(whole, b, LiveKey(d, b), read.outcome.secrets);
    assert read.steps[..r] == read.steps;
    if n <= r {
      SafePrefix(read.steps, Drawn(d), b, n);
      DrawnRecovers(d, b);
      ReadableIntact(whole, b, LiveKey(d, b), read.outcome.secrets);
    } else {
      DrawsStay(read.steps, Drawn(d));
      StagedSame(whole, b, LiveKey(d, b), read.outcome.secrets, d.next + 1, n - r);
    }
  }

  /**
   During a migration one of the two backends can recover the payload at every point, if and only if the run
   does not end by deleting the very key file it migrated to.
   */
  lemma MigrationRecovers(d: Disk, b: Backend, to: Backend, deleteOld: bool, cut: Option<nat>)
    requires Intact(d, b) && d.secrets.Some?
    ensures var p := MigratePlan(d, b, to, deleteOld);
            EitherRecovers(Exec(d, p, cut), b, to, Recover(d, b).value) <==> !DeletesNewKey(p, to, deleteOld, cut)
  {
    hide ReadPlan, MigratePlan, Recover, Intact, LastWritten, Exec;
    ReadCarries(d, b);
    EmptyRecovers(d, b);
    if b == to {
      SameBackendRecovers(d, b, deleteOld, cut);
    } else {
      WhoRecovers(d, b, to, deleteOld, cut);
    }
    PlanIsStaged(d, b, to, deleteOld);
    var read := ReadPlan(d, b);
    var n := StepsTaken(MigratePlan(d, b, to, deleteOld), cut);
    if n <= |read.steps| {
      CarriedStays(read.steps, Recover(d, b).value, n);
    }
  }

  // ---- Writing through the old backend after a crash ---------------------------------------

  /** What reading through the other backend finds once a credential was written through this one. */
  lemma ReadAcross(d: Disk, b: Backend, to: Backend, memory: Option<nat>, name: string, value: string)
    requires Intact(d, b) && d.secrets.Some? && b != to
    ensures var put := PutPlan(d, b, memory, name, value); var written := Exec(d, put, None);
            && put.outcome == Payload(WithCredential(Recover(d, b).value, memory, name, value))
            && Intact(written, b) && Recover(written, b) == Some(put.outcome.secrets)
            && written.Key(b) == d.Key(b) && written.Key(to) == d.Key(to)
            && written.secrets == Some(Blob(d.Key(b).value, put.outcome.secrets))
            && written.rotating == if Opens(d.rotating, d.Key(b).value) then None else d.rotating
  {
    assert KeySteps(d, b) == [];
    var put := PutPlan(d, b, memory, name, value);
    var write := WriteSecrets(Blob(LiveKey(d, b), put.outcome.secrets));
    assert put.steps[..|put.steps|] == put.steps;
    if Opens(d.rotating, d.Key(b).value) {
      var promote := WriteSecrets(d.rotating.value);
      assert put.steps == [promote] + ([UnlinkRotating] + [write]);
      TouchConcat([promote], [UnlinkRotating] + [write], Drawn(d));
      TouchConcat([UnlinkRotating], [write], Touch(promote, Drawn(d)));
      TouchOne(promote, Drawn(d));
      TouchOne(UnlinkRotating, Touch(promote, Drawn(d)));
      TouchOne(write, Touch(UnlinkRotating, Touch(promote, Drawn(d))));
    } else {
      assert put.steps == [write];
      TouchOne(write, Drawn(d));
    }
  }

  lemma TouchOne(s: DiskStep, d: Disk)
    ensures TouchAll([s], d) == Touch(s, d)
  {
    assert [s][1..] == [];
  }

  lemma ExecDraws(d: Disk, p: Plan)
    ensures Exec(d, p, None).next == d.next + DRAWS
  {
    DrawsStay(p.steps[..|p.steps|], Drawn(d));
  }

  /** The other backend has a key of its own, and the staged blob opens under it: an abandoned migration left both. */
  predicate Stale(d: Disk, b: Backend, to: Backend) {
    d.Key(to).Some? && d.Key(to) != d.Key(b) && Opens(d.rotating, d.Key(to).value)
  }

  /** Both backends hold the same key. */
  predicate SharedKey(d: Disk, b: Backend, to: Backend) {
    d.Key(b).Some? && d.Key(to) == d.Key(b)
  }

  /**
   A credential written through one backend of any vault, whatever its history, and then a read through the other.
   The write is always accepted. The read takes it back, putting the older staged payload in its place where the
   first backend can no longer read anything, exactly when the staged blob opens under the other backend's own key.
   */
  lemma LaterWriteIsLostExactlyWhenStale(d: Disk, b: Backend, to: Backend, memory: Option<nat>, name: string, value: string)
    requires Intact(d, b) && d.secrets.Some? && b != to
    ensures var put := PutPlan(d, b, memory, name, value); var written := Exec(d, put, None);
            var read := ReadPlan(written, to); var reopened := Exec(written, read, None);
            var newer := WithCredential(Recover(d, b).value, memory, name, value);
            && put.outcome == Payload(newer) && Recover(written, b) == Some(newer)
            && if Stale(d, b, to) then
                 var older := d.rotating.value.payload;
                 read.outcome == Payload(older) && Recover(reopened, to) == Some(older) && Recover(reopened, b) == None
               else
                 && read.outcome == (if SharedKey(d, b, to) then Payload(newer) else Failed(Unreadable))
                 && Recover(reopened, b) == Some(newer)
  {
    hide PutPlan;
    ReadAcross(d, b, to, memory, name, value);
    if Stale(d, b, to) {
      StagePromoted(d, b, to, memory, name, value);
    } else {
      StageIgnored(d, b, to, memory, name, value);
    }
  }

  lemma StagePromoted(d: Disk, b: Backend, to: Backend, memory: Option<nat>, name: string, value: string)
    requires Intact(d, b) && d.secrets.Some? && b != to && Stale(d, b, to)
    ensures var written := Exec(d, PutPlan(d, b, memory, name, value), None);
            var read := ReadPlan(written, to); var reopened := Exec(written, read, None);
            var older := d.rotating.value.payload;
            read.outcome == Payload(older) && Recover(reopened, to) == Some(older) && Recover(reopened, b) == None
  {
    hide PutPlan;
    ReadAcross(d, b, to, memory, name, value);
    var written := Exec(d, PutPlan(d, b, memory, name, value), None);
    var promote := WriteSecrets(d.rotating.value);
    var read := ReadPlan(written, to);
    assert read.steps == [promote] + [UnlinkRotating] && read.steps[..2] == read.steps;
    TouchConcat([promote], [UnlinkRotating], Drawn(written));
    TouchOne(promote, Drawn(written));
    TouchOne(UnlinkRotating, Touch(promote, Drawn(written)));
    var reopened := Exec(written, read, None);
    assert reopened == Touch(UnlinkRotating, Touch(promote, Drawn(written)));
    assert reopened.Key(b) == written.Key(b) && reopened.Key(to) == written.Key(to);
  }

  /** The other backend's key, if it has one, opens what was just written or nothing at all. */
  lemma StageIgnored(d: Disk, b: Backend, to: Backend, memory: Option<nat>, name: string, value: string)
    requires Intact(d, b) && d.secrets.Some? && b != to && !Stale(d, b, to)
    ensures var put := PutPlan(d, b, memory, name, value); var written := Exec(d, put, None);
            var read := ReadPlan(written, to);
            && read.outcome == (if SharedKey(d, b, to) then put.outcome else Failed(Unreadable))
            && Recover(Exec(written, read, None), b) == Recover(written, b)
  {
    hide PutPlan;
    ReadAcross(d, b, to, memory, name, value);
    ExecDraws(d, PutPlan(d, b, memory, name, value));
    var written := Exec(d, PutPlan(d, b, memory, name, value), None);
    var read := ReadPlan(written, to);
    assert read.steps == KeySteps(written, to);
    assert read.steps[..|read.steps|] == read.steps;
    if read.steps != [] {
      TouchOne(read.steps[0], Drawn(written));
    }
  }

  lemma TakeStep(ss: seq<DiskStep>, d: Disk, n: nat)
    requires n <= |ss|
    ensures n == 0 ==> TouchAll(ss[..n], d) == d
    ensures n > 0 ==> TouchAll(ss[..n], d) == TouchAll(ss[1..][..n - 1], Touch(ss[0], d))
  {
    if n > 0 {
      assert ss[..n][1..] == ss[1..][..n - 1];
    }
  }

  /** No blob on the disk opens under a key that is not the given one. */
  predicate OpensNothing(d: Disk, key: Option<nat>) {
    key.Some? ==> !Opens(d.rotating, key.value) && !Opens(d.secrets, key.value)
  }

  /** A read moves no key but its own, and from its first step on every blob on the disk is its own. */
  lemma ReadStaysForeign(d: Disk, b: Backend, to: Backend, n: nat)
    requires Intact(d, b) && b != to && n <= |ReadPlan(d, b).steps|
    ensures var mid := TouchAll(ReadPlan(d, b).steps[..n], Drawn(d));
            && mid.Key(to) == d.Key(to) && (n == 0 ==> mid == Drawn(d))
            && (d.Key(b).Some? ==> mid.Key(b) == d.Key(b))
            && (n > 0 && !SharedKey(d, b, to) ==> OpensNothing(mid, d.Key(to)))
  {
    var read := ReadPlan(d, b);
    assert |read.steps| <= 2;
    TakeStep(read.steps, Drawn(d), n);
    if n > 0 {
      TakeStep(read.steps[1..], Touch(read.steps[0], Drawn(d)), n - 1);
    }
    if n > 1 {
      assert read.steps[1..][1..] == [];
    }
  }

  /** Before the new backend has its key: what it reads is what it read before the run, unless the run wrote. */
  lemma EarlyState(d: Disk, b: Backend, to: Backend, deleteOld: bool, cut: Option<nat>)
    requires Intact(d, b) && b != to
    requires StepsTaken(MigratePlan(d, b, to, deleteOld), cut) <= |ReadPlan(d, b).steps| + 1
    ensures var p := MigratePlan(d, b, to, deleteOld); var n, mid := StepsTaken(p, cut), Exec(d, p, cut);
            && mid.Key(to) == d.Key(to) && (d.Key(b).Some? ==> mid.Key(b) == d.Key(b)) && (n == 0 ==> mid == Drawn(d))
            && (n > 0 && !SharedKey(d, b, to) ==> OpensNothing(mid, d.Key(to)))
  {
    hide ReadPlan, MigratePlan, TouchAll, Recover, Staged;
    ReadSafe(d, b);
    CutState(d, b, to, deleteOld, cut);
    var read := ReadPlan(d, b);
    var r, n := |read.steps|, StepsTaken(MigratePlan(d, b, to, deleteOld), cut);
    ReadStaysForeign(d, b, to, if n <= r then n else r);
    if n > r {
      assert read.steps[..r] == read.steps;
      StagedOut(TouchAll(read.steps, Drawn(d)), to, Blob(d.next + 1, read.outcome.secrets), 1);
    }
  }

  /** What the new backend reads before it has its key. */
  lemma EarlyRecovers(d: Disk, b: Backend, to: Backend, deleteOld: bool, cut: Option<nat>)
    requires Intact(d, b) && b != to
    requires StepsTaken(MigratePlan(d, b, to, deleteOld), cut) <= |ReadPlan(d, b).steps| + 1
    ensures var p := MigratePlan(d, b, to, deleteOld); var n, mid := StepsTaken(p, cut), Exec(d, p, cut);
            && Recover(mid, to)
               == (if SharedKey(d, b, to) then Recover(mid, b) else if n == 0 then Recover(d, to) else None)
            && (n == 0 ==> mid == Drawn(d))
  {
    hide ReadPlan, MigratePlan, Exec;
    EarlyState(d, b, to, deleteOld, cut);
  }

  /** A stage left by an earlier migration is there until this one's first step, which overwrites it. */
  lemma StaleStays(d: Disk, b: Backend, to: Backend, deleteOld: bool, cut: Option<nat>)
    requires Intact(d, b) && d.secrets.Some? && b != to
    requires StepsTaken(MigratePlan(d, b, to, deleteOld), cut) <= |ReadPlan(d, b).steps| + 1
    ensures var p := MigratePlan(d, b, to, deleteOld); var n, mid := StepsTaken(p, cut), Exec(d, p, cut);
            && (SharedKey(mid, b, to) <==> SharedKey(d, b, to))
            && (Stale(mid, b, to) <==> n == 0 && Stale(d, b, to))
            && (Stale(mid, b, to) ==> mid.rotating == d.rotating)
  {
    hide MigratePlan, Exec;
    EarlyState(d, b, to, deleteOld, cut);
    if Stale(d, b, to) {
      assert ReadPlan(d, b).steps == [];
    }
  }

  /** Once the file is rewritten the old backend can read nothing; its write is refused and harms nothing. */
  lemma OldBackendRefuses(d: Disk, b: Backend, to: Backend, memory: Option<nat>, name: string, value: string)
    requires KeysDrawn(d) && d.secrets.Some? && Recover(d, b).None? && b != to
    ensures var put := PutPlan(d, b, memory, name, value);
            put.outcome == Failed(Unreadable) && Recover(Exec(d, put, None), to) == Recover(d, to)
  {
    var put := PutPlan(d, b, memory, name, value);
    assert put.steps == KeySteps(d, b) && put.steps[..|put.steps|] == put.steps;
    if put.steps != [] {
      TouchOne(put.steps[0], Drawn(d));
    }
  }

  /**
   A credential written through the old backend after a migration of any vault cut anywhere, and then a read through
   the new one. The write is accepted and then lost, the read returning an older payload and destroying the newer, if
   and only if the cut came after the new key was stored and before the file was rewritten, or an earlier migration had
   left the disk at that point and this one stopped before its first step. Otherwise the read fails and loses nothing
   (or returns the newer payload, when the backends share a key); once the file is rewritten the write is refused.
   */
  lemma LaterWriteIsLostExactly(d: Disk, b: Backend, to: Backend, deleteOld: bool, cut: Option<nat>,
                                memory: Option<nat>, name: string, value: string)
    requires Intact(d, b) && d.secrets.Some? && b != to
    ensures var p := MigratePlan(d, b, to, deleteOld); var n, midway := StepsTaken(p, cut), |ReadPlan(d, b).steps| + 2;
            var s, mid := Recover(d, b).value, Exec(d, p, cut);
            var put := PutPlan(mid, b, memory, name, value); var written := Exec(mid, put, None);
            var read := ReadPlan(written, to); var reopened := Exec(written, read, None);
            var newer := WithCredential(s, memory, name, value);
            && (n <= midway ==> put.outcome == Payload(newer) && Recover(written, b) == Some(newer))
            && (n == midway || (n == 0 && Stale(d, b, to)) ==>
                  var older := if n == midway then s else d.rotating.value.payload;
                  read.outcome == Payload(older) && Recover(reopened, to) == Some(older) && Recover(reopened, b) == None)
            && (n < midway && !(n == 0 && Stale(d, b, to)) ==>
                  && read.outcome == (if SharedKey(d, b, to) then Payload(newer) else Failed(Unreadable))
                  && Recover(reopened, b) == Some(newer))
            && (n > midway ==> put.outcome == Failed(Unreadable) && Recover(written, to) == Recover(mid, to))
  {
    hide ReadPlan, MigratePlan, PutPlan, Recover, Intact, LastWritten, Exec, StepsTaken;
    ReadCarries(d, b);
    EmptyRecovers(d, b);
    WhoRecovers(d, b, to, deleteOld, cut);
    var p, mid := MigratePlan(d, b, to, deleteOld), Exec(d, MigratePlan(d, b, to, deleteOld), cut);
    var n, r, s := StepsTaken(p, cut), |ReadPlan(d, b).steps|, Recover(d, b).value;
    if n <= r + 2 {
      if n <= r {
        CarriedStays(ReadPlan(d, b).steps, s, n);
      }
      EmptyRecovers(mid, b);
      LaterWriteIsLostExactlyWhenStale(mid, b, to, memory, name, value);
      if n < r + 2 {
        StaleStays(d, b, to, deleteOld, cut);
      } else {
        MidwayState(d, b, to, deleteOld, cut);
      }
    } else {
      LateState(d, b, to, deleteOld, cut);
      OldBackendRefuses(mid, b, to, memory, name, value);
    }
  }

  /** Both backends can read: the staged blob opens under the new key, the file under the old. */
  lemma MidwayState(d: Disk, b: Backend, to: Backend, deleteOld: bool, cut: Option<nat>)
    requires Intact(d, b) && d.secrets.Some? && b != to
    requires StepsTaken(MigratePlan(d, b, to, deleteOld), cut) == |ReadPlan(d, b).steps| + 2
    ensures var mid := Exec(d, MigratePlan(d, b, to, deleteOld), cut);
            Stale(mid, b, to) && mid.rotating == Some(Blob(d.next + 1, Recover(d, b).value))
  {
    hide ReadPlan, MigratePlan, TouchAll, Recover, Intact;
    ReadSafe(d, b);
    ReadCarries(d, b);
    CutState(d, b, to, deleteOld, cut);
    StagedOut(TouchAll(ReadPlan(d, b).steps, Drawn(d)), to, Blob(d.next + 1, ReadPlan(d, b).outcome.secrets), 2);
  }

  lemma LateState(d: Disk, b: Backend, to: Backend, deleteOld: bool, cut: Option<nat>)
    requires Intact(d, b) && d.secrets.Some? && b != to
    requires StepsTaken(MigratePlan(d, b, to, deleteOld), cut) > |ReadPlan(d, b).steps| + 2
    ensures var mid := Exec(d, MigratePlan(d, b, to, deleteOld), cut); KeysDrawn(mid) && mid.secrets.Some?
  {
    hide ReadPlan, MigratePlan, TouchAll, Recover;
    ReadSafe(d, b);
    CutState(d, b, to, deleteOld, cut);
    PlanIsStaged(d, b, to, deleteOld);
    var whole := TouchAll(ReadPlan(d, b).steps, Drawn(d));
    DrawsStay(ReadPlan(d, b).steps, Drawn(d));
    var i := StepsTaken(MigratePlan(d, b, to, deleteOld), cut) - |ReadPlan(d, b).steps|;
    StagedOut(whole, to, Blob(d.next + 1, ReadPlan(d, b).outcome.secrets), i);
  }

  // ---- The failing cases at concrete disks -------------------------------------------------

  /**
   A migration to the keyring abandoned once it had stored its key, another abandoned at its very start, a credential
   stored through the key file, and a read through the keyring: the credential is gone, and the key file reads nothing.
   */
  lemma AbandonedStageLosesWrite(s: Secrets, memory: Option<nat>, name: string, value: string)
    ensures var first := Disk(Some(Blob(0, s)), None, Some(0), None, 1);
            var once := Exec(first, MigratePlan(first, KeyFile, Keyring, false), Some(2));
            var twice := Exec(once, MigratePlan(once, KeyFile, Keyring, false), Some(0));
            var put := PutPlan(twice, KeyFile, memory, name, value); var written := Exec(twice, put, None);
            var read := ReadPlan(written, Keyring);
            && Intact(first, KeyFile) && Intact(once, KeyFile)
            && put.outcome == Payload(WithCredential(s, memory, name, value))
            && read.outcome == Payload(s) && Recover(Exec(written, read, None), KeyFile) == None
  {
    hide MigratePlan, PutPlan, Exec;
    var first := Disk(Some(Blob(0, s)), None, Some(0), None, 1);
    assert ReadPlan(first, KeyFile).steps == [];
    PlanIsStaged(first, KeyFile, Keyring, false);
    WhoRecovers(first, KeyFile, Keyring, false, Some(2));
    MidwayState(first, KeyFile, Keyring, false, Some(2));
    var once := Exec(first, MigratePlan(first, KeyFile, Keyring, false), Some(2));
    LaterWriteIsLostExactly(once, KeyFile, Keyring, false, Some(0), memory, name, value);
  }

  /** Moving the key from the keyring to the key file and asking for the old file to be deleted loses everything. */
  lemma DeletionLosesEverything(s: Secrets)
    requires s.wallet.Some?
    ensures var d := Disk(Some(Blob(0, s)), None, None, Some(0), 1); var p := MigratePlan(d, Keyring, KeyFile, true);
            && Intact(d, Keyring) && p.outcome == Payload(s) && DeletesNewKey(p, KeyFile, true, None)
            && Recover(Exec(d, p, None), Keyring) == None && Recover(Exec(d, p, None), KeyFile) == None
  {
    hide Exec;
    var d := Disk(Some(Blob(0, s)), None, None, Some(0), 1);
    PlanIsStaged(d, Keyring, KeyFile, true);
    WhoRecovers(d, Keyring, KeyFile, true, None);
  }
}
