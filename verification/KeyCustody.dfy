/**
 `Wallet`: the methods that rewrite the disk and the object's own fields one step at a time, on a disk that
 may stop accepting steps at any point.
 */
module KeyCustody {
  import opened Tables
  import opened Vault

  /** The disk; `stepsLeft` counts the steps that still happen before the machine dies. */
  class Machine {
    var disk: Disk
    var stepsLeft: Option<nat>

    constructor (disk: Disk, stepsLeft: Option<nat>)
      ensures this.disk == disk && this.stepsLeft == stepsLeft
    {
      this.disk, this.stepsLeft := disk, stepsLeft;
    }

    method Do(s: DiskStep) returns (alive: bool)
      modifies this
      ensures alive <==> old(stepsLeft) != Some(0)
      ensures disk == if alive then Touch(s, old(disk)) else old(disk)
      ensures stepsLeft == if alive && old(stepsLeft).Some? then Some(old(stepsLeft).value - 1) else old(stepsLeft)
    {
      alive := stepsLeft != Some(0);
      if alive {
        disk := Touch(s, disk);
        stepsLeft := if stepsLeft.Some? then Some(stepsLeft.value - 1) else None;
      }
    }
  }

  class Wallet {
    const machine: Machine
    var bundle: Option<nat>
    var keyStore: Backend

    constructor (machine: Machine, keyStore: Backend)
      ensures this.machine == machine && this.keyStore == keyStore && bundle.None?
    {
      this.machine, this.keyStore, bundle := machine, keyStore, None;
    }

    /** The first `done` steps of the list have happened, on a disk that allowed `left` in all. */
    ghost predicate StepsMade(ss: seq<DiskStep>, done: nat, start: Disk, left: Option<nat>)
      reads machine
    {
      && done <= |ss| && machine.disk == TouchAll(ss[..done], start)
      && (left.Some? ==> done <= left.value)
      && machine.stepsLeft == (if left.Some? then Some(left.value - done) else None)
    }

    /** The machine died in the list: the steps it allowed have happened. */
    ghost predicate Died(ss: seq<DiskStep>, start: Disk, left: Option<nat>)
      reads machine
    {
      left.Some? && left.value < |ss| && machine.disk == TouchAll(ss[..left.value], start) && machine.stepsLeft == Some(0)
    }

    /** One step of the list. */
    method Next(s: DiskStep, ghost ss: seq<DiskStep>, ghost done: nat, ghost start: Disk, ghost left: Option<nat>)
      returns (alive: bool)
      requires StepsMade(ss, done, start, left) && done < |ss| && ss[done] == s
      modifies machine
      ensures if alive then StepsMade(ss, done + 1, start, left) else Died(ss, start, left)
    {
      hide Touch, TouchAll;
      NextStep(ss, done, start);
      alive := machine.Do(s);
    }

    /** The steps the plan takes under the budget, whatever happened. */
    ghost predicate Executed(p: Plan, start: Disk, left: Option<nat>)
      reads machine
    {
      machine.disk == Exec(start, p, left)
    }

    /** `get_or_create_key`. */
    method GetOrCreateKey(drawn: nat, ghost ss: seq<DiskStep>, ghost before: Disk, ghost left: Option<nat>)
      returns (r: Option<nat>)
      requires StepsMade(ss, 0, Drawn(before), left) && KeySteps(before, keyStore) <= ss && drawn == before.next
      modifies machine
      ensures r.Some? ==> r.value == LiveKey(before, keyStore) && StepsMade(ss, |KeySteps(before, keyStore)|, Drawn(before), left)
      ensures r.None? ==> Died(ss, Drawn(before), left)
    {
      assert ss[..0] == [];
      var key := machine.disk.Key(keyStore);
      if key.Some? {
        return key;
      }
      var alive := Next(StoreKey(keyStore, drawn), ss, 0, Drawn(before), left);
      return if alive then Some(drawn) else None;
    }

    /**
     `_read_unlocked`, as the first part of a list of steps. `None` when the machine dies in it.
     */
    method ReadUnlocked(drawn: nat, ghost ss: seq<DiskStep>, ghost before: Disk, ghost left: Option<nat>)
      returns (r: Option<Ending>)
      requires StepsMade(ss, 0, Drawn(before), left) && ReadPlan(before, keyStore).steps <= ss && drawn == before.next
      modifies machine, this`bundle
      ensures r.Some? ==> r.value == ReadPlan(before, keyStore).outcome
                          && StepsMade(ss, |ReadPlan(before, keyStore).steps|, Drawn(before), left)
      ensures r.None? ==> Died(ss, Drawn(before), left)
      ensures r.Some? && r.value.Payload? ==>
                bundle == if old(bundle).Some? && !Creates(before, keyStore) then old(bundle) else r.value.secrets.wallet
    {
      hide Touch, TouchAll;
      ghost var plan, k := ReadPlan(before, keyStore), |KeySteps(before, keyStore)|;
      assert KeySteps(before, keyStore) <= plan.steps;
      var key := GetOrCreateKey(drawn, ss, before, left);
      if key.None? {
        return None;
      }
      KeyStepsKeepBlobs(before, keyStore);
      assert ss[..k] == KeySteps(before, keyStore);
      var disk := machine.disk;
      if Opens(disk.rotating, key.value) {
        assert ss[k] == plan.steps[k] && ss[k + 1] == plan.steps[k + 1];
        var promoted := Next(WriteSecrets(disk.rotating.value), ss, k, Drawn(before), left);
        if !promoted {
          return None;
        }
        var unlinked := Next(UnlinkRotating, ss, k + 1, Drawn(before), left);
        if !unlinked {
          return None;
        }
        if bundle.None? {
          bundle := disk.rotating.value.payload.wallet;
        }
        return Some(Payload(disk.rotating.value.payload));
      }
      if disk.secrets.None? {
        assert ss[k] == plan.steps[k];
        bundle := Some(drawn + 2);
        var payload := Secrets(bundle, map[]);
        var written := Next(WriteSecrets(Blob(key.value, payload)), ss, k, Drawn(before), left);
        return if written then Some(Payload(payload)) else None;
      }
      if !Opens(disk.secrets, key.value) {
        return Some(Failed(Unreadable));
      }
      if bundle.None? {
        bundle := disk.secrets.value.payload.wallet;
      }
      return Some(Payload(disk.secrets.value.payload));
    }

    /** Draw the numbers an operation may use. */
    method Draw() returns (drawn: nat)
      modifies machine
      ensures drawn == old(machine.disk.next)
      ensures machine.disk == Drawn(old(machine.disk)) && machine.stepsLeft == old(machine.stepsLeft)
    {
      drawn := machine.disk.next;
      machine.disk := machine.disk.(next := drawn + DRAWS);
    }

    lemma NoSteps(ss: seq<DiskStep>, start: Disk)
      ensures TouchAll(ss[..0], start) == start
    {}

    /** `_read`. */
    method Read() returns (r: Option<Ending>)
      modifies machine, this`bundle
      ensures Executed(ReadPlan(old(machine.disk), keyStore), old(machine.disk), old(machine.stepsLeft))
      ensures r.Some? ==> r.value == ReadPlan(old(machine.disk), keyStore).outcome
      ensures old(machine.stepsLeft).None? ==> r.Some?
    {
      hide Touch, TouchAll, ReadPlan;
      ghost var before, left := machine.disk, machine.stepsLeft;
      ghost var plan := ReadPlan(before, keyStore);
      var drawn := Draw();
      NoSteps(plan.steps, machine.disk);
      r := ReadUnlocked(drawn, plan.steps, before, left);
    }

    /** `load_or_create`: the same disk steps as a read; it insists on a wallet and keeps it in memory. */
    method LoadOrCreate() returns (r: Option<Ending>)
      modifies machine, this`bundle
      ensures Executed(ReadPlan(old(machine.disk), keyStore), old(machine.disk), old(machine.stepsLeft))
      ensures r.Some? ==> r.value == LoadEnding(old(machine.disk), keyStore, old(bundle))
      ensures r.Some? && r.value.Payload? ==> bundle.Some?
      ensures old(machine.stepsLeft).None? ==> r.Some?
    {
      hide Touch, TouchAll, ReadPlan;
      ghost var before, left := machine.disk, machine.stepsLeft;
      ghost var plan := ReadPlan(before, keyStore);
      CreatedHasWallet(before, keyStore);
      var promoted := Opens(machine.disk.rotating, LiveKey(machine.disk, keyStore));
      var drawn := Draw();
      NoSteps(plan.steps, machine.disk);
      r := ReadUnlocked(drawn, plan.steps, before, left);
      if r.None? || r.value.Failed? {
        return;
      }
      if (if promoted then bundle.None? else r.value.secrets.wallet.None?) {
        return Some(Failed(NoWallet));
      }
      if !promoted {
        bundle := r.value.secrets.wallet;
      }
    }

    /** `put_credential`. */
    method PutCredential(name: string, value: string) returns (r: Option<Ending>)
      modifies machine, this`bundle
      ensures var plan := PutPlan(old(machine.disk), keyStore, old(bundle), name, value);
              && Executed(plan, old(machine.disk), old(machine.stepsLeft))
              && (r.Some? ==> r.value == plan.outcome)
      ensures old(machine.stepsLeft).None? ==> r.Some?
    {
      hide Touch, TouchAll, ReadPlan;
      ghost var before, left := machine.disk, machine.stepsLeft;
      ghost var read, plan := ReadPlan(before, keyStore), PutPlan(before, keyStore, bundle, name, value);
      var drawn := Draw();
      NoSteps(plan.steps, machine.disk);
      r := ReadUnlocked(drawn, plan.steps, before, left);
      if r.None? || r.value.Failed? {
        return;
      }
      CreatedHasWallet(before, keyStore);
      var payload := WithCredential(r.value.secrets, bundle, name, value);
      assert plan.steps[..|read.steps|] == read.steps;
      ReadSetsKey(before, keyStore);
      var written := Next(WriteSecrets(Blob(machine.disk.Key(keyStore).value, payload)), plan.steps, |read.steps|,
                          Drawn(before), left);
      return if written then Some(Payload(payload)) else None;
    }

    /** The staged part of a rotation or a migration, after its read. */
    method Stage(to: Backend, drawn: nat, payload: Secrets, ghost before: Disk, ghost ss: seq<DiskStep>, ghost left: Option<nat>)
      returns (r: Option<Ending>)
      requires var plan := Restage(before, keyStore, to); var read := ReadPlan(before, keyStore);
               && read.outcome == Payload(payload) && plan.steps <= ss && drawn == before.next
               && StepsMade(ss, |read.steps|, Drawn(before), left)
      modifies machine, this`bundle
      ensures var plan := Restage(before, keyStore, to);
              if r.Some? then r.value == plan.outcome && StepsMade(ss, |plan.steps|, Drawn(before), left)
              else Died(ss, Drawn(before), left)
    {
      hide TouchAll, ReadPlan;
      ghost var n, plan := |ReadPlan(before, keyStore).steps|, Restage(before, keyStore, to);
      var blob := Blob(drawn + 1, payload);
      assert ss[n] == plan.steps[n] && ss[n + 1] == plan.steps[n + 1];
      var staged := Next(WriteRotating(blob), ss, n, Drawn(before), left);
      if !staged {
        return None;
      }
      NextStep(ss, n, Drawn(before));
      NextStep(ss, n + 1, Drawn(before));
      var stored := Next(StoreKey(to, drawn + 1), ss, n + 1, Drawn(before), left);
      if !stored {
        return None;
      }
      var checked := machine.disk.rotating.value.payload;
      if checked.wallet.None? {
        return Some(Failed(NoWallet));
      }
      assert ss[n + 2] == plan.steps[n + 2] && ss[n + 3] == plan.steps[n + 3];
      var written := Next(WriteSecrets(machine.disk.rotating.value), ss, n + 2, Drawn(before), left);
      if !written {
        return None;
      }
      var unlinked := Next(UnlinkRotating, ss, n + 3, Drawn(before), left);
      if !unlinked {
        return None;
      }
      bundle := checked.wallet;
      return Some(Payload(checked));
    }

    /** `rotate_master_key`. */
    method RotateMasterKey() returns (r: Option<Ending>)
      modifies machine, this`bundle
      ensures var plan := RotatePlan(old(machine.disk), keyStore);
              && Executed(plan, old(machine.disk), old(machine.stepsLeft))
              && (r.Some? ==> r.value == plan.outcome)
      ensures old(machine.stepsLeft).None? ==> r.Some?
    {
      hide Touch, TouchAll, ReadPlan;
      ghost var before, left := machine.disk, machine.stepsLeft;
      ghost var plan := RotatePlan(before, keyStore);
      var drawn := Draw();
      NoSteps(plan.steps, machine.disk);
      r := ReadUnlocked(drawn, plan.steps, before, left);
      if r.None? || r.value.Failed? {
        return;
      }
      r := Stage(keyStore, drawn, r.value.secrets, before, plan.steps, left);
    }

    /** `migrate_key_store`: the live backend changes only when every step has happened. */
    method MigrateKeyStore(to: Backend, deleteOld: bool) returns (r: Option<Ending>)
      modifies machine, this
      ensures var plan := MigratePlan(old(machine.disk), old(keyStore), to, deleteOld);
              && Executed(plan, old(machine.disk), old(machine.stepsLeft))
              && (r.Some? ==> r.value == plan.outcome)
              && (r.Some? && r.value.Payload? ==> keyStore == to)
      ensures old(machine.stepsLeft).None? ==> r.Some?
      ensures r.Some? && r.value.Failed? ==> keyStore == old(keyStore)
    {
      hide Touch, TouchAll, ReadPlan;
      ghost var before, left := machine.disk, machine.stepsLeft;
      ghost var plan, staged := MigratePlan(before, keyStore, to, deleteOld), Restage(before, keyStore, to);
      var drawn := Draw();
      NoSteps(plan.steps, machine.disk);
      r := ReadUnlocked(drawn, plan.steps, before, left);
      if r.None? || r.value.Failed? {
        return;
      }
      r := Stage(to, drawn, r.value.secrets, before, plan.steps, left);
      if r.None? || r.value.Failed? {
        return;
      }
      assert plan.steps[..|staged.steps|] == staged.steps;
      KeyFileExists(before, keyStore, to);
      keyStore := to;
      if deleteOld && machine.disk.file.Some? {
        var unlinked := Next(UnlinkKeyFile, plan.steps, |staged.steps|, Drawn(before), left);
        if !unlinked {
          return None;
        }
      }
    }
  }

  /** How loading ends: a promoted blob may lack a wallet if one is in memory, any other payload may not. */
  function LoadEnding(d: Disk, b: Backend, memory: Option<nat>): Ending {
    var read := ReadPlan(d, b).outcome;
    if read.Payload? && read.secrets.wallet.None? && (!Opens(d.rotating, LiveKey(d, b)) || memory.None?)
    then Failed(NoWallet) else read
  }

  /**
   Loading a readable vault returns its payload and loading an untouched one creates one with a wallet; a payload
   without a wallet is refused, unless it was just promoted from the stage and a wallet is in memory.
   */
  lemma LoadExactly(d: Disk, b: Backend, memory: Option<nat>)
    requires Intact(d, b)
    ensures var r := LoadEnding(d, b, memory);
            if d.secrets.None? then r.Payload? && r.secrets.wallet.Some? && r.secrets.credentials == map[]
            else if Recover(d, b).value.wallet.Some? then r == Payload(Recover(d, b).value)
            else if d.rotating.Some? && Some(d.rotating.value.key) == d.Key(b) && memory.Some? then r == Payload(Recover(d, b).value)
            else r == Failed(NoWallet)
  {}

  /** The read generates a new wallet and file. */
  predicate Creates(d: Disk, b: Backend) {
    d.secrets.None? && !Opens(d.rotating, LiveKey(d, b))
  }

  lemma CreatedHasWallet(d: Disk, b: Backend)
    ensures Creates(d, b) ==> ReadPlan(d, b).outcome.Payload? && ReadPlan(d, b).outcome.secrets.wallet.Some?
  {}

  lemma NextStep(ss: seq<DiskStep>, done: nat, start: Disk)
    requires done < |ss|
    ensures TouchAll(ss[..done + 1], start) == Touch(ss[done], TouchAll(ss[..done], start))
    decreases done
  {
    if done > 0 {
      assert ss[..done + 1][1..] == ss[1..][..done] && ss[..done][1..] == ss[1..][..done - 1];
      NextStep(ss[1..], done - 1, Touch(ss[0], start));
    } else {
      assert ss[..1][1..] == [];
    }
  }

  lemma KeyStepsKeepBlobs(d: Disk, b: Backend)
    ensures var after := TouchAll(KeySteps(d, b), Drawn(d));
            && after.secrets == d.secrets && after.rotating == d.rotating && after.Key(b) == Some(LiveKey(d, b))
            && (b.Keyring? ==> after.file == d.file)
  {
    if d.Key(b).None? {
      assert KeySteps(d, b)[1..] == [];
    }
  }

  predicate KeepsKeys(ss: seq<DiskStep>) {
    forall i :: 0 <= i < |ss| ==> !ss[i].StoreKey? && !ss[i].UnlinkKeyFile?
  }

  lemma {:induction false} KeysKept(ss: seq<DiskStep>, d: Disk)
    requires KeepsKeys(ss)
    ensures TouchAll(ss, d).file == d.file && TouchAll(ss, d).ring == d.ring
    decreases |ss|
  {
    if ss != [] {
      KeysKept(ss[1..], Touch(ss[0], d));
    }
  }

  /** After making sure of the key, a read touches only the two blobs. */
  lemma ReadTail(d: Disk, b: Backend)
    ensures KeySteps(d, b) <= ReadPlan(d, b).steps && KeepsKeys(ReadPlan(d, b).steps[|KeySteps(d, b)|..])
  {}

  /** A read leaves its backend with the live key, and the other backend alone. */
  lemma ReadSetsKey(d: Disk, b: Backend)
    ensures var after := TouchAll(ReadPlan(d, b).steps, Drawn(d));
            && after.Key(b) == Some(LiveKey(d, b)) && (b.Keyring? ==> after.file == d.file)
  {
    hide ReadPlan, KeySteps, TouchAll, KeepsKeys;
    KeyStepsKeepBlobs(d, b);
    ReadTail(d, b);
    var k := KeySteps(d, b);
    var rest := ReadPlan(d, b).steps[|k|..];
    assert ReadPlan(d, b).steps == k + rest;
    TouchConcat(k, rest, Drawn(d));
    KeysKept(rest, TouchAll(k, Drawn(d)));
  }

  /** Whether the key file exists at the end of a migration. */
  lemma KeyFileExists(d: Disk, b: Backend, to: Backend)
    requires Restage(d, b, to).outcome.Payload?
    ensures TouchAll(Restage(d, b, to).steps, Drawn(d)).file.Some? <==> b.KeyFile? || to.KeyFile? || d.file.Some?
  {
    hide ReadPlan;
    ReadSetsKey(d, b);
    var read := ReadPlan(d, b);
    var blob := Blob(d.next + 1, read.outcome.secrets);
    var d1 := TouchAll(read.steps, Drawn(d));
    TouchConcat(read.steps + [WriteRotating(blob)], [StoreKey(to, d.next + 1), WriteSecrets(blob), UnlinkRotating], Drawn(d));
    TouchConcat(read.steps, [WriteRotating(blob)], Drawn(d));
    assert Restage(d, b, to).steps
        == read.steps + [WriteRotating(blob)] + [StoreKey(to, d.next + 1), WriteSecrets(blob), UnlinkRotating];
    KeysKept([WriteRotating(blob)], d1);
    var d2 := TouchAll([WriteRotating(blob)], d1);
    assert [StoreKey(to, d.next + 1), WriteSecrets(blob), UnlinkRotating][1..] == [WriteSecrets(blob), UnlinkRotating];
    KeysKept([WriteSecrets(blob), UnlinkRotating], Touch(StoreKey(to, d.next + 1), d2));
  }
}
