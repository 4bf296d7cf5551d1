/**
 The encrypted secrets file and the master key that opens it, as values: every operation is a list of
 atomic disk steps, and a crash may stop it after any of them.

 Keys and wallets are numbers handed out by a counter, standing for fresh random ones. A blob opens
 under exactly the key it was sealed with.
 */
module Vault {
  import opened Tables

  datatype Backend = KeyFile | Keyring

  datatype Secrets = Secrets(wallet: Option<nat>, credentials: map<string, string>)

  datatype Blob = Blob(key: nat, payload: Secrets)

  datatype Disk = Disk(secrets: Option<Blob>, rotating: Option<Blob>, file: Option<nat>, ring: Option<nat>, next: nat)
  {
    function Key(b: Backend): Option<nat> {
      match b case KeyFile => file case Keyring => ring
    }
  }

  // ---- Atomic disk steps -------------------------------------------------------------------

  datatype DiskStep =
    | WriteSecrets(blob: Blob)
    | WriteRotating(blob: Blob)
    | UnlinkRotating
    | StoreKey(backend: Backend, key: nat)
    | UnlinkKeyFile

  function Touch(s: DiskStep, d: Disk): Disk {
    match s
    case WriteSecrets(blob) => d.(secrets := Some(blob))
    case WriteRotating(blob) => d.(rotating := Some(blob))
    case UnlinkRotating => d.(rotating := None)
    case StoreKey(KeyFile, key) => d.(file := Some(key))
    case StoreKey(Keyring, key) => d.(ring := Some(key))
    case UnlinkKeyFile => d.(file := None)
  }

  function TouchAll(ss: seq<DiskStep>, d: Disk): Disk
    decreases |ss|
  {
    if ss == [] then d else TouchAll(ss[1..], Touch(ss[0], d))
  }

  // ---- Operations --------------------------------------------------------------------------

  datatype Failure = Unreadable | NoWallet

  datatype Ending = Payload(secrets: Secrets) | Failed(failure: Failure)

  /** What an operation does to the disk when nothing stops it, and how it ends. */
  datatype Plan = Plan(steps: seq<DiskStep>, outcome: Ending)

  /** Numbers an operation draws: a key if its backend has none, a key to rotate to, and a wallet. */
  const DRAWS := 3

  function LiveKey(d: Disk, b: Backend): nat {
    if d.Key(b).Some? then d.Key(b).value else d.next
  }

  /** `get_or_create_key`. */
  function KeySteps(d: Disk, b: Backend): seq<DiskStep> {
    if d.Key(b).Some? then [] else [StoreKey(b, d.next)]
  }

  predicate Opens(blob: Option<Blob>, key: nat) {
    blob.Some? && blob.value.key == key
  }

  /** `_read_unlocked`: finish an interrupted rotation, or create the file, or decrypt it. */
  function ReadPlan(d: Disk, b: Backend): Plan {
    var key := LiveKey(d, b);
    if Opens(d.rotating, key) then
      Plan(KeySteps(d, b) + [WriteSecrets(d.rotating.value), UnlinkRotating], Payload(d.rotating.value.payload))
    else if d.secrets.None? then
      var created := Secrets(Some(d.next + 2), map[]);
      Plan(KeySteps(d, b) + [WriteSecrets(Blob(key, created))], Payload(created))
    else if Opens(d.secrets, key) then Plan(KeySteps(d, b), Payload(d.secrets.value.payload))
    else Plan(KeySteps(d, b), Failed(Unreadable))
  }

  function WithCredential(s: Secrets, memory: Option<nat>, name: string, value: string): Secrets {
    Secrets(if s.wallet.None? then memory else s.wallet, s.credentials[name := value])
  }

  /** `put_credential`; `memory` is the wallet bundle the object holds, if any. */
  function PutPlan(d: Disk, b: Backend, memory: Option<nat>, name: string, value: string): Plan {
    var read := ReadPlan(d, b);
    if read.outcome.Failed? then read
    else
      var payload := WithCredential(read.outcome.secrets, memory, name, value);
      Plan(read.steps + [WriteSecrets(Blob(LiveKey(d, b), payload))], Payload(payload))
  }

  /** The staged re-encryption that rotation and migration share; `to` receives the new key. */
  function Restage(d: Disk, b: Backend, to: Backend): Plan {
    var read := ReadPlan(d, b);
    if read.outcome.Failed? then read
    else
      var blob := Blob(d.next + 1, read.outcome.secrets);
      var staged := read.steps + [WriteRotating(blob), StoreKey(to, d.next + 1)];
      if blob.payload.wallet.None? then Plan(staged, Failed(NoWallet))
      else Plan(staged + [WriteSecrets(blob), UnlinkRotating], Payload(blob.payload))
  }

  /** `rotate_master_key`. */
  function RotatePlan(d: Disk, b: Backend): Plan {
    Restage(d, b, b)
  }

  /** `migrate_key_store`: with `deleteOld` the key file is unlinked at the end, if there is one. */
  function MigratePlan(d: Disk, b: Backend, to: Backend, deleteOld: bool): Plan {
    var staged := Restage(d, b, to);
    if staged.outcome.Payload? && deleteOld && (b.KeyFile? || to.KeyFile? || d.file.Some?)
    then Plan(staged.steps + [UnlinkKeyFile], staged.outcome)
    else staged
  }

  function StepsTaken(p: Plan, cut: Option<nat>): nat {
    if cut.Some? && cut.value < |p.steps| then cut.value else |p.steps|
  }

  function Drawn(d: Disk): Disk {
    d.(next := d.next + DRAWS)
  }

  /** Run a plan, stopped by a crash after `cut` steps if that is given. */
  function Exec(d: Disk, p: Plan, cut: Option<nat>): Disk {
    TouchAll(p.steps[..StepsTaken(p, cut)], Drawn(d))
  }

  // ---- Recovery ----------------------------------------------------------------------------

  /** What the next read through a backend returns, if it can decrypt anything. */
  function Recover(d: Disk, b: Backend): Option<Secrets> {
    var key := d.Key(b);
    if key.None? then None
    else if Opens(d.rotating, key.value) then Some(d.rotating.value.payload)
    else if Opens(d.secrets, key.value) then Some(d.secrets.value.payload)
    else None
  }

  predicate KeysDrawn(d: Disk) {
    && (d.secrets.Some? ==> d.secrets.value.key < d.next)
    && (d.rotating.Some? ==> d.rotating.value.key < d.next)
    && (d.file.Some? ==> d.file.value < d.next)
    && (d.ring.Some? ==> d.ring.value < d.next)
  }

  /** A vault is untouched, or its live backend can recover a payload. */
  predicate Intact(d: Disk, b: Backend) {
    && KeysDrawn(d)
    && (d.secrets.None? ==> d.rotating.None?)
    && (d.secrets.Some? ==> Recover(d, b).Some?)
  }

  /** The payload the last write of the secrets file carried. */
  function LastWritten(ss: seq<DiskStep>, before: Option<Secrets>): Option<Secrets>
    decreases |ss|
  {
    if ss == [] then before
    else LastWritten(ss[1..], if ss[0].WriteSecrets? then Some(ss[0].blob.payload) else before)
  }

  // ---- Crash points ------------------------------------------------------------------------

  /** At every point of these steps the backend recovers exactly what was last written. */
  predicate Safe(ss: seq<DiskStep>, d: Disk, b: Backend)
    decreases |ss|
  {
    && Intact(d, b)
    && (ss != [] ==>
          && Recover(Touch(ss[0], d), b) == (if ss[0].WriteSecrets? then Some(ss[0].blob.payload) else Recover(d, b))
          && Safe(ss[1..], Touch(ss[0], d), b))
  }

  lemma {:induction false} SafePrefix(ss: seq<DiskStep>, d: Disk, b: Backend, n: nat)
    requires Safe(ss, d, b) && n <= |ss|
    ensures Intact(TouchAll(ss[..n], d), b)
    ensures Recover(TouchAll(ss[..n], d), b) == LastWritten(ss[..n], Recover(d, b))
    decreases n
  {
    hide Intact, Recover, Touch;
    if n > 0 {
      assert ss[..n][1..] == ss[1..][..n - 1];
      SafePrefix(ss[1..], Touch(ss[0], d), b, n - 1);
    }
  }

  lemma {:induction false} SafeConcat(xs: seq<DiskStep>, ys: seq<DiskStep>, d: Disk, b: Backend)
    requires Safe(xs, d, b) && Safe(ys, TouchAll(xs, d), b)
    ensures Safe(xs + ys, d, b) && TouchAll(xs + ys, d) == TouchAll(ys, TouchAll(xs, d))
    decreases |xs|
  {
    hide Intact, Recover, Touch;
    if xs == [] {
      assert xs + ys == ys;
    } else {
      assert (xs + ys)[1..] == xs[1..] + ys;
      SafeConcat(xs[1..], ys, Touch(xs[0], d), b);
    }
  }

  lemma {:induction false} TouchConcat(xs: seq<DiskStep>, ys: seq<DiskStep>, d: Disk)
    ensures TouchAll(xs + ys, d) == TouchAll(ys, TouchAll(xs, d))
    decreases |xs|
  {
    if xs == [] {
      assert xs + ys == ys;
    } else {
      assert (xs + ys)[1..] == xs[1..] + ys;
      TouchConcat(xs[1..], ys, Touch(xs[0], d));
    }
  }

  lemma SafeNone(d: Disk, b: Backend)
    requires Intact(d, b)
    ensures Safe([], d, b)
  {}

  lemma SafeCons(s: DiskStep, ss: seq<DiskStep>, d: Disk, b: Backend)
    requires Intact(d, b) && Safe(ss, Touch(s, d), b)
    requires Recover(Touch(s, d), b) == if s.WriteSecrets? then Some(s.blob.payload) else Recover(d, b)
    ensures Safe([s] + ss, d, b) && TouchAll([s] + ss, d) == TouchAll(ss, Touch(s, d))
  {
    hide Intact, Recover, Touch;
    assert ([s] + ss)[1..] == ss;
  }

  // ---- Each operation is safe to interrupt -------------------------------------------------

  /** What a completed read leaves: the live key opens the file, and nothing staged opens. */
  predicate Readable(d: Disk, b: Backend, key: nat, payload: Secrets) {
    && Intact(d, b) && d.Key(b) == Some(key)
    && d.secrets == Some(Blob(key, payload)) && !Opens(d.rotating, key)
  }

  lemma ReadSafe(d: Disk, b: Backend)
    requires Intact(d, b)
    ensures var p := ReadPlan(d, b); var key := LiveKey(d, b);
            && Safe(p.steps, Drawn(d), b) && p.outcome.Payload? && key < d.next + 1
            && (d.secrets.Some? ==> Recover(d, b) == Some(p.outcome.secrets))
            && Readable(TouchAll(p.steps, Drawn(d)), b, key, p.outcome.secrets)
  {
    var d0, p, key := Drawn(d), ReadPlan(d, b), LiveKey(d, b);
    if d.secrets.None? {
      var create := WriteSecrets(Blob(key, p.outcome.secrets));
      var d1 := if d.Key(b).None? then Touch(StoreKey(b, key), d0) else d0;
      SafeNone(Touch(create, d1), b);
      SafeCons(create, [], d1, b);
      if d.Key(b).None? {
        SafeCons(StoreKey(b, key), [create] + [], d0, b);
        assert p.steps == [StoreKey(b, key)] + ([create] + []);
      } else {
        assert p.steps == [create] + [];
      }
    } else if Opens(d.rotating, key) {
      var promote := WriteSecrets(d.rotating.value);
      var d1 := Touch(promote, d0);
      SafeNone(Touch(UnlinkRotating, d1), b);
      SafeCons(UnlinkRotating, [], d1, b);
      SafeCons(promote, [UnlinkRotating] + [], d0, b);
      assert p.steps == [promote] + ([UnlinkRotating] + []);
    } else {
      assert p.steps == [];
    }
  }

  lemma PutSafe(d: Disk, b: Backend, memory: Option<nat>, name: string, value: string)
    requires Intact(d, b)
    ensures var p := PutPlan(d, b, memory, name, value);
            && Safe(p.steps, Drawn(d), b) && p.outcome.Payload?
            && Readable(TouchAll(p.steps, Drawn(d)), b, LiveKey(d, b), p.outcome.secrets)
  {
    hide ReadPlan;
    ReadSafe(d, b);
    var read := ReadPlan(d, b);
    var d1 := TouchAll(read.steps, Drawn(d));
    var write := WriteSecrets(Blob(LiveKey(d, b), WithCredential(read.outcome.secrets, memory, name, value)));
    DrawsStay(read.steps, Drawn(d));
    SafeNone(Touch(write, d1), b);
    SafeCons(write, [], d1, b);
    assert [write] + [] == [write];
    SafeConcat(read.steps, [write], Drawn(d), b);
  }

  lemma {:induction false} DrawsStay(ss: seq<DiskStep>, d: Disk)
    ensures TouchAll(ss, d).next == d.next
    decreases |ss|
  {
    if ss != [] {
      DrawsStay(ss[1..], Touch(ss[0], d));
    }
  }

  /** The staged steps after the read: at every one of them the payload is recoverable under the live key. */
  lemma StageSafe(d: Disk, b: Backend, key: nat, payload: Secrets, key': nat)
    requires Readable(d, b, key, payload) && key < key' < d.next
    ensures var blob := Blob(key', payload);
            && Safe([WriteRotating(blob), StoreKey(b, key')], d, b)
            && Safe([WriteRotating(blob), StoreKey(b, key'), WriteSecrets(blob), UnlinkRotating], d, b)
            && Recover(TouchAll([WriteRotating(blob), StoreKey(b, key')], d), b) == Some(payload)
            && Recover(TouchAll([WriteRotating(blob), StoreKey(b, key'), WriteSecrets(blob), UnlinkRotating], d), b)
               == Some(payload)
  {
    var blob := Blob(key', payload);
    var d1 := Touch(WriteRotating(blob), d);
    var d2 := Touch(StoreKey(b, key'), d1);
    var d3 := Touch(WriteSecrets(blob), d2);
    var d4 := Touch(UnlinkRotating, d3);
    SafeNone(d4, b);
    SafeCons(UnlinkRotating, [], d3, b);
    SafeCons(WriteSecrets(blob), [UnlinkRotating] + [], d2, b);
    SafeCons(StoreKey(b, key'), [WriteSecrets(blob)] + ([UnlinkRotating] + []), d1, b);
    SafeCons(WriteRotating(blob), [StoreKey(b, key')] + ([WriteSecrets(blob)] + ([UnlinkRotating] + [])), d, b);
    assert [WriteRotating(blob)] + ([StoreKey(b, key')] + ([WriteSecrets(blob)] + ([UnlinkRotating] + [])))
        == [WriteRotating(blob), StoreKey(b, key'), WriteSecrets(blob), UnlinkRotating];
    SafeNone(d2, b);
    SafeCons(StoreKey(b, key'), [], d1, b);
    SafeCons(WriteRotating(blob), [StoreKey(b, key')] + [], d, b);
    assert [WriteRotating(blob)] + ([StoreKey(b, key')] + []) == [WriteRotating(blob), StoreKey(b, key')];
  }

  lemma RotateSafe(d: Disk, b: Backend)
    requires Intact(d, b)
    ensures Safe(RotatePlan(d, b).steps, Drawn(d), b)
  {
    hide ReadPlan, Safe, Recover, Intact, TouchAll;
    ReadSafe(d, b);
    var read := ReadPlan(d, b);
    var blob := Blob(d.next + 1, read.outcome.secrets);
    DrawsStay(read.steps, Drawn(d));
    StageSafe(TouchAll(read.steps, Drawn(d)), b, LiveKey(d, b), read.outcome.secrets, d.next + 1);
    SafeConcat(read.steps, [WriteRotating(blob), StoreKey(b, d.next + 1)], Drawn(d), b);
    SafeConcat(read.steps, [WriteRotating(blob), StoreKey(b, d.next + 1), WriteSecrets(blob), UnlinkRotating], Drawn(d), b);
    assert [WriteRotating(blob), StoreKey(b, d.next + 1)] + [WriteSecrets(blob), UnlinkRotating]
        == [WriteRotating(blob), StoreKey(b, d.next + 1), WriteSecrets(blob), UnlinkRotating];
    assert read.steps + [WriteRotating(blob), StoreKey(b, d.next + 1)] + [WriteSecrets(blob), UnlinkRotating]
        == read.steps + ([WriteRotating(blob), StoreKey(b, d.next + 1)] + [WriteSecrets(blob), UnlinkRotating]);
  }
}
