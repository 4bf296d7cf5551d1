/**
 The store's connection: nested transactions as a SQLite savepoint stack, and the version token that
 lets a balance cache notice every change of the ledger rows it can see.

 `committed` is what other connections see and `working` is what this one sees. Statements may be made to
 fail: `writeFaults` says of each coming write whether the database raises on it, and `exitFaults` of each
 coming COMMIT or RELEASE; `hits` counts the failures so far.
 */
module Persistence {
  import opened Tables

  /** A named savepoint and the state it rolls back to. */
  datatype Savepoint = Savepoint(name: nat, before: Db)

  /** What `transaction()` keeps in its own frame: the depth on entry and the savepoint it opened, if nested. */
  datatype Frame = Frame(entry: nat, name: Option<nat>)

  /** `ledger_version`: changes of this store, and PRAGMA data_version for changes by other connections. */
  datatype Version = Version(revision: nat, data: nat)

  /** Names are handed out by a counter, so they grow along the stack and none repeats. */
  predicate Numbered(savepoints: seq<Savepoint>, last: nat) {
    && (forall i, j :: 0 <= i < j < |savepoints| ==> savepoints[i].name < savepoints[j].name)
    && (forall i :: 0 <= i < |savepoints| ==> savepoints[i].name <= last)
  }

  /** Which of the coming statements of a kind the database raises on; none past the end. */
  type Faults = seq<bool>

  predicate Strikes(faults: Faults) {
    faults != [] && faults[0]
  }

  /** The schedule `n` statements later. */
  function After(faults: Faults, n: nat): (later: Faults)
    ensures true in later ==> true in faults
  {
    if n <= |faults| then faults[n..] else []
  }

  /** How many statements go through before the first that fails. */
  function FirstFault(faults: Faults): (first: Option<nat>)
    ensures first.Some? ==> first.value < |faults| && faults[first.value]
    ensures forall i :: 0 <= i < |faults| && faults[i] ==> first.Some? && first.value <= i
  {
    if faults == [] then None
    else if faults[0] then Some(0)
    else
      var rest := FirstFault(faults[1..]);
      assert forall i :: 0 < i < |faults| ==> faults[i] == faults[1..][i - 1];
      if rest.None? then None else Some(rest.value + 1)
  }

  /** One statement further along the schedule: either it is the first to fail, or the first fault is later. */
  lemma NextFault(faults: Faults, n: nat)
    requires FirstFault(faults).Some? ==> n <= FirstFault(faults).value
    ensures After(After(faults, n), 1) == After(faults, n + 1)
    ensures Strikes(After(faults, n)) <==> FirstFault(faults) == Some(n)
  {
    hide FirstFault;
    if n < |faults| {
      assert After(faults, n)[0] == faults[n];
      assert faults[n..][1..] == faults[n + 1..];
    }
  }

  /** The position SQLite resolves a savepoint name to: the most recent one of that name. */
  function Resolve(savepoints: seq<Savepoint>, name: nat): nat {
    if savepoints == [] then 0
    else if savepoints[|savepoints| - 1].name == name then |savepoints| - 1
    else Resolve(savepoints[..|savepoints| - 1], name)
  }

  lemma {:induction false} ResolveFinds(savepoints: seq<Savepoint>, last: nat, k: nat)
    requires Numbered(savepoints, last) && k < |savepoints|
    ensures Resolve(savepoints, savepoints[k].name) == k
  {
    if k < |savepoints| - 1 {
      assert savepoints[k].name < savepoints[|savepoints| - 1].name;
      ResolveFinds(savepoints[..|savepoints| - 1], last, k);
    }
  }

  class Store {
    var committed: Db
    var working: Db
    var savepoints: seq<Savepoint>
    var savepointSeq: nat
    var ledgerRevision: nat
    var dataVersion: nat
    var depth: nat
    var writeFaults: Faults
    var exitFaults: Faults
    ghost var hits: nat

    ghost predicate Valid()
      reads this
    {
      && (depth == 0 ==> working == committed && savepoints == [])
      && depth <= |savepoints| + 1
      && Numbered(savepoints, savepointSeq)
    }

    constructor (db: Db)
      ensures Valid() && depth == 0 && committed == db && working == db && writeFaults == exitFaults == []
    {
      committed, working := db, db;
      savepoints, savepointSeq := [], 0;
      ledgerRevision, dataVersion, depth := 0, 0, 0;
      writeFaults, exitFaults, hits := [], [], 0;
    }

    function Now(): Version
      reads this
    {
      Version(ledgerRevision, dataVersion)
    }

    /** The frame's savepoint is on the stack at position `k`, or the frame is the outermost transaction. */
    ghost predicate Holds(frame: Frame, k: nat)
      reads this
    {
      && depth == frame.entry + 1
      && (frame.name.None? ==> frame.entry == 0 && k == 0)
      && (frame.name.Some? ==> 0 < frame.entry <= k + 1 && k < |savepoints| && savepoints[k].name == frame.name.value)
    }

    /** Entering `transaction()`: BEGIN IMMEDIATE at the outer boundary, a fresh savepoint inside. */
    method Enter() returns (frame: Frame)
      requires Valid()
      modifies this`depth, this`savepoints, this`savepointSeq
      ensures Valid() && frame.entry == old(depth) && depth == old(depth) + 1
      ensures frame.name.None? <==> old(depth) == 0
      ensures frame.name.None? ==> savepoints == []
      ensures frame.name.Some? ==> savepoints == old(savepoints) + [Savepoint(frame.name.value, working)]
      ensures Holds(frame, if old(depth) == 0 then 0 else |old(savepoints)|)
    {
      if depth == 0 {
        frame := Frame(0, None);
      } else {
        savepointSeq := savepointSeq + 1;
        frame := Frame(depth, Some(savepointSeq));
        savepoints := savepoints + [Savepoint(savepointSeq, working)];
      }
      depth := depth + 1;
    }

    /** Leaving by an exception: everything the block wrote is gone, and cached balances become stale. */
    method Unwind(frame: Frame, ghost k: nat)
      requires Valid() && Holds(frame, k)
      modifies this`depth, this`savepoints, this`working, this`ledgerRevision
      ensures Valid() && depth == frame.entry && ledgerRevision == old(ledgerRevision) + 1
      ensures frame.name.None? ==> working == committed && savepoints == []
      ensures frame.name.Some? ==> working == old(savepoints[k].before) && savepoints == old(savepoints[..k])
    {
      if frame.name.None? {
        working, savepoints := committed, [];
      } else {
        ResolveFinds(savepoints, savepointSeq, k);
        var at := Resolve(savepoints, frame.name.value);
        working, savepoints := savepoints[at].before, savepoints[..at + 1];  // ROLLBACK TO SAVEPOINT
        savepoints := savepoints[..at];                                      // RELEASE SAVEPOINT
      }
      ledgerRevision := ledgerRevision + 1;
      depth := frame.entry;
    }

    /**
     Leaving normally: COMMIT or RELEASE. When that statement itself raises, the outer boundary rolls back,
     but a nested block leaves its savepoint and its writes where they are.
     */
    method Complete(frame: Frame, ghost k: nat, exitFails: bool) returns (raised: bool)
      requires Valid() && Holds(frame, k)
      modifies this`depth, this`savepoints, this`working, this`committed, this`ledgerRevision
      ensures Valid() && depth == frame.entry && raised == exitFails
      ensures !exitFails && frame.name.None? ==> committed == working == old(working) && savepoints == []
      ensures !exitFails && frame.name.Some? ==>
                working == old(working) && committed == old(committed) && savepoints == old(savepoints[..k])
      ensures exitFails && frame.name.None? ==> working == committed == old(committed) && savepoints == []
      ensures exitFails && frame.name.Some? ==>
                working == old(working) && committed == old(committed) && savepoints == old(savepoints)
      ensures ledgerRevision == old(ledgerRevision) + if exitFails then 1 else 0
    {
      raised := exitFails;
      if exitFails {
        if frame.name.None? {
          working, savepoints := committed, [];
        }
        ledgerRevision := ledgerRevision + 1;
      } else if frame.name.None? {
        committed, savepoints := working, [];
      } else {
        ResolveFinds(savepoints, savepointSeq, k);
        savepoints := savepoints[..Resolve(savepoints, frame.name.value)];
      }
      depth := frame.entry;
    }

    /** What an operation's transaction leaves of the store, given how its body ended. */
    method Leave<T>(frame: Frame, ghost k: nat, body: Result<T>) returns (r: Result<T>)
      requires Valid() && Holds(frame, k)
      modifies this`depth, this`savepoints, this`working, this`committed, this`ledgerRevision, this`exitFaults, this`hits
      ensures Valid() && depth == frame.entry && ledgerRevision == old(ledgerRevision) + if r.Err? then 1 else 0
      ensures r == if body.Ok? && Strikes(old(exitFaults)) then Err(StoreError) else body
      ensures exitFaults == (if body.Ok? then After(old(exitFaults), 1) else old(exitFaults)) && Hit(body.Ok? && r.Err?)
      ensures frame.name.None? ==> savepoints == [] && working == committed
                                   && committed == old(if r.Ok? then working else committed)
      ensures frame.name.Some? ==> committed == old(committed)
                                   && working == old(if body.Ok? then working else savepoints[k].before)
                                   && savepoints == if body.Ok? && r.Err? then old(savepoints) else old(savepoints[..k])
    {
      if body.Err? {
        Unwind(frame, k);
        return body;
      }
      var raised := Complete(frame, k, Strikes(exitFaults));
      exitFaults := After(exitFaults, 1);
      hits := hits + if raised then 1 else 0;
      return if raised then Err(StoreError) else body;
    }

    /** The transaction is as it was, save for savepoints a failed RELEASE left; only the outermost level commits. */
    twostate predicate Restored()
      reads this
    {
      && depth == old(depth) && old(savepoints) <= savepoints
      && committed == (if depth == 0 then working else old(committed))
      && (true in writeFaults ==> true in old(writeFaults)) && (true in exitFaults ==> true in old(exitFaults))
    }

    /** One more statement has failed, or none. */
    twostate predicate Hit(new failed: bool)
      reads this
    {
      hits == old(hits) + if failed then 1 else 0
    }

    /** Some statement may fail. */
    predicate MayFail()
      reads this
    {
      true in writeFaults || true in exitFaults
    }

    /**
     What an operation that raised leaves: the store as it was, or, only inside another transaction and only
     when a RELEASE failed, all of its effect for that transaction to keep or undo.
     */
    twostate predicate NothingOrLeak(new done: Option<Db>)
      reads this
    {
      || working == old(working)
      || (0 < depth && true in old(exitFaults) && done.Some? && working == done.value)
    }

    /** One statement: it takes effect, committed at once outside a transaction, or raises without effect. */
    method Execute(w: Write) returns (ok: bool)
      requires Valid()
      modifies this`working, this`committed, this`ledgerRevision, this`writeFaults, this`hits
      ensures Valid()
      ensures ok <==> !Strikes(old(writeFaults))
      ensures working == (if ok then Apply(w, old(working)) else old(working))
      ensures !w.PostRow? ==> working.rows == old(working.rows)
      ensures committed == if ok && depth == 0 then working else old(committed)
      ensures ledgerRevision == old(ledgerRevision) + if ok && w.PostRow? then 1 else 0
      ensures writeFaults == After(old(writeFaults), 1) && Hit(!ok)
    {
      ok := !Strikes(writeFaults);
      writeFaults := After(writeFaults, 1);
      hits := hits + if ok then 0 else 1;
      if ok {
        working := Apply(w, working);
        if w.PostRow? {
          ledgerRevision := ledgerRevision + 1;
        }
        if depth == 0 {
          committed := working;
        }
      }
    }

    /** Another connection tries to commit a write. It is held off while this one has a transaction open. */
    method Foreign(w: Write)
      requires Valid()
      modifies this`working, this`committed, this`dataVersion
      ensures Valid()
      ensures depth > 0 ==> working == old(working) && committed == old(committed) && dataVersion == old(dataVersion)
      ensures depth == 0 ==> working == Apply(w, old(working)) && committed == working
                             && dataVersion == old(dataVersion) + 1
    {
      if depth == 0 {
        committed := Apply(w, committed);
        working := committed;
        dataVersion := dataVersion + 1;
      }
    }
  }
}
