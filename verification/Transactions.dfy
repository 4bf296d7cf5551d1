/**
 Programs of nested `transaction()` blocks, what they are meant to do, and what the savepoint machine does.
 */
module Transactions {
  import opened Tables
  import opened Ledger
  import opened Persistence
  import opened BalanceCache

  datatype Stmt =
    | Do(w: Write)                                        // one statement of ours
    | Raise                                               // an exception in the caller's code
    | Block(body: seq<Stmt>, exitFails: bool)             // with store.transaction(): body; the exit may raise
    | Try(body: seq<Stmt>)                                // body with every exception caught
    | Foreign(w: Write)                                   // another connection tries to commit
    | ReadBalances(moves: seq<Write>)                     // balances(), while others commit during its reads

  datatype Outcome = Outcome(db: Db, raised: bool)

  /** The intended meaning: a block that raises, for whatever reason, leaves no trace. */
  function Intended(p: seq<Stmt>, db: Db, nested: bool): Outcome
    decreases p
  {
    if p == [] then Outcome(db, false)
    else
      match p[0]
      case Do(w) => Intended(p[1..], Apply(w, db), nested)
      case Raise => Outcome(db, true)
      case Block(body, exitFails) =>
        var o := Intended(body, db, true);
        if o.raised || exitFails then Outcome(db, true) else Intended(p[1..], o.db, nested)
      case Try(body) => Intended(p[1..], Intended(body, db, nested).db, nested)
      case Foreign(w) => Intended(p[1..], if nested then db else Apply(w, db), nested)
      case ReadBalances(moves) => Intended(p[1..], if nested then db else ApplyAll(moves, db), nested)
  }

  /** What the machine does: the same, except that a nested block whose RELEASE raises keeps its writes. */
  function Exact(p: seq<Stmt>, db: Db, nested: bool): Outcome
    decreases p
  {
    if p == [] then Outcome(db, false)
    else
      match p[0]
      case Do(w) => Exact(p[1..], Apply(w, db), nested)
      case Raise => Outcome(db, true)
      case Block(body, exitFails) =>
        var o := Exact(body, db, true);
        if o.raised then Outcome(db, true)
        else if exitFails then Outcome(if nested then o.db else db, true)
        else Exact(p[1..], o.db, nested)
      case Try(body) => Exact(p[1..], Exact(body, db, nested).db, nested)
      case Foreign(w) => Exact(p[1..], if nested then db else Apply(w, db), nested)
      case ReadBalances(moves) => Exact(p[1..], if nested then db else ApplyAll(moves, db), nested)
  }

  /** A nested block that raises on RELEASE and whose exception is caught: its write survives the commit. */
  lemma FailedReleaseSurvives(db: Db)
    requires !db.bought
    ensures var p := [Block([Try([Block([Do(SetBought)], true)])], false)];
            Exact(p, db, false).db == db.(bought := true) && Intended(p, db, false).db == db
  {
    var inner := [Block([Do(SetBought)], true)];
    assert Exact([Do(SetBought)], db, true) == Outcome(db.(bought := true), false);
    assert Exact(inner, db, true) == Outcome(db.(bought := true), true);
    assert Exact([Try(inner)], db, true) == Outcome(db.(bought := true), false);
    assert Intended(inner, db, true) == Outcome(db, true);
    assert Intended([Try(inner)], db, true) == Outcome(db, false);
  }

  // ---- Exactly the surviving writes --------------------------------------------------------

  datatype Survivors = Survivors(writes: seq<Write>, raised: bool)

  function After(writes: seq<Write>, rest: Survivors): Survivors {
    rest.(writes := writes + rest.writes)
  }

  /** The writes of blocks that completed under ancestors that all completed, in program order. */
  function Surviving(p: seq<Stmt>, nested: bool): Survivors
    decreases p
  {
    if p == [] then Survivors([], false)
    else
      match p[0]
      case Raise => Survivors([], true)
      case Block(body, exitFails) =>
        var inner := Surviving(body, true);
        if inner.raised || exitFails then Survivors([], true) else After(inner.writes, Surviving(p[1..], nested))
      case Try(body) => After(Surviving(body, nested).writes, Surviving(p[1..], nested))
      case Do(w) => After([w], Surviving(p[1..], nested))
      case Foreign(w) => After(if nested then [] else [w], Surviving(p[1..], nested))
      case ReadBalances(moves) => After(if nested then [] else moves, Surviving(p[1..], nested))
  }

  /** The writes the machine keeps: also those of a nested block whose own RELEASE raised. */
  function Kept(p: seq<Stmt>, nested: bool): Survivors
    decreases p
  {
    if p == [] then Survivors([], false)
    else
      match p[0]
      case Raise => Survivors([], true)
      case Block(body, exitFails) =>
        var inner := Kept(body, true);
        if inner.raised then Survivors([], true)
        else if exitFails then Survivors(if nested then inner.writes else [], true)
        else After(inner.writes, Kept(p[1..], nested))
      case Try(body) => After(Kept(body, nested).writes, Kept(p[1..], nested))
      case Do(w) => After([w], Kept(p[1..], nested))
      case Foreign(w) => After(if nested then [] else [w], Kept(p[1..], nested))
      case ReadBalances(moves) => After(if nested then [] else moves, Kept(p[1..], nested))
  }

  /** The intended meaning applies exactly the surviving writes. */
  lemma {:induction false} IntendedIsSurviving(p: seq<Stmt>, db: Db, nested: bool)
    ensures Intended(p, db, nested)
            == Outcome(ApplyAll(Surviving(p, nested).writes, db), Surviving(p, nested).raised)
    decreases p
  {
    hide Apply;
    if p != [] {
      var rest := Surviving(p[1..], nested).writes;
      match p[0]
      case Raise =>
      case Block(body, exitFails) =>
        IntendedIsSurviving(body, db, true);
        IntendedIsSurviving(p[1..], Intended(body, db, true).db, nested);
        ApplyAllConcat(Surviving(body, true).writes, rest, db);
      case Try(body) =>
        IntendedIsSurviving(body, db, nested);
        IntendedIsSurviving(p[1..], Intended(body, db, nested).db, nested);
        ApplyAllConcat(Surviving(body, nested).writes, rest, db);
      case Do(w) =>
        IntendedIsSurviving(p[1..], Apply(w, db), nested);
        ApplyAllConcat([w], rest, db);
      case Foreign(w) =>
        IntendedIsSurviving(p[1..], if nested then db else Apply(w, db), nested);
        ApplyAllConcat(if nested then [] else [w], rest, db);
      case ReadBalances(moves) =>
        IntendedIsSurviving(p[1..], if nested then db else ApplyAll(moves, db), nested);
        ApplyAllConcat(if nested then [] else moves, rest, db);
    }
  }

  /** The machine leaves the initial database with exactly the kept writes applied, for every program. */
  lemma {:induction false} OnlyKeptPersists(p: seq<Stmt>, db: Db, nested: bool)
    ensures Exact(p, db, nested) == Outcome(ApplyAll(Kept(p, nested).writes, db), Kept(p, nested).raised)
    decreases p
  {
    hide Apply;
    if p != [] {
      var rest := Kept(p[1..], nested).writes;
      match p[0]
      case Raise =>
      case Block(body, exitFails) =>
        OnlyKeptPersists(body, db, true);
        OnlyKeptPersists(p[1..], Exact(body, db, true).db, nested);
        ApplyAllConcat(Kept(body, true).writes, rest, db);
      case Try(body) =>
        OnlyKeptPersists(body, db, nested);
        OnlyKeptPersists(p[1..], Exact(body, db, nested).db, nested);
        ApplyAllConcat(Kept(body, nested).writes, rest, db);
      case Do(w) =>
        OnlyKeptPersists(p[1..], Apply(w, db), nested);
        ApplyAllConcat([w], rest, db);
      case Foreign(w) =>
        OnlyKeptPersists(p[1..], if nested then db else Apply(w, db), nested);
        ApplyAllConcat(if nested then [] else [w], rest, db);
      case ReadBalances(moves) =>
        OnlyKeptPersists(p[1..], if nested then db else ApplyAll(moves, db), nested);
        ApplyAllConcat(if nested then [] else moves, rest, db);
    }
  }

  // ---- Exactly when the machine is all or nothing ------------------------------------------

  /**
   A nested block that ran to its end with writes to keep fails on its RELEASE, and no enclosing block that
   raises takes those writes back.
   */
  predicate Leaks(p: seq<Stmt>, nested: bool)
    decreases p
  {
    if p == [] then false
    else
      match p[0]
      case Raise => false
      case Block(body, exitFails) =>
        if Kept(body, true).raised then false
        else if exitFails then nested && Kept(body, true).writes != []
        else Leaks(body, true) || Leaks(p[1..], nested)
      case Try(body) => Leaks(body, nested) || Leaks(p[1..], nested)
      case _ => Leaks(p[1..], nested)
  }

  /** The machine raises when it should, never keeps less than it should, and keeps more exactly when it leaks. */
  lemma {:induction false} LeaksExactly(p: seq<Stmt>, nested: bool)
    ensures Kept(p, nested).raised == Surviving(p, nested).raised
    ensures if Leaks(p, nested) then |Surviving(p, nested).writes| < |Kept(p, nested).writes|
            else Surviving(p, nested).writes == Kept(p, nested).writes
    decreases p
  {
    if p != [] && !p[0].Raise? {
      LeaksExactly(p[1..], nested);
      match p[0]
      case Block(body, _) => LeaksExactly(body, true);
      case Try(body) => LeaksExactly(body, nested);
      case _ =>
    }
  }

  /**
   All or nothing at every level, for any tree of blocks with exceptions raised and caught anywhere, if and
   only if no nested block leaks: then the machine keeps exactly the writes it should, on every database.
   */
  lemma AllOrNothingUnlessLeak(p: seq<Stmt>, nested: bool)
    ensures Kept(p, nested) == Surviving(p, nested) <==> !Leaks(p, nested)
    ensures !Leaks(p, nested) ==> forall db :: Exact(p, db, nested) == Intended(p, db, nested)
  {
    LeaksExactly(p, nested);
    if !Leaks(p, nested) {
      forall db ensures Exact(p, db, nested) == Intended(p, db, nested) {
        OnlyKeptPersists(p, db, nested);
        IntendedIsSurviving(p, db, nested);
      }
    }
  }

  /**
   A block that raises, by an exception in its body or on its exit, leaves no write behind, whatever ran inside
   it and whatever follows; only a nested block that raises on its own exit leaves what its body kept.
   */
  lemma RaisingBlockLeavesNothing(body: seq<Stmt>, exitFails: bool, rest: seq<Stmt>, db: Db, nested: bool)
    requires Surviving(body, true).raised || exitFails
    ensures Exact([Block(body, exitFails)] + rest, db, nested)
            == Outcome(if Surviving(body, true).raised || !nested then db else ApplyAll(Kept(body, true).writes, db), true)
  {
    var p := [Block(body, exitFails)] + rest;
    assert p[0] == Block(body, exitFails) && p[1..] == rest;
    LeaksExactly(body, true);
    OnlyKeptPersists(body, db, true);
  }

  // ---- The machine -------------------------------------------------------------------------

  /** Everything about the store that a program must leave as it found it. */
  twostate predicate StackRestored(store: Store, n: nat)
    reads store
  {
    && store.depth == old(store.depth)
    && n <= |old(store.savepoints)| && n <= |store.savepoints|
    && store.savepoints[..n] == old(store.savepoints[..n])
    && (store.depth > 0 ==> store.committed == old(store.committed))
    && true !in store.writeFaults
  }

  /**
   Run a program on the store. The machine refines the exact semantics at every depth, returns the depth to
   its entry value, and keeps the balance cache coherent throughout.
   */
  method Run(book: LedgerBook, p: seq<Stmt>) returns (raised: bool)
    requires book.store.Valid() && book.Coherent() && true !in book.store.writeFaults
    modifies book, book.store
    ensures book.store.Valid() && book.Coherent()
    ensures Outcome(book.store.working, raised) == Exact(p, old(book.store.working), old(book.store.depth) > 0)
    ensures StackRestored(book.store, |old(book.store.savepoints)|)
    decreases p, 0
  {
    hide Apply, ApplyAll, Numbered, Totals;
    var store := book.store;
    if p == [] {
      return false;
    }
    match p[0] {
      case Raise =>
        return true;
      case Do(w) =>
        var _ := store.Execute(w);
      case Foreign(w) =>
        store.Foreign(w);
      case ReadBalances(moves) =>
        ReadDuring(book, moves);
      case Try(body) =>
        var _ := Run(book, body);
      case Block(body, exitFails) =>
        raised := RunBlock(book, body, exitFails);
        if raised {
          return;
        }
    }
    raised := Run(book, p[1..]);
  }

  method RunBlock(book: LedgerBook, body: seq<Stmt>, exitFails: bool) returns (raised: bool)
    requires book.store.Valid() && book.Coherent() && true !in book.store.writeFaults
    modifies book, book.store
    ensures book.store.Valid() && book.Coherent()
    ensures var o := Exact(body, old(book.store.working), true);
            && raised == (o.raised || exitFails)
            && book.store.working == (if o.raised || (exitFails && old(book.store.depth) == 0)
                                      then old(book.store.working) else o.db)
    ensures StackRestored(book.store, |old(book.store.savepoints)|)
    decreases body, 1
  {
    hide Apply, ApplyAll, Totals, Exact;
    var store := book.store;
    ghost var n := |store.savepoints|;
    ghost var k := if store.depth == 0 then 0 else n;
    var frame := store.Enter();
    label inside:
    raised := Run(book, body);
    if frame.name.Some? {
      assert store.savepoints[..n + 1] == old@inside(store.savepoints);
      assert store.savepoints[..n] == store.savepoints[..n + 1][..n] == old(store.savepoints);
    }
    ghost var below := store.savepoints[..n];
    if raised {
      store.Unwind(frame, k);
    } else {
      raised := store.Complete(frame, k, exitFails);
    }
    assert store.savepoints[..n] == below;
  }

  /** Read the balances while other connections commit, some before the read and the rest during it. */
  method ReadDuring(book: LedgerBook, moves: seq<Write>)
    requires book.store.Valid() && book.Coherent() && true !in book.store.writeFaults
    modifies book, book.store
    ensures book.store.Valid() && book.Coherent()
    ensures book.store.working
            == if old(book.store.depth) == 0 then ApplyAll(moves, old(book.store.working)) else old(book.store.working)
    ensures StackRestored(book.store, |old(book.store.savepoints)|)
  {
    var start := book.store.working;
    var schedule := (k: nat) => if k < |moves| then [moves[k]] else [];
    var _, _, points := book.Balances(schedule);
    var landed := if points <= |moves| then points else |moves|;
    LandedIsPrefix(moves, schedule, points);
    book.Await(moves[landed..]);
    ApplyAllSplit(moves, landed, start);
  }

  lemma ApplyAllSplit(moves: seq<Write>, k: nat, db: Db)
    requires k <= |moves|
    ensures ApplyAll(moves[k..], ApplyAll(moves[..k], db)) == ApplyAll(moves, db)
  {
    ApplyAllConcat(moves[..k], moves[k..], db);
    assert moves[..k] + moves[k..] == moves;
  }

  lemma {:induction false} LandedIsPrefix(moves: seq<Write>, schedule: nat -> Interference, points: nat)
    requires forall k: nat :: schedule(k) == if k < |moves| then [moves[k]] else []
    ensures Landed(schedule, points) == moves[..if points <= |moves| then points else |moves|]
  {
    if points > 0 {
      LandedIsPrefix(moves, schedule, points - 1);
    }
  }
}
