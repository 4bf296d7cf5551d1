/**
 `Ledger`: posting rows, and balances cached under the version at which they were aggregated.
 */
module BalanceCache {
  import opened Tables
  import opened Ledger
  import opened Persistence

  /** Writes of other connections that land just before our next read. */
  type Interference = seq<Write>

  const MAX_TRIES := 3

  datatype Cached = Cached(totals: map<Account, int>, version: Version)

  class LedgerBook {
    const store: Store
    var cache: Option<Cached>

    constructor (store: Store)
      ensures this.store == store && cache.None?
    {
      this.store := store;
      cache := None;
    }

    /**
     The stamp is never ahead of the store, and while it still matches, the cached totals are the
     aggregation of the rows now visible.
     */
    ghost predicate Coherent()
      reads this, store
    {
      cache.Some? ==>
        var v := cache.value.version;
        && v.revision <= store.ledgerRevision && v.data <= store.dataVersion
        && (v == store.Now() ==> cache.value.totals == Totals(store.working.rows))
    }

    /** `Ledger.post`: drop the cache, then insert the row; a zero amount inserts nothing. */
    method Post(ts: int, debit: Account, credit: Account, cents: int, memo: string) returns (r: Result<()>)
      requires store.Valid() && Coherent()
      modifies this, store`working, store`committed, store`ledgerRevision, store`writeFaults, store`hits
      ensures store.Valid() && Coherent()
      ensures cents < 0 ==> r == Err(ValueError) && store.working == old(store.working)
      ensures r.Ok? ==>
                && 0 <= cents
                && store.working
                   == old(store.working).(rows := Ledger.Post(old(store.working.rows), ts, debit, credit, cents, memo))
      ensures r.Err? ==> store.working == old(store.working) && store.committed == old(store.committed)
      ensures r.Err? ==> r.error == if cents < 0 then ValueError else StoreError
      ensures (r == Err(StoreError) ==> Strikes(old(store.writeFaults))) && store.Hit(r == Err(StoreError))
      ensures store.committed == if store.depth == 0 then store.working else old(store.committed)
      ensures store.ledgerRevision >= old(store.ledgerRevision)
      ensures 0 < cents ==> (r.Ok? <==> !Strikes(old(store.writeFaults)))
      ensures store.writeFaults == if 0 < cents then After(old(store.writeFaults), 1) else old(store.writeFaults)
    {
      if cents < 0 {
        return Err(ValueError);
      }
      cache := None;
      if cents == 0 {
        return Ok(());
      }
      var ok := store.Execute(PostRow(Row(ts, debit, credit, cents, memo)));
      return if ok then Ok(()) else Err(StoreError);
    }

    /** Let the interference of one read point happen. */
    method Await(moves: Interference)
      requires store.Valid() && Coherent()
      modifies store`working, store`committed, store`dataVersion
      ensures store.Valid() && Coherent()
      ensures store.dataVersion >= old(store.dataVersion)
      ensures store.dataVersion == old(store.dataVersion) ==> store.working == old(store.working)
      ensures store.depth > 0 ==> store.working == old(store.working) && store.committed == old(store.committed)
      ensures store.depth == 0 ==> store.working == ApplyAll(moves, old(store.working))
      ensures moves == [] ==> store.dataVersion == old(store.dataVersion)
    {
      var i := 0;
      while i < |moves|
        invariant 0 <= i <= |moves|
        invariant store.Valid() && Coherent()
        invariant store.dataVersion >= old(store.dataVersion)
        invariant store.dataVersion == old(store.dataVersion) ==> store.working == old(store.working)
        invariant store.depth > 0 ==> store.working == old(store.working) && store.committed == old(store.committed)
        invariant store.depth == 0 ==> store.working == ApplyAll(moves[..i], old(store.working))
        invariant i == 0 ==> store.dataVersion == old(store.dataVersion)
      {
        ApplyAllConcat(moves[..i], [moves[i]], old(store.working));
        assert moves[..i + 1] == moves[..i] + [moves[i]];
        store.Foreign(moves[i]);
        i := i + 1;
      }
      assert moves[..i] == moves;
    }

    /**
     `Ledger.balances()`: serve the cache while its version still holds, otherwise aggregate, and stamp the
     result only when no other connection committed between the two version reads around it. Read point `k`
     is preceded by `moves(k)`. What the cache serves is the aggregation of the rows visible at that moment.
     */
    method Balances(moves: nat -> Interference) returns (totals: map<Account, int>, hit: bool, points: nat)
      requires store.Valid() && Coherent()
      modifies this`cache, store`working, store`committed, store`dataVersion
      ensures store.Valid() && Coherent()
      ensures hit ==> points == 1 && totals == Totals(store.working.rows) && cache == old(cache)
      ensures moves(0) == [] ==> (hit <==> old(cache.Some? && cache.value.version == store.Now()))
      ensures !hit && moves(2) == moves(3) == [] ==> points == 4 && cache == Some(Cached(totals, store.Now()))
      ensures !hit && (forall k :: 0 < k < points ==> moves(k) == []) ==> totals == Totals(store.working.rows)
      ensures !hit && points <= 3 * (MAX_TRIES - 1) + 1 ==> cache == Some(Cached(totals, store.Now()))
      ensures store.depth > 0 ==> store.working == old(store.working) && store.committed == old(store.committed)
      ensures store.depth == 0 ==> store.working == ApplyAll(Landed(moves, points), old(store.working))
      ensures 1 <= points <= 3 * MAX_TRIES + 1
    {
      hide ApplyAll, Landed, Totals, Numbered;
      Await(moves(0));
      points := 1;
      LandedOne(moves);
      var version := store.Now();
      if cache.Some? && cache.value.version == version {
        return cache.value.totals, true, points;
      }
      hit, totals := false, map[];
      var tries := 0;
      while tries < MAX_TRIES
        invariant 0 <= tries <= MAX_TRIES && points == 3 * tries + 1
        invariant store.Valid() && Coherent()
        invariant store.depth > 0 ==> store.working == old(store.working) && store.committed == old(store.committed)
        invariant store.depth == 0 ==> store.working == ApplyAll(Landed(moves, points), old(store.working))
        invariant tries > 0 ==> exists k :: 0 < k < points && moves(k) != []
        invariant tries > 0 ==> !(moves(2) == moves(3) == [])
        invariant moves(0) == [] ==> !old(cache.Some? && cache.value.version == store.Now())
      {
        var stamped;
        totals, stamped := Attempt(moves, points, old(store.working));
        points := points + 3;
        if stamped {
          return;
        }
        assert moves(points - 2) != [] || moves(points - 1) != [];
        tries := tries + 1;
      }
      cache := None;
    }

    /** One pass of the retry loop: aggregate between two version reads, and stamp when they agree. */
    method Attempt(moves: nat -> Interference, points: nat, ghost start: Db)
      returns (totals: map<Account, int>, stamped: bool)
      requires store.Valid() && Coherent()
      requires store.depth == 0 ==> store.working == ApplyAll(Landed(moves, points), start)
      modifies this`cache, store`working, store`committed, store`dataVersion
      ensures store.Valid() && Coherent()
      ensures stamped ==> totals == Totals(store.working.rows) && cache == Some(Cached(totals, store.Now()))
      ensures !stamped ==> moves(points + 1) != [] || moves(points + 2) != []
      ensures store.depth > 0 ==> store.working == old(store.working) && store.committed == old(store.committed)
      ensures store.depth == 0 ==> store.working == ApplyAll(Landed(moves, points + 3), start)
    {
      hide ApplyAll, Landed, Totals, Numbered;
      AwaitAt(moves, points, start);
      var before := store.Now();
      AwaitAt(moves, points + 1, start);
      totals := Totals(store.working.rows);
      AwaitAt(moves, points + 2, start);
      stamped := before == store.Now();
      if stamped {
        cache := Some(Cached(totals, before));
      }
    }

    /** The interference before read point `k`, added to what landed before it. */
    method AwaitAt(moves: nat -> Interference, k: nat, ghost start: Db)
      requires store.Valid() && Coherent()
      requires store.depth == 0 ==> store.working == ApplyAll(Landed(moves, k), start)
      modifies store`working, store`committed, store`dataVersion
      ensures store.Valid() && Coherent()
      ensures store.dataVersion >= old(store.dataVersion)
      ensures store.dataVersion == old(store.dataVersion) ==> store.working == old(store.working)
      ensures moves(k) == [] ==> store.dataVersion == old(store.dataVersion)
      ensures store.depth > 0 ==> store.working == old(store.working) && store.committed == old(store.committed)
      ensures store.depth == 0 ==> store.working == ApplyAll(Landed(moves, k + 1), start)
    {
      Await(moves(k));
      ApplyAllConcat(Landed(moves, k), moves(k), start);
    }
  }

  /** Everything other connections committed before the first `points` reads. */
  function Landed(moves: nat -> Interference, points: nat): seq<Write> {
    if points == 0 then [] else Landed(moves, points - 1) + moves(points - 1)
  }

  lemma LandedOne(moves: nat -> Interference)
    ensures Landed(moves, 1) == moves(0)
  {
    assert Landed(moves, 0) == [];
  }
}
