/**
 The double-entry ledger: what a set of rows says about an account, a prefix of accounts, or a flow.

 A balance is total debits minus total credits, so every row adds its amount to one account and
 takes it from another.
 */
module Ledger {
  import opened Tables

  /** A quantity that each ledger row moves by a fixed amount. */
  datatype Gauge =
    | Of(account: Account)          // balance of one account
    | Prefix(kind: Kind)            // sum of the balances of all accounts of a kind
    | Collected                     // cents moved from receivable to USDC
    | Earned(since: Option<int>)    // revenue_by_prefix("income.", since)
    | Rent                          // number of "vps month" payments

  const VPS_MEMO := "vps month"

  function Side(hit: bool, cents: nat): int {
    if hit then cents else 0
  }

  predicate EndsWith(s: string, suffix: string) {
    |suffix| <= |s| && s[|s| - |suffix|..] == suffix
  }

  predicate Mentions(s: string, word: string) {
    EndsWith(s, word) || (s != "" && Mentions(s[..|s| - 1], word))
  }

  /** Income accounts that count as revenue: no paper trading, nothing unearned. */
  predicate IsRevenue(a: Account) {
    a.kind.IncomeKind? && !EndsWith(a.name, "_paper") && !Mentions(a.name, "unearned")
  }

  predicate IsRent(r: Row) {
    r.debit == INFRA && r.memo == VPS_MEMO
  }

  function Gain(g: Gauge, r: Row): int {
    match g
    case Of(a) => Side(r.debit == a, r.cents) - Side(r.credit == a, r.cents)
    case Prefix(k) => Side(r.debit.kind == k, r.cents) - Side(r.credit.kind == k, r.cents)
    case Collected => if r.debit == USDC && r.credit == RECEIVABLE then r.cents else 0
    case Earned(since) =>
      if since.Some? && r.ts < since.value then 0
      else Side(IsRevenue(r.credit), r.cents) - Side(IsRevenue(r.debit), r.cents)
    case Rent => if IsRent(r) then 1 else 0
  }

  function Read(g: Gauge, rows: seq<Row>): int {
    if rows == [] then 0 else Read(g, rows[..|rows| - 1]) + Gain(g, rows[|rows| - 1])
  }

  function Balance(rows: seq<Row>, a: Account): int {
    Read(Of(a), rows)
  }

  function OperatingCash(rows: seq<Row>): int {
    Balance(rows, CASH) + Balance(rows, USDC)
  }

  lemma ReadAppend(g: Gauge, rows: seq<Row>, r: Row)
    ensures Read(g, rows + [r]) == Read(g, rows) + Gain(g, r)
  {
    assert (rows + [r])[..|rows|] == rows;
  }

  /** `Ledger.post`: amounts of zero leave no row; a negative amount raises before this point. */
  function Post(rows: seq<Row>, ts: int, debit: Account, credit: Account, cents: nat, memo: string): seq<Row> {
    if cents == 0 then rows else rows + [Row(ts, debit, credit, cents, memo)]
  }

  lemma ReadPost(g: Gauge, rows: seq<Row>, ts: int, debit: Account, credit: Account, cents: nat, memo: string)
    ensures g != Rent ==>
              Read(g, Post(rows, ts, debit, credit, cents, memo))
              == Read(g, rows) + Gain(g, Row(ts, debit, credit, cents, memo))
    ensures cents > 0 ==>
              Read(g, Post(rows, ts, debit, credit, cents, memo))
              == Read(g, rows) + Gain(g, Row(ts, debit, credit, cents, memo))
    ensures g == Rent && !IsRent(Row(ts, debit, credit, cents, memo)) ==>
              Read(g, Post(rows, ts, debit, credit, cents, memo)) == Read(g, rows)
  {
    ReadAppend(g, rows, Row(ts, debit, credit, cents, memo));
  }

  /** Every row is balanced, so the five prefixes always cancel. */
  lemma {:induction false} PrefixesCancel(rows: seq<Row>)
    ensures Read(Prefix(AssetKind), rows) + Read(Prefix(LiabilityKind), rows) + Read(Prefix(EquityKind), rows)
            + Read(Prefix(IncomeKind), rows) + Read(Prefix(ExpenseKind), rows) == 0
  {
    if rows != [] {
      PrefixesCancel(rows[..|rows| - 1]);
    }
  }

  // ---- The aggregation the cache stores ----------------------------------------------------

  function Accounts(rows: seq<Row>): set<Account> {
    if rows == [] then {}
    else Accounts(rows[..|rows| - 1]) + {rows[|rows| - 1].debit, rows[|rows| - 1].credit}
  }

  /** SELECT account, SUM(signed_amount) ... GROUP BY account. */
  function Totals(rows: seq<Row>): map<Account, int> {
    map a | a in Accounts(rows) :: Balance(rows, a)
  }

  /** An account the aggregation does not list has balance zero, which is what `get(a, 0)` reads. */
  lemma {:induction false} UnlistedIsZero(rows: seq<Row>, a: Account)
    requires a !in Accounts(rows)
    ensures Balance(rows, a) == 0
  {
    if rows != [] {
      UnlistedIsZero(rows[..|rows| - 1], a);
    }
  }

  /** The sum of a prefix over any duplicate-free list of the accounts the aggregation groups by. */
  function PrefixSum(accounts: seq<Account>, k: Kind, totals: map<Account, int>): int {
    if accounts == [] then 0
    else (if accounts[0].kind == k && accounts[0] in totals then totals[accounts[0]] else 0)
         + PrefixSum(accounts[1..], k, totals)
  }

  predicate Lists(accounts: seq<Account>, s: set<Account>) {
    && (forall a :: a in s ==> a in accounts)
    && (forall i, j :: 0 <= i < j < |accounts| ==> accounts[i] != accounts[j])
  }

  function BalanceSum(accounts: seq<Account>, k: Kind, rows: seq<Row>): int {
    if accounts == [] then 0
    else (if accounts[0].kind == k then Balance(rows, accounts[0]) else 0) + BalanceSum(accounts[1..], k, rows)
  }

  lemma {:induction false} PrefixSumIsBalanceSum(accounts: seq<Account>, k: Kind, rows: seq<Row>)
    ensures PrefixSum(accounts, k, Totals(rows)) == BalanceSum(accounts, k, rows)
  {
    if accounts != [] {
      PrefixSumIsBalanceSum(accounts[1..], k, rows);
      if accounts[0] !in Totals(rows) {
        UnlistedIsZero(rows, accounts[0]);
      }
    }
  }

  /** `cents` once for every listed account of the kind that is `a`. */
  function Hits(accounts: seq<Account>, k: Kind, a: Account, cents: nat): int {
    if accounts == [] then 0
    else Side(accounts[0].kind == k && accounts[0] == a, cents) + Hits(accounts[1..], k, a, cents)
  }

  lemma {:induction false} HitsOnce(accounts: seq<Account>, k: Kind, a: Account, cents: nat)
    requires forall i, j :: 0 <= i < j < |accounts| ==> accounts[i] != accounts[j]
    ensures Hits(accounts, k, a, cents) == if a in accounts && a.kind == k then cents else 0
  {
    if accounts != [] {
      HitsOnce(accounts[1..], k, a, cents);
    }
  }

  lemma {:induction false} BalanceSumStep(accounts: seq<Account>, k: Kind, rows: seq<Row>, r: Row)
    ensures BalanceSum(accounts, k, rows + [r])
            == BalanceSum(accounts, k, rows)
               + Hits(accounts, k, r.debit, r.cents) - Hits(accounts, k, r.credit, r.cents)
  {
    if accounts != [] {
      BalanceSumStep(accounts[1..], k, rows, r);
      ReadAppend(Of(accounts[0]), rows, r);
    }
  }

  /**
   Summing the grouped balances of a prefix, as `verify_invariants` and `revenue_by_prefix` do, gives
   the same number as reading the prefix off the rows, whatever order the accounts come in.
   */
  lemma {:induction false} PrefixSumIsRead(accounts: seq<Account>, k: Kind, rows: seq<Row>)
    requires Lists(accounts, Accounts(rows))
    ensures PrefixSum(accounts, k, Totals(rows)) == Read(Prefix(k), rows)
  {
    PrefixSumIsBalanceSum(accounts, k, rows);
    BalanceSumIsRead(accounts, k, rows);
  }

  lemma {:induction false} BalanceSumIsRead(accounts: seq<Account>, k: Kind, rows: seq<Row>)
    requires Lists(accounts, Accounts(rows))
    ensures BalanceSum(accounts, k, rows) == Read(Prefix(k), rows)
  {
    if rows == [] {
      BalanceSumOfNothing(accounts, k);
    } else {
      var rest, last := rows[..|rows| - 1], rows[|rows| - 1];
      BalanceSumIsRead(accounts, k, rest);
      BalanceSumStep(accounts, k, rest, last);
      assert rows == rest + [last];
      HitsOnce(accounts, k, last.debit, last.cents);
      HitsOnce(accounts, k, last.credit, last.cents);
    }
  }

  lemma {:induction false} BalanceSumOfNothing(accounts: seq<Account>, k: Kind)
    ensures BalanceSum(accounts, k, []) == 0
  {
    if accounts != [] {
      BalanceSumOfNothing(accounts[1..], k);
    }
  }
}
