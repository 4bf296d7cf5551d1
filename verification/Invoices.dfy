/**
 The invoice table: lookups, totals over it, and how one upsert moves them.
 */
module Invoices {
  import opened Tables
  import opened Money

  const INVOICE_PREFIX := "inv_"
  const MEMO_PREFIX := "SOV-"

  /** The invoice id of a job. The repository hashes the job id; what matters is that the map is injective. */
  function InvId(jobId: string): string {
    INVOICE_PREFIX + jobId
  }

  lemma InvIdInjective(a: string, b: string)
    requires InvId(a) == InvId(b)
    ensures a == b
  {
    assert a == InvId(a)[|INVOICE_PREFIX|..];
    assert b == InvId(b)[|INVOICE_PREFIX|..];
  }

  function Upper(s: string): string {
    seq(|s|, i requires 0 <= i < |s| =>
      if 'a' <= s[i] <= 'z' then ((s[i] as int) - 32) as char else s[i])
  }

  /** The payment memo: SOV- and the last eight characters of the job id in capitals. */
  function MemoFor(jobId: string): string {
    MEMO_PREFIX + Upper(if |jobId| <= 8 then jobId else jobId[|jobId| - 8..])
  }

  predicate OccursAt(text: string, part: string, i: nat) {
    i + |part| <= |text| && text[i..i + |part|] == part
  }

  predicate Contains(text: string, part: string) {
    exists i :: 0 <= i <= |text| && OccursAt(text, part, i)
  }

  /** SELECT ... WHERE id = ?. */
  function Find(invoices: seq<Invoice>, id: string): Option<Invoice> {
    if invoices == [] then None
    else if invoices[0].id == id then Some(invoices[0])
    else Find(invoices[1..], id)
  }

  /** SELECT ... WHERE job_id = ? ORDER BY ts DESC LIMIT 1: the latest row of the job. */
  function FindByJob(invoices: seq<Invoice>, jobId: string): Option<Invoice> {
    if invoices == [] then None
    else
      var last := invoices[|invoices| - 1];
      if last.jobId == jobId then Some(last) else FindByJob(invoices[..|invoices| - 1], jobId)
  }

  function Lookup(invoices: seq<Invoice>, reference: string): Option<Invoice> {
    var byId := Find(invoices, reference);
    if byId.Some? then byId else FindByJob(invoices, reference)
  }

  function Minor(inv: Invoice): int {
    inv.cents * MINOR_PER_CENT
  }

  /** The open invoices of exactly this chain amount, in table order. */
  function Candidates(invoices: seq<Invoice>, minor: int): seq<Invoice> {
    if invoices == [] then []
    else
      (if invoices[0].status.Open? && Minor(invoices[0]) == minor then [invoices[0]] else [])
      + Candidates(invoices[1..], minor)
  }

  function OpenCents(invoices: seq<Invoice>): set<int> {
    set i | 0 <= i < |invoices| && invoices[i].status.Open? :: invoices[i].cents
  }

  // ---- Table invariants --------------------------------------------------------------------

  /** Ids are unique, each is the id of its job, and no amount is negative. */
  predicate Keyed(invoices: seq<Invoice>) {
    && (forall i, j :: 0 <= i < j < |invoices| ==> invoices[i].id != invoices[j].id)
    && (forall i :: 0 <= i < |invoices| ==> invoices[i].id == InvId(invoices[i].jobId) && 0 <= invoices[i].cents)
  }

  /** No two open invoices ask for the same amount, so an exact amount names at most one invoice. */
  predicate DistinctOpen(invoices: seq<Invoice>) {
    forall i, j :: 0 <= i < j < |invoices| && invoices[i].status.Open? && invoices[j].status.Open?
                   ==> invoices[i].cents != invoices[j].cents
  }

  // ---- Totals ------------------------------------------------------------------------------

  datatype Measure =
    | OpenTotal                 // cents asked for by open invoices
    | PaidTotal                 // cents of paid invoices
    | OpenOf(minor: int)        // number of open invoices of a chain amount

  function Weigh(m: Measure, inv: Invoice): int {
    match m
    case OpenTotal => if inv.status.Open? then inv.cents else 0
    case PaidTotal => if inv.status.Paid? then inv.cents else 0
    case OpenOf(minor) => if inv.status.Open? && Minor(inv) == minor then 1 else 0
  }

  function Total(m: Measure, invoices: seq<Invoice>): int {
    if invoices == [] then 0 else Weigh(m, invoices[0]) + Total(m, invoices[1..])
  }

  function WeighFound(m: Measure, found: Option<Invoice>): int {
    if found.Some? then Weigh(m, found.value) else 0
  }

  /** An upsert replaces the old row's weight by the new one's. */
  lemma {:induction false} UpsertTotal(m: Measure, invoices: seq<Invoice>, inv: Invoice)
    ensures Total(m, Upsert(invoices, inv))
            == Total(m, invoices) + Weigh(m, inv) - WeighFound(m, Find(invoices, inv.id))
  {
    if invoices != [] && invoices[0].id != inv.id {
      UpsertTotal(m, invoices[1..], inv);
    }
  }

  lemma {:induction false} CandidatesCount(invoices: seq<Invoice>, minor: int)
    ensures |Candidates(invoices, minor)| == Total(OpenOf(minor), invoices)
  {
    if invoices != [] {
      CandidatesCount(invoices[1..], minor);
    }
  }

  lemma {:induction false} CandidateAt(invoices: seq<Invoice>, minor: int, k: nat) returns (i: nat)
    requires k < |Candidates(invoices, minor)|
    ensures i < |invoices| && invoices[i] == Candidates(invoices, minor)[k]
    ensures invoices[i].status.Open? && Minor(invoices[i]) == minor
  {
    var head := if invoices[0].status.Open? && Minor(invoices[0]) == minor then 1 else 0;
    if k < head {
      i := 0;
    } else {
      var i' := CandidateAt(invoices[1..], minor, k - head);
      i := i' + 1;
    }
  }

  /** With distinct open amounts a chain amount is never ambiguous. */
  lemma {:induction false} NeverAmbiguous(invoices: seq<Invoice>, minor: int)
    requires DistinctOpen(invoices)
    ensures |Candidates(invoices, minor)| <= 1
  {
    if invoices != [] {
      NeverAmbiguous(invoices[1..], minor);
      if Candidates(invoices[1..], minor) != [] {
        var i := CandidateAt(invoices[1..], minor, 0);
        assert invoices[1..][i] == invoices[i + 1];
      }
    }
  }

  // ---- Where an upsert lands ---------------------------------------------------------------

  lemma {:induction false} FindAt(invoices: seq<Invoice>, i: nat)
    requires Keyed(invoices) && i < |invoices|
    ensures Find(invoices, invoices[i].id) == Some(invoices[i])
  {
    if i > 0 {
      FindAt(invoices[1..], i - 1);
      assert invoices[0].id != invoices[i].id;
    }
  }

  /** Find and Upsert agree on the row they touch. */
  lemma {:induction false} UpsertAt(invoices: seq<Invoice>, inv: Invoice) returns (i: nat)
    ensures i <= |invoices|
    ensures Find(invoices, inv.id) == if i < |invoices| then Some(invoices[i]) else None
    ensures i < |invoices| ==> invoices[i].id == inv.id && Upsert(invoices, inv) == invoices[i := inv]
    ensures i == |invoices| ==> Upsert(invoices, inv) == invoices + [inv]
                                && forall j :: 0 <= j < |invoices| ==> invoices[j].id != inv.id
  {
    if invoices == [] || invoices[0].id == inv.id {
      i := 0;
    } else {
      var i' := UpsertAt(invoices[1..], inv);
      i := i' + 1;
      if i < |invoices| {
        assert invoices[i := inv] == [invoices[0]] + invoices[1..][i' := inv];
      }
    }
  }

  lemma {:induction false} FindByJobAt(invoices: seq<Invoice>, jobId: string) returns (i: nat)
    ensures i <= |invoices|
    ensures FindByJob(invoices, jobId) == if i < |invoices| then Some(invoices[i]) else None
    ensures i < |invoices| ==> invoices[i].jobId == jobId
    ensures i == |invoices| ==> forall j :: 0 <= j < |invoices| ==> invoices[j].jobId != jobId
  {
    if invoices == [] {
      i := 0;
    } else if invoices[|invoices| - 1].jobId == jobId {
      i := |invoices| - 1;
    } else {
      var rest := invoices[..|invoices| - 1];
      var i' := FindByJobAt(rest, jobId);
      i := if i' < |rest| then i' else |invoices|;
    }
  }

  lemma LookupAt(invoices: seq<Invoice>, reference: string) returns (i: nat)
    requires Keyed(invoices)
    ensures i <= |invoices|
    ensures Lookup(invoices, reference) == if i < |invoices| then Some(invoices[i]) else None
    ensures i < |invoices| ==> Find(invoices, invoices[i].id) == Some(invoices[i])
  {
    var found := Find(invoices, reference);
    if found.Some? {
      var k := UpsertAt(invoices, found.value.(id := reference));
      i := k;
    } else {
      i := FindByJobAt(invoices, reference);
    }
    if i < |invoices| {
      FindAt(invoices, i);
    }
  }

  /** An upsert under the invoice's own job id keeps the table keyed. */
  lemma UpsertKeyed(invoices: seq<Invoice>, inv: Invoice)
    requires Keyed(invoices)
    requires inv.id == InvId(inv.jobId) && 0 <= inv.cents
    ensures Keyed(Upsert(invoices, inv))
    ensures Find(Upsert(invoices, inv), inv.id) == Some(inv)
    ensures forall id :: id != inv.id ==> Find(Upsert(invoices, inv), id) == Find(invoices, id)
  {
    var i := UpsertAt(invoices, inv);
    forall id | id != inv.id ensures Find(Upsert(invoices, inv), id) == Find(invoices, id) {
      FindAfterUpsert(invoices, inv, id);
    }
    FindAt(Upsert(invoices, inv), i);
  }

  lemma {:induction false} FindAfterUpsert(invoices: seq<Invoice>, inv: Invoice, id: string)
    requires id != inv.id
    ensures Find(Upsert(invoices, inv), id) == Find(invoices, id)
  {
    if invoices != [] && invoices[0].id != inv.id {
      FindAfterUpsert(invoices[1..], inv, id);
    }
  }

  /** Closing an invoice, or opening one at a free amount, keeps open amounts distinct. */
  lemma UpsertDistinct(invoices: seq<Invoice>, inv: Invoice)
    requires Keyed(invoices) && DistinctOpen(invoices)
    requires inv.status.Open? ==> inv.cents !in OpenCents(invoices)
    ensures DistinctOpen(Upsert(invoices, inv))
  {
    var i := UpsertAt(invoices, inv);
    var after := Upsert(invoices, inv);
    forall a, b | 0 <= a < b < |after| && after[a].status.Open? && after[b].status.Open?
      ensures after[a].cents != after[b].cents
    {
      if a == i {
        assert after[b] == invoices[b] && invoices[b].cents in OpenCents(invoices);
      } else if b == i {
        assert after[a] == invoices[a] && invoices[a].cents in OpenCents(invoices);
      }
    }
  }

  // ---- The search for a free amount --------------------------------------------------------

  /** `_unique_open_amount`: the least amount at or above the quote that no open invoice uses. */
  function LeastFree(used: set<int>, quoted: int): (r: int)
    ensures quoted <= r && r !in used
    ensures forall x :: quoted <= x < r ==> x in used
    decreases |AtLeast(used, quoted)|
  {
    if quoted !in used then quoted
    else
      AtLeastShrinks(used, quoted);
      LeastFree(used, quoted + 1)
  }

  ghost function AtLeast(used: set<int>, floor: int): set<int> {
    set u | u in used && floor <= u
  }

  lemma AtLeastShrinks(used: set<int>, floor: int)
    requires floor in used
    ensures |AtLeast(used, floor + 1)| < |AtLeast(used, floor)|
  {
    assert AtLeast(used, floor) == AtLeast(used, floor + 1) + {floor};
  }
}
