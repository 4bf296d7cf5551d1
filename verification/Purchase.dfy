/**
 The infrastructure purchase: the operator opens a vote over the bus, waits across ticks, and concludes
 or gives up. One run of it is a list of separate commits, and may be cut short between any two.
 */
module Purchase {
  import opened Tables
  import opened Ledger
  import opened Bus
  import opened Lifecycle
  import opened Inbox

  const OPERATOR := "operator"
  const VOTE_REQUEST := "vote_request"
  const PRICE := 600
  const CASH_FLOOR := 10000

  // ---- Opening a vote ----------------------------------------------------------------------

  function Digits(n: nat): string {
    (if n < 10 then "" else Digits(n / 10)) + [['0', '1', '2', '3', '4', '5', '6', '7', '8', '9'][n % 10]]
  }

  function RequestPayload(tick: nat): Payload {
    map["action" := Text("buy_infra"), "action_id" := Text("vps_" + Digits(tick)), "usd" := Cents(PRICE)]
  }

  function RequestLetter(w: World): Letter {
    Letter(OPERATOR, SEATS, VOTE_REQUEST, RequestPayload(w.tick), None, None, None, true, Some(w.now + w.quorumWindow), 3)
  }

  // ---- Counting the votes ------------------------------------------------------------------

  /** Seats with their last vote, in the order the seats first replied. */
  type Ballots = seq<(string, string)>

  /** `str(payload.get("vote") or "no")`. */
  function VoteOf(payload: Payload): string {
    if "vote" !in payload then "no"
    else
      match payload["vote"]
      case Text(s) => if s == "" then "no" else s
      case Flag(b) => if b then "True" else "no"
      case Cents(n) => if n == 0 then "no" else "number"
  }

  function Tally(b: Ballots, seat: string, choice: string): Ballots {
    if b == [] then [(seat, choice)]
    else if b[0].0 == seat then [(seat, choice)] + b[1..]
    else [b[0]] + Tally(b[1..], seat, choice)
  }

  function Gather(replies: seq<Message>): Ballots {
    if replies == [] then []
    else
      var earlier := Gather(replies[..|replies| - 1]);
      var r := replies[|replies| - 1];
      if r.recipient == OPERATOR && r.sender in SEATS then Tally(earlier, r.sender, VoteOf(r.payload)) else earlier
  }

  function Choice(b: Ballots, seat: string): Option<string> {
    if b == [] then None else if b[0].0 == seat then Some(b[0].1) else Choice(b[1..], seat)
  }

  predicate AllVoted(b: Ballots) {
    forall i :: 0 <= i < |SEATS| ==> Choice(b, SEATS[i]).Some?
  }

  /** `Council.quorum` for "buy_infra": yes from treasurer and director. */
  predicate Approved(b: Ballots) {
    Choice(b, "treasurer") == Some("yes") && Choice(b, "director") == Some("yes")
  }

  // ---- One run of the operator -------------------------------------------------------------

  function VoteWrites(b: Ballots, tick: nat): (ws: seq<Write>)
    ensures |ws| == |b|
  {
    seq(|b|, i requires 0 <= i < |b| => InsertVote(VoteRow(tick, b[i].0, b[i].1)))
  }

  predicate MayBuy(w: World, db: Db) {
    !db.bought && (w.sim || (w.token && w.allowLiveBuy)) && 0 < PRICE <= OperatingCash(db.rows)
  }

  function BuyWrites(w: World, db: Db): seq<Write> {
    if MayBuy(w, db) then [PostRow(Row(w.now, INFRA, USDC, PRICE, VPS_MEMO)), SetBought] else []
  }

  function ConcludeWrites(w: World, db: Db, q: Quorum, b: Ballots): seq<Write> {
    (if Approved(b) then VoteWrites(b, q.tick) + BuyWrites(w, db) else []) + [SetQuorum(None)]
  }

  predicate AnyExpired(rows: seq<Message>, correlation: nat) {
    exists i :: 0 <= i < |rows| && rows[i].correlation == correlation && rows[i].status.Expired? && rows[i].replyTo.None?
  }

  function OpenWrites(w: World, db: Db): seq<Write> {
    if !w.token && OperatingCash(db.rows) < CASH_FLOOR then []
    else if db.bought || !w.comms then []
    else if !LetterOk(w.env.roster, w.now, RequestLetter(w)) then []
    else [InsertMessages(Deliveries(RequestLetter(w), Deduped(SEATS), w.now, db.issued, w.env.tie)),
          SetQuorum(Some(Quorum(db.issued, w.tick, w.now)))]
  }

  /** The commits one run of `operator` makes, in order. */
  function OperatorWrites(w: World, db: Db): seq<Write> {
    if db.quorum.None? then OpenWrites(w, db)
    else if !w.comms then [SetQuorum(None)]
    else
      var q := db.quorum.value;
      var b := Gather(Replies(db.messages, q.correlation));
      if AllVoted(b) then ConcludeWrites(w, db, q, b)
      else if AnyExpired(db.messages, q.correlation) || Outstanding(db.messages, q.correlation) == 0
              || w.now > q.requested + w.quorumWindow
      then [SetQuorum(None)]
      else []
  }

  /** How many of the planned commits happen before the run ends, fails or dies. */
  function Reached(ws: seq<Write>, cut: Option<nat>): nat {
    if cut.Some? && cut.value < |ws| then cut.value else |ws|
  }

  function Operate(w: World, db: Db, cut: Option<nat>): Db {
    var ws := OperatorWrites(w, db);
    ApplyAll(ws[..Reached(ws, cut)], db)
  }

  /** The run died right after paying, before it could note the purchase. */
  predicate DiesAfterPaying(w: World, db: Db, cut: Option<nat>) {
    var ws := OperatorWrites(w, db);
    var n := Reached(ws, cut);
    0 < n < |ws| && ws[n - 1].PostRow?
  }

  predicate OpensVote(w: World, db: Db, cut: Option<nat>) {
    db.quorum.None? && OpenWrites(w, db) != [] && Reached(OpenWrites(w, db), cut) > 0
  }

  // ---- What the operator's commits add up to -----------------------------------------------

  function RentIn(ws: seq<Write>): nat {
    if ws == [] then 0 else (if ws[0].PostRow? && IsRent(ws[0].row) then 1 else 0) + RentIn(ws[1..])
  }

  predicate Buys(ws: seq<Write>) {
    exists i :: 0 <= i < |ws| && ws[i].SetBought?
  }

  lemma ApplyRent(w: Write, db: Db)
    ensures Read(Rent, Apply(w, db).rows) == Read(Rent, db.rows) + (if w.PostRow? && IsRent(w.row) then 1 else 0)
    ensures Apply(w, db).bought == (db.bought || w.SetBought?)
  {
    hide Upsert, InsertAll, Rewrite, Delete;
    if w.PostRow? {
      ReadAppend(Rent, db.rows, w.row);
    }
  }

  lemma BuysHead(ws: seq<Write>)
    requires ws != []
    ensures Buys(ws) <==> ws[0].SetBought? || Buys(ws[1..])
  {
    assert forall i :: 0 < i < |ws| ==> ws[i] == ws[1..][i - 1];
    assert forall i :: 0 <= i < |ws[1..]| ==> ws[1..][i] == ws[i + 1];
  }

  lemma {:induction false} ApplyAllRent(ws: seq<Write>, db: Db)
    ensures Read(Rent, ApplyAll(ws, db).rows) == Read(Rent, db.rows) + RentIn(ws)
    ensures ApplyAll(ws, db).bought == (db.bought || Buys(ws))
    decreases |ws|
  {
    hide Apply, Read, Buys, IsRent;
    if ws == [] {
      NothingBuys();
    } else {
      ApplyRent(ws[0], db);
      BuysHead(ws);
      ApplyAllRent(ws[1..], Apply(ws[0], db));
    }
  }

  lemma NothingBuys()
    ensures !Buys([])
  {}

  predicate Quiet(ws: seq<Write>) {
    forall i :: 0 <= i < |ws| ==> !ws[i].PostRow? && !ws[i].SetBought?
  }

  lemma {:induction false} QuietRent(ws: seq<Write>, rest: seq<Write>)
    requires Quiet(ws)
    ensures RentIn(ws + rest) == RentIn(rest)
    decreases |ws|
  {
    if ws == [] {
      assert ws + rest == rest;
    } else {
      assert (ws + rest)[1..] == ws[1..] + rest;
      QuietRent(ws[1..], rest);
    }
  }

  lemma QuietBuys(ws: seq<Write>, rest: seq<Write>)
    requires Quiet(ws)
    ensures Buys(ws + rest) <==> Buys(rest)
  {
    assert forall i :: 0 <= i < |rest| ==> (ws + rest)[|ws| + i] == rest[i];
  }

  /** A plan that will pay is the votes, the payment, its note and the closing; any other leaves the money alone. */
  lemma PlanShape(w: World, db: Db)
    ensures if WillPay(w, db) then
              var b := Gather(Replies(db.messages, db.quorum.value.correlation));
              OperatorWrites(w, db) == VoteWrites(b, db.quorum.value.tick) + (BuyWrites(w, db) + [SetQuorum(None)])
            else Quiet(OperatorWrites(w, db))
  {
    hide Gather, Replies, Deliveries, LetterOk, OperatingCash, AnyExpired, Outstanding, Approved, AllVoted;
    if WillPay(w, db) {
      var votes := VoteWrites(Gather(Replies(db.messages, db.quorum.value.correlation)), db.quorum.value.tick);
      assert votes + BuyWrites(w, db) + [SetQuorum(None)] == votes + (BuyWrites(w, db) + [SetQuorum(None)]);
    }
  }

  lemma VotesAreQuiet(b: Ballots, tick: nat, n: nat)
    requires n <= |b|
    ensures |VoteWrites(b, tick)| == |b| && Quiet(VoteWrites(b, tick)[..n])
  {}

  lemma BuysInOrder(w: World, db: Db)
    requires MayBuy(w, db)
    ensures var rest := BuyWrites(w, db) + [SetQuorum(None)]; |rest| == 3 && rest[0].PostRow? && !rest[1].PostRow? && !rest[2].PostRow?
  {}

  /** Paying and noting the purchase come together unless the run dies exactly between them. */
  lemma OperateCounts(w: World, db: Db, cut: Option<nat>)
    ensures var ws := OperatorWrites(w, db); var done := ws[..Reached(ws, cut)];
            && RentIn(done) == (if Buys(done) then 1 else 0) + (if DiesAfterPaying(w, db, cut) then 1 else 0)
            && (RentIn(done) > 0 ==> WillPay(w, db))
            && (Buys(done) ==> !db.bought)
  {
    hide OperatorWrites, WillPay, BuyWrites, VoteWrites;
    var ws := OperatorWrites(w, db);
    var n := Reached(ws, cut);
    PlanShape(w, db);
    if WillPay(w, db) {
      WillPayMeans(w, db);
      var b := Gather(Replies(db.messages, db.quorum.value.correlation));
      var votes := VoteWrites(b, db.quorum.value.tick);
      var rest := BuyWrites(w, db) + [SetQuorum(None)];
      BuysInOrder(w, db);
      if n <= |votes| {
        VotesAreQuiet(b, db.quorum.value.tick, n);
        assert ws[..n] == votes[..n] + [];
        QuietRent(votes[..n], []);
        assert 0 < n ==> ws[n - 1] == votes[..n][n - 1];
      } else {
        VotesAreQuiet(b, db.quorum.value.tick, |votes|);
        assert votes[..|votes|] == votes;
        assert ws[..n] == votes + rest[..n - |votes|];
        QuietRent(votes, rest[..n - |votes|]);
        QuietBuys(votes, rest[..n - |votes|]);
        RestCounts(w, db, n - |votes|);
        assert ws[n - 1] == rest[n - |votes| - 1];
      }
    } else {
      assert ws[..n] == ws[..n] + [];
      QuietRent(ws[..n], []);
    }
  }

  lemma WillPayMeans(w: World, db: Db)
    requires WillPay(w, db)
    ensures db.quorum.Some? && !db.bought && MayBuy(w, db)
  {}

  lemma RestCounts(w: World, db: Db, n: nat)
    requires MayBuy(w, db) && 0 < n <= 3
    ensures var rest := (BuyWrites(w, db) + [SetQuorum(None)])[..n];
            RentIn(rest) == 1 && (Buys(rest) <==> n > 1)
  {
    var rest := BuyWrites(w, db) + [SetQuorum(None)];
    assert rest[..n][0] == rest[0];
    QuietTail(rest[1..][..n - 1]);
    assert rest[..n][1..] == rest[1..][..n - 1];
    if n > 1 {
      assert rest[..n][1].SetBought?;
    }
  }

  lemma {:induction false} QuietTail(ws: seq<Write>)
    requires forall i :: 0 <= i < |ws| ==> !ws[i].PostRow?
    ensures RentIn(ws) == 0
    decreases |ws|
  {
    if ws != [] {
      QuietTail(ws[1..]);
    }
  }

  // ---- What the operator does to the mail and the open vote --------------------------------

  predicate LeavesMail(ws: seq<Write>) {
    forall i :: 0 <= i < |ws| ==> ws[i].PostRow? || ws[i].SetBought? || ws[i].InsertVote? || ws[i] == SetQuorum(None)
  }

  lemma {:induction false} MailLeft(ws: seq<Write>, db: Db)
    requires LeavesMail(ws)
    ensures ApplyAll(ws, db).messages == db.messages && ApplyAll(ws, db).issued == db.issued
    ensures ApplyAll(ws, db).quorum in {None, db.quorum}
    ensures ws != [] && ws[|ws| - 1] == SetQuorum(None) ==> ApplyAll(ws, db).quorum == None
    decreases |ws|
  {
    hide Upsert, InsertAll, Rewrite, Delete;
    if ws != [] {
      assert |ws| > 1 ==> ws[1..][|ws| - 2] == ws[|ws| - 1];
      MailLeft(ws[1..], Apply(ws[0], db));
    }
  }

  lemma ApplyOne(w: Write, db: Db)
    ensures ApplyAll([w], db) == Apply(w, db)
  {
    assert [w][1..] == [];
  }

  /** Only opening a vote sends mail, and a vote is opened only when none is open. */
  lemma OperateMail(w: World, db: Db, cut: Option<nat>)
    ensures var after := Operate(w, db, cut);
            if OpensVote(w, db, cut) then
              var sent := BusStep(w.env, db, SendOp(w.now, RequestLetter(w)));
              && LetterOk(w.env.roster, w.now, RequestLetter(w))
              && after.messages == sent.messages && after.issued == sent.issued
              && after.rows == db.rows && after.bought == db.bought
              && after.quorum in {None, Some(Quorum(db.issued, w.tick, w.now))}
            else
              after.messages == db.messages && after.issued == db.issued && after.quorum in {None, db.quorum}
  {
    hide Gather, Replies, Deliveries, LetterOk, OperatingCash, AnyExpired, Outstanding, Approved, AllVoted, Deduped;
    var ws := OperatorWrites(w, db);
    var n := Reached(ws, cut);
    if OpensVote(w, db, cut) {
      var next := Apply(ws[0], db);
      assert BusStep(w.env, db, SendOp(w.now, RequestLetter(w))) == next;
      ApplyOne(ws[0], db);
      ApplyOne(ws[1], next);
      ApplyAllConcat([ws[0]], [ws[1]], db);
      assert ws[..n] == if n == 1 then [ws[0]] else [ws[0]] + [ws[1]];
    } else {
      if db.quorum.None? {
        assert ws[..n] == [];
      } else if w.comms && AllVoted(Gather(Replies(db.messages, db.quorum.value.correlation))) {
        ConcludeLeavesMail(w, db, db.quorum.value, Gather(Replies(db.messages, db.quorum.value.correlation)));
      }
      assert LeavesMail(ws[..n]);
      MailLeft(ws[..n], db);
    }
  }

  lemma ConcludeLeavesMail(w: World, db: Db, q: Quorum, b: Ballots)
    ensures LeavesMail(ConcludeWrites(w, db, q, b))
    ensures var ws := ConcludeWrites(w, db, q, b); ws[|ws| - 1] == SetQuorum(None)
  {}

  // ---- Counting -----------------------------------------------------------------------------

  lemma {:induction false} RepliesMembers(rows: seq<Message>, correlation: nat)
    ensures forall x :: x in Replies(rows, correlation) <==> x in rows && x.correlation == correlation && x.replyTo.Some?
  {
    if rows != [] {
      RepliesMembers(rows[1..], correlation);
    }
  }

  lemma {:induction false} ChoiceAfterRecord(b: Ballots, seat: string, choice: string, other: string)
    ensures Choice(Tally(b, seat, choice), other) == if other == seat then Some(choice) else Choice(b, other)
  {
    if b != [] && b[0].0 != seat {
      ChoiceAfterRecord(b[1..], seat, choice, other);
    }
  }

  lemma NoChoice(seat: string)
    ensures Choice([], seat) == None
  {}

  /** A seat's counted vote is the last reply it sent the operator, and it has none only if it sent none. */
  lemma {:induction false} CountedVoteIsLastReply(replies: seq<Message>, seat: string) returns (i: nat)
    requires seat in SEATS
    ensures Choice(Gather(replies), seat).Some? <==> i < |replies|
    ensures i < |replies| ==>
              && replies[i].sender == seat && replies[i].recipient == OPERATOR
              && Choice(Gather(replies), seat) == Some(VoteOf(replies[i].payload))
    ensures forall j :: (if i < |replies| then i + 1 else 0) <= j < |replies| ==>
              !(replies[j].sender == seat && replies[j].recipient == OPERATOR)
  {
    hide Tally, Choice, VoteOf;
    if replies == [] {
      i := 0;
      NoChoice(seat);
    } else {
      var n := |replies| - 1;
      var earlier, r := replies[..n], replies[n];
      i := CountedVoteIsLastReply(earlier, seat);
      if r.recipient == OPERATOR && r.sender in SEATS {
        ChoiceAfterRecord(Gather(earlier), r.sender, VoteOf(r.payload), seat);
      }
      if r.recipient == OPERATOR && r.sender == seat {
        i := n;
      } else if i == n {
        i := n + 1;
      }
    }
  }

  // ---- Closing and paying -------------------------------------------------------------------

  /** A complete operator run past the deadline closes the quorum, whatever the seats did. */
  lemma PastDeadlineCloses(w: World, db: Db)
    requires db.quorum.Some? && w.now > db.quorum.value.requested + w.quorumWindow
    ensures Operate(w, db, None).quorum == None
  {
    hide Gather, Replies, Outstanding, AnyExpired, OperatingCash;
    var ws := OperatorWrites(w, db);
    assert ws[..|ws|] == ws;
    OperateMail(w, db, None);
    if w.comms && AllVoted(Gather(Replies(db.messages, db.quorum.value.correlation))) {
      ConcludeLeavesMail(w, db, db.quorum.value, Gather(Replies(db.messages, db.quorum.value.correlation)));
    }
    MailLeft(ws, db);
  }

  /**
   The gap is real: when a run dies right after paying and the cash is still there, the next run pays again.
   */
  lemma DyingAfterPayingPaysTwice(w: World, db: Db, cut: Option<nat>)
    requires DiesAfterPaying(w, db, cut) && 2 * PRICE <= OperatingCash(db.rows)
    ensures Read(Rent, Operate(w, Operate(w, db, cut), None).rows) == Read(Rent, db.rows) + 2
  {
    hide Replies, Gather, AllVoted, Approved, AnyExpired, Outstanding, OperatingCash, Operate, ConcludeWrites, Read;
    var row := Row(w.now, INFRA, USDC, PRICE, VPS_MEMO);
    var after := Operate(w, db, cut);
    StateAfterDying(w, db, cut);
    SpentOnce(db.rows, row);
    ReadAppend(Rent, db.rows, row);
    PaysNow(w, after);
  }

  /** What dying in the gap leaves: the votes and the payment are in, nothing else has changed. */
  lemma StateAfterDying(w: World, db: Db, cut: Option<nat>)
    requires DiesAfterPaying(w, db, cut)
    ensures var after := Operate(w, db, cut);
            && after == db.(votes := after.votes, rows := db.rows + [Row(w.now, INFRA, USDC, PRICE, VPS_MEMO)])
            && WillPay(w, db)
  {
    hide Replies, Gather, AllVoted, Approved, OperatingCash, OperatorWrites, MayBuy;
    var ws := OperatorWrites(w, db);
    PlanBuys(w, db, Reached(ws, cut));
    var b := Gather(Replies(db.messages, db.quorum.value.correlation));
    var votes := VoteWrites(b, db.quorum.value.tick);
    var pay := PostRow(Row(w.now, INFRA, USDC, PRICE, VPS_MEMO));
    VotesOnly(b, db.quorum.value.tick, db);
    ApplyAllConcat(votes, [pay], db);
    ApplyOne(pay, ApplyAll(votes, db));
  }

  predicate WillPay(w: World, db: Db) {
    && db.quorum.Some? && w.comms && MayBuy(w, db)
    && var b := Gather(Replies(db.messages, db.quorum.value.correlation)); AllVoted(b) && Approved(b)
  }

  lemma PaysNow(w: World, db: Db)
    requires WillPay(w, db)
    ensures Read(Rent, Operate(w, db, None).rows) == Read(Rent, db.rows) + 1
  {
    hide Replies, Gather, AllVoted, Approved, OperatingCash, Read, Apply;
    var q := db.quorum.value;
    var b := Gather(Replies(db.messages, q.correlation));
    var ws := OperatorWrites(w, db);
    assert ws[..|ws|] == ws;
    var votes := VoteWrites(b, q.tick);
    var rest := BuyWrites(w, db) + [SetQuorum(None)];
    assert ws == votes + rest;
    QuietRent(votes, rest);
    RestCounts(w, db, 3);
    assert rest[..3] == rest;
    ApplyAllRent(ws, db);
  }

  /** A plan cut right after its payment is the votes and that payment. */
  lemma PlanBuys(w: World, db: Db, n: nat)
    requires var ws := OperatorWrites(w, db); 0 < n < |ws| && ws[n - 1].PostRow?
    ensures db.quorum.Some? && w.comms && MayBuy(w, db)
    ensures var q := db.quorum.value; var b := Gather(Replies(db.messages, q.correlation));
            && AllVoted(b) && Approved(b)
            && OperatorWrites(w, db)[..n] == VoteWrites(b, q.tick) + [PostRow(Row(w.now, INFRA, USDC, PRICE, VPS_MEMO))]
  {
    hide Replies, Gather, AllVoted, Approved, AnyExpired, Outstanding, OperatingCash, Deliveries, LetterOk;
    var q := db.quorum.value;
    var b := Gather(Replies(db.messages, q.correlation));
    var votes := VoteWrites(b, q.tick);
    assert n - 1 == |votes|;
  }

  lemma VotesOnly(b: Ballots, tick: nat, db: Db)
    ensures var after := ApplyAll(VoteWrites(b, tick), db); after == db.(votes := after.votes)
  {
    VotesOnlyWrites(VoteWrites(b, tick), db);
  }

  lemma {:induction false} VotesOnlyWrites(ws: seq<Write>, db: Db)
    requires forall i :: 0 <= i < |ws| ==> ws[i].InsertVote?
    ensures var after := ApplyAll(ws, db); after == db.(votes := after.votes)
    decreases |ws|
  {
    if ws != [] {
      VotesOnlyWrites(ws[1..], Apply(ws[0], db));
    }
  }

  lemma SpentOnce(rows: seq<Row>, row: Row)
    requires row.debit == INFRA && row.credit == USDC && row.cents == PRICE
    ensures OperatingCash(rows + [row]) == OperatingCash(rows) - PRICE
  {
    ReadAppend(Of(CASH), rows, row);
    ReadAppend(Of(USDC), rows, row);
  }
}
