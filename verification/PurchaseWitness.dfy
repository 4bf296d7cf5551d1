/**
 A run in which a purchase happens: a customer has paid, the operator asks, the three seats answer, and the
 operator concludes. So the safety results are about something, and the gap between paying and noting is reachable.
 */
module PurchaseWitness {
  import opened Tables
  import opened Ledger
  import opened Bus
  import opened Lifecycle
  import opened Inbox
  import opened Purchase
  import opened QuorumRuns

  const ENV := Env(ROSTER, (id: nat) => id)
  const WORLD := World(ENV, 1, 0, {}, 0, true, true, false, 10, true)
  const INCOME := Row(0, USDC, LABOR, 10000, "receive job")

  /** The run up to the third answer. */
  const ASKED: seq<Deed> :=
    [PostDeed(INCOME), OperateDeed(WORLD, None),
     PumpDeed(WORLD, "treasurer"), PumpDeed(WORLD, "risk"), PumpDeed(WORLD, "director")]

  /** The request to seat `i`. */
  function Request(i: nat): Message
    requires i < 3
  {
    Message(i, i, 1, 0, 0, OPERATOR, SEATS[i], VOTE_REQUEST, RequestPayload(0), Queued, true, None, Some(11), 0, 3, None)
  }

  function Expected(id: nat, answered: nat): Option<Message>
    requires answered <= 3
  {
    if id < answered then Some(Request(id).(status := Done))
    else if id < 3 then Some(Request(id))
    else if id < 3 + answered && Answered(WORLD, [INCOME], SEATS[id - 3], Request(id - 3))
    then Some(ReplyRow(WORLD, [INCOME], SEATS[id - 3], Request(id - 3), id))
    else None
  }

  /** After `answered` seats have answered. */
  ghost predicate Stage(db: Db, answered: nat)
    requires answered <= 3
  {
    && MailSound(db) && db.issued == 3 + answered && db.rows == [INCOME] && !db.bought
    && db.quorum == Some(Quorum(0, 0, 1))
    && forall id: nat :: Get(db.messages, id) == Expected(id, answered)
  }

  lemma Funds()
    ensures OperatingCash([INCOME]) == 10000 && Read(Rent, [INCOME]) == 0
    ensures Read(Earned(Some(WORLD.now - TRAILING_SECONDS)), [INCOME]) == 10000
  {
    assert [INCOME] == [] + [INCOME];
    assert |"cash_usd"| != |"usdc"|;
    ReadAppend(Of(CASH), [], INCOME);
    ReadAppend(Of(USDC), [], INCOME);
    ReadAppend(Rent, [], INCOME);
    ReadAppend(Earned(Some(WORLD.now - TRAILING_SECONDS)), [], INCOME);
    assert !EndsWith("labor", "_paper");
    NotUnearned();
  }

  lemma NotUnearned()
    ensures !Mentions("labor", "unearned")
  {
    var s := "labor";
    assert !Mentions(s[..0], "unearned");
    assert s[..1][..0] == s[..0] && s[..2][..1] == s[..1] && s[..3][..2] == s[..2] && s[..4][..3] == s[..3];
    assert s[..4] == s[..|s| - 1];
    assert !Mentions(s[..1], "unearned") && !Mentions(s[..2], "unearned") && !Mentions(s[..3], "unearned");
    assert !Mentions(s[..4], "unearned");
  }

  /** Every seat can answer its request, and says yes. */
  lemma AllSayYes(i: nat)
    requires i < 3
    ensures Answered(WORLD, [INCOME], SEATS[i], Request(i))
    ensures Answer(WORLD, [INCOME], Request(i)).value.Some?
            && VoteOf(Answer(WORLD, [INCOME], Request(i)).value.value) == "yes"
  {
    hide OperatingCash, Read;
    Funds();
    assert "vps_" + Digits(0) != "";
  }

  // ---- The run -----------------------------------------------------------------------------

  lemma {:induction false} QueueNone(rows: seq<Message>, agent: string)
    requires forall i :: 0 <= i < |rows| ==> !(rows[i].recipient == agent && rows[i].status.Queued?)
    ensures Queue(rows, agent) == []
  {
    if rows != [] {
      QueueNone(rows[1..], agent);
    }
  }

  lemma {:induction false} QueueOnly(rows: seq<Message>, agent: string, k: nat)
    requires k < |rows|
    requires forall i :: 0 <= i < |rows| ==> (rows[i].recipient == agent && rows[i].status.Queued? <==> i == k)
    ensures Queue(rows, agent) == [rows[k]]
  {
    if k == 0 {
      QueueNone(rows[1..], agent);
    } else {
      QueueOnly(rows[1..], agent, k - 1);
    }
  }

  lemma RowIsFound(db: Db, x: Message)
    requires MailSound(db) && x in db.messages
    ensures Get(db.messages, x.id) == Some(x)
  {
    var i :| 0 <= i < |db.messages| && db.messages[i] == x;
    GetAt(db.messages, i);
  }

  lemma FoundIsRow(db: Db, id: nat)
    requires Get(db.messages, id).Some?
    ensures Get(db.messages, id).value in db.messages
  {
    var i := GetIndex(db.messages, id);
  }

  /** The next seat's inbox holds its request and nothing else. */
  lemma NextInbox(db: Db, k: nat)
    requires k < 3 && Stage(db, k)
    ensures Bus.Inbox(db.messages, SEATS[k], WORLD.now, MAX_MESSAGES) == [Request(k)]
  {
    hide MailSound, Get, Answered, ReplyRow, Queue;
    SoundTable(db);
    assert Get(db.messages, k) == Some(Request(k));
    var at := GetIndex(db.messages, k);
    forall i | 0 <= i < |db.messages|
      ensures db.messages[i].recipient == SEATS[k] && db.messages[i].status.Queued? <==> i == at
    {
      RowIsFound(db, db.messages[i]);
      Addressees(db.messages[i].id, k);
    }
    QueueOnly(db.messages, SEATS[k], at);
    assert Visible([Request(k)], WORLD.now) == [Request(k)] by {
      assert [Request(k)][1..] == [];
    }
  }

  lemma Addressees(id: nat, k: nat)
    requires k < 3
    ensures var m := Expected(id, k);
            m.Some? && m.value.recipient == SEATS[k] && m.value.status.Queued? ==> id == k
  {
    assert |"treasurer"| == 9 && |"risk"| == 4 && |"director"| == 8;
    assert OPERATOR[0] != SEATS[0][0] && OPERATOR[0] != SEATS[1][0] && OPERATOR[0] != SEATS[2][0];
  }

  lemma NextStage(db: Db, k: nat)
    requires k < 3 && Stage(db, k)
    ensures Stage(PumpResult(WORLD, db, SEATS[k]), k + 1)
  {
    hide MailSound, Get, Bus.Inbox, Answer, Policy, OperatingCash, Read;
    NextInbox(db, k);
    AllSayYes(k);
    var snapshot := [Request(k)];
    InboxIsTaken(db, SEATS[k], WORLD.now, MAX_MESSAGES);
    PumpEffect(WORLD, db, SEATS[k], snapshot);
    PumpIsPump(db, k);
    var after := PumpResult(WORLD, db, SEATS[k]);
    assert AnsweredCount(WORLD, [INCOME], SEATS[k], snapshot) == 1 by {
      assert snapshot[1..] == [];
    }
    forall id: nat ensures Get(after.messages, id) == Expected(id, k + 1) {
      IdIssued(after, id);
      assert InSnapshot(snapshot, id) <==> snapshot[0].id == id;
      if id < 3 + k && id != k {
        assert Get(after.messages, id) == Get(db.messages, id);
      }
    }
  }

  lemma PumpIsPump(db: Db, k: nat)
    requires k < 3 && Stage(db, k)
    ensures PumpResult(WORLD, db, SEATS[k]) == Pump(WORLD, db, SEATS[k], Bus.Inbox(db.messages, SEATS[k], WORLD.now, MAX_MESSAGES))
  {
    hide Pump, Bus.Inbox;
    assert SEATS[k] in ROSTER;
  }

  lemma Opened()
    ensures Stage(At(EMPTY_DESK, ASKED, 2).db, 0) && At(EMPTY_DESK, ASKED, 2).lost == 0
  {
    hide MailSound, Get, OperatingCash, Insert, Read, Deliveries, BusStep, Operate, Request, DiesAfterPaying;
    EmptyIsSound();
    Funds();
    var paid := Apply(PostRow(INCOME), EMPTY_DB);
    assert At(EMPTY_DESK, ASKED, 0) == EMPTY_DESK;
    assert At(EMPTY_DESK, ASKED, 1).db == paid && paid.rows == [INCOME];
    SoundWithRows(paid);
    RequestIsFine();
    SeatsOnce();
    SendSound(ENV, paid, WORLD.now, RequestLetter(WORLD));
    var ms := Deliveries(RequestLetter(WORLD), SEATS, WORLD.now, 0, ENV.tie);
    OpensAtOnce(paid);
    var sent := BusStep(ENV, paid, SendOp(WORLD.now, RequestLetter(WORLD)));
    var after := At(EMPTY_DESK, ASKED, 2).db;
    assert after == sent.(quorum := Some(Quorum(0, 0, 1)));
    SoundWithQuorum(sent, after);
    forall id: nat ensures Get(after.messages, id) == Expected(id, 0) {
      IdIssued(after, id);
      if id < 3 {
        Delivered(id);
      }
    }
  }

  lemma Delivered(id: nat)
    requires id < 3
    ensures Deliveries(RequestLetter(WORLD), SEATS, WORLD.now, 0, ENV.tie)[id] == Request(id)
  {
    assert Or(None, 0) == 0;
  }

  lemma SoundWithRows(db: Db)
    requires db == EMPTY_DB.(rows := db.rows)
    ensures MailSound(db)
  {}

  lemma SoundWithQuorum(a: Db, b: Db)
    requires MailSound(a) && b == a.(quorum := b.quorum)
    ensures MailSound(b)
  {}

  lemma SeatsOnce()
    ensures Deduped(SEATS) == SEATS
  {
    assert SEATS[..2] == ["treasurer", "risk"] && SEATS[..2][..1] == ["treasurer"] && SEATS[..2][..1][..0] == [];
    assert |"treasurer"| == 9 && |"risk"| == 4 && |"director"| == 8;
    assert Deduped(SEATS[..2][..1]) == ["treasurer"];
    assert Deduped(SEATS[..2]) == ["treasurer", "risk"];
  }

  lemma RequestIsFine()
    ensures LetterOk(ROSTER, WORLD.now, RequestLetter(WORLD))
  {
    assert KindCore(VOTE_REQUEST);
  }

  lemma OpensAtOnce(db: Db)
    requires db.quorum.None? && !db.bought && db.issued == 0
    ensures Operate(WORLD, db, None) == BusStep(ENV, db, SendOp(WORLD.now, RequestLetter(WORLD))).(quorum := Some(Quorum(0, 0, 1)))
    ensures !DiesAfterPaying(WORLD, db, None)
  {
    hide LetterOk, Deduped, Deliveries, InsertAll, OperatingCash;
    RequestIsFine();
    var ws := OperatorWrites(WORLD, db);
    assert ws[..|ws|] == ws && ws == [ws[0]] + [ws[1]];
    ApplyAllConcat([ws[0]], [ws[1]], db);
    ApplyOne(ws[0], db);
    ApplyOne(ws[1], Apply(ws[0], db));
  }

  lemma ThreeAnswers()
    ensures Stage(At(EMPTY_DESK, ASKED, 5).db, 3) && At(EMPTY_DESK, ASKED, 5).lost == 0
  {
    hide Stage, PumpResult;
    Opened();
    NextStage(At(EMPTY_DESK, ASKED, 2).db, 0);
    NextStage(At(EMPTY_DESK, ASKED, 3).db, 1);
    NextStage(At(EMPTY_DESK, ASKED, 4).db, 2);
  }

  /** With the three answers in, each seat's counted vote is yes. */
  lemma CountsYes(db: Db, k: nat)
    requires k < 3 && Stage(db, 3)
    ensures Choice(Gather(Replies(db.messages, 0)), SEATS[k]) == Some("yes")
  {
    hide MailSound, Get, Gather, Choice, Replies, Answered, Answer, VoteOf;
    var replies := Replies(db.messages, 0);
    RepliesMembers(db.messages, 0);
    AllSayYes(k);
    var i := CountedVoteIsLastReply(replies, SEATS[k]);
    var row := ReplyRow(WORLD, [INCOME], SEATS[k], Request(k), 3 + k);
    assert Get(db.messages, 3 + k) == Some(row);
    FoundIsRow(db, 3 + k);
    assert row in replies;
    var j :| 0 <= j < |replies| && replies[j] == row;
    assert i < |replies|;
    var r := replies[i];
    assert r in replies;
    RowIsFound(db, r);
    Senders(r.id, k);
  }

  lemma Senders(id: nat, k: nat)
    requires k < 3
    ensures var m := Expected(id, 3); m.Some? && m.value.sender == SEATS[k] ==> id == 3 + k
  {
    hide Answered;
    assert |"treasurer"| == 9 && |"risk"| == 4 && |"director"| == 8;
    assert OPERATOR[0] != SEATS[0][0] && OPERATOR[0] != SEATS[1][0] && OPERATOR[0] != SEATS[2][0];
  }

  /**
   The safety results are about something: from an empty store a purchase is reached, a complete operator run pays
   once, and one that dies in the gap leaves cash for, and is followed by, a second payment.
   */
  lemma PurchaseIsReachable()
    ensures AdmissibleDeeds(ASKED)
    ensures var s := At(EMPTY_DESK, ASKED, 5);
            var gap := Some(|Gather(Replies(s.db.messages, 0))| + 1);
            && s.lost == 0 && Read(Rent, s.db.rows) == 0
            && Read(Rent, Operate(WORLD, s.db, None).rows) == 1
            && DiesAfterPaying(WORLD, s.db, gap)
            && Read(Rent, Operate(WORLD, Operate(WORLD, s.db, gap), None).rows) == 2
  {
    hide Gather, Replies, Operate, OperatorWrites, Read, OperatingCash, Stage, Choice;
    ThreeAnswers();
    Funds();
    var db := At(EMPTY_DESK, ASKED, 5).db;
    StageFacts(db);
    CountsYes(db, 0);
    CountsYes(db, 1);
    CountsYes(db, 2);
    PaysNow(WORLD, db);
    GapIsThere(WORLD, db);
    DyingAfterPayingPaysTwice(WORLD, db, Some(|Gather(Replies(db.messages, 0))| + 1));
  }

  lemma StageFacts(db: Db)
    requires Stage(db, 3)
    ensures db.rows == [INCOME] && !db.bought && db.quorum == Some(Quorum(0, 0, 1))
  {}

  lemma GapIsThere(w: World, db: Db)
    requires WillPay(w, db)
    ensures DiesAfterPaying(w, db, Some(|Gather(Replies(db.messages, db.quorum.value.correlation))| + 1))
  {
    hide Gather, Replies, OperatingCash, AllVoted, Approved;
    var b := Gather(Replies(db.messages, db.quorum.value.correlation));
    var votes := VoteWrites(b, db.quorum.value.tick);
    assert OperatorWrites(w, db) == votes + (BuyWrites(w, db) + [SetQuorum(None)]);
  }
}
