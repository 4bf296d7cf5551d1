/**
 Whole runs of the purchase protocol: the operator, the seats' inbox pumps, other mail and other ledger
 rows in any order, where any operator run may die between two of its commits.
 */
module QuorumRuns {
  import opened Tables
  import opened Ledger
  import opened Bus
  import opened Lifecycle
  import opened Inbox
  import opened Purchase

  // ---- Runs --------------------------------------------------------------------------------

  datatype Deed =
    | BusDeed(env: Env, op: BusOp)
    | PumpDeed(w: World, agent: string)
    | PostDeed(row: Row)
    | OperateDeed(w: World, cut: Option<nat>)

  /** The store, the correlations of every vote asked so far, and the payments that were never noted. */
  datatype Desk = Desk(db: Db, asked: set<nat>, lost: nat)

  /** Nobody but a handler sends replies or joins an existing exchange, and nobody else pays the rent. */
  predicate AdmissibleDeed(d: Deed) {
    match d
    case BusDeed(_, op) => op.SendOp? ==> op.letter.replyTo.None? && op.letter.correlation.None?
    case PostDeed(row) => !IsRent(row)
    case _ => true
  }

  function PumpResult(w: World, db: Db, agent: string): Db {
    var r := ProcessInbox(w, db, agent, MAX_MESSAGES);
    if r.Ok? then r.value else db
  }

  function Step(s: Desk, d: Deed): Desk {
    match d
    case BusDeed(env, op) => s.(db := BusStep(env, s.db, op))
    case PumpDeed(w, agent) => s.(db := PumpResult(w, s.db, agent))
    case PostDeed(row) => s.(db := Apply(PostRow(row), s.db))
    case OperateDeed(w, cut) =>
      Desk(Operate(w, s.db, cut),
           if OpensVote(w, s.db, cut) then s.asked + {s.db.issued} else s.asked,
           if DiesAfterPaying(w, s.db, cut) then s.lost + 1 else s.lost)
  }

  /** The state before deed `k`. */
  function At(s: Desk, ds: seq<Deed>, k: nat): Desk
    requires k <= |ds|
  {
    if k == 0 then s else Step(At(s, ds, k - 1), ds[k - 1])
  }

  ghost predicate AdmissibleDeeds(ds: seq<Deed>) {
    forall i :: 0 <= i < |ds| ==> AdmissibleDeed(ds[i])
  }

  const EMPTY_DESK := Desk(EMPTY_DB, {}, 0)

  // ---- The invariant -----------------------------------------------------------------------

  predicate IsRequest(m: Message) {
    && m.sender == OPERATOR && m.kind == VOTE_REQUEST
    && NonEmptyText(m.payload, "action") && NonEmptyText(m.payload, "action_id")
    && "usd" in m.payload && m.payload["usd"] == Cents(PRICE)
  }

  predicate RowKnown(m: Message, asked: set<nat>, issued: nat) {
    && m.correlation < issued
    && (m.correlation in asked && m.replyTo.None? ==> IsRequest(m))
  }

  /** Correlations are fresh: nothing but its own requests and their replies carries that of a vote. */
  ghost predicate MailKnown(db: Db, asked: set<nat>) {
    && (forall id: nat :: Get(db.messages, id).Some? ==> RowKnown(Get(db.messages, id).value, asked, db.issued))
    && (forall c :: c in asked ==> c < db.issued)
    && (db.quorum.Some? ==> db.quorum.value.correlation in asked)
  }

  predicate RentKnown(s: Desk) {
    Read(Rent, s.db.rows) == (if s.db.bought then 1 else 0) + s.lost
  }

  ghost predicate DeskSound(s: Desk) {
    MailSound(s.db) && OneReply(s.db) && MailKnown(s.db, s.asked) && RentKnown(s)
  }

  // ---- The invariant is kept ---------------------------------------------------------------

  /** A letter without a correlation gets a fresh one, which is a vote's only when the letter is its request. */
  lemma SendKnown(env: Env, db: Db, now: int, l: Letter, asked: set<nat>, asked': set<nat>)
    requires MailSound(db) && MailKnown(db, asked)
    requires LetterOk(env.roster, now, l) && l.correlation.None?
    requires asked' == asked || (asked' == asked + {db.issued} && l.sender == OPERATOR && l.kind == VOTE_REQUEST
                                 && exists tick :: l.payload == RequestPayload(tick))
    ensures var after := BusStep(env, db, SendOp(now, l));
            && db.issued < after.issued
            && forall id: nat :: Get(after.messages, id).Some? ==> RowKnown(Get(after.messages, id).value, asked', after.issued)
  {
    hide Get, LetterOk, MailSound, Deduped;
    SendSound(env, db, now, l);
    var after := BusStep(env, db, SendOp(now, l));
    DedupedNonEmpty(env, now, l);
    LetterLimits(env, now, l);
    var ms := Deliveries(l, Deduped(l.recipients), now, db.issued, env.tie);
    assert Or(l.correlation, db.issued) == db.issued && Or(l.thread, db.issued) >= 0;
    forall id: nat | Get(after.messages, id).Some? ensures RowKnown(Get(after.messages, id).value, asked', after.issued) {
      IdIssued(after, id);
      if db.issued <= id {
        assert ms[id - db.issued].correlation == db.issued;
      }
    }
  }

  lemma DedupedNonEmpty(env: Env, now: int, l: Letter)
    requires LetterOk(env.roster, now, l)
    ensures |Deduped(l.recipients)| > 0
  {}

  lemma QuietKnown(env: Env, db: Db, op: BusOp, asked: set<nat>)
    requires MailSound(db) && MailKnown(db, asked) && !op.SendOp?
    ensures MailKnown(BusStep(env, db, op), asked)
  {
    hide Get, BusStep, MailSound;
    StepMoves(env, db, op);
    BusStepFrame(env, db, op);
    var next := BusStep(env, db, op);
    forall id: nat | Get(next.messages, id).Some? ensures RowKnown(Get(next.messages, id).value, asked, next.issued) {
      LetterStays(op, db.issued, Get(db.messages, id), Get(next.messages, id));
    }
  }

  predicate SameLetter(a: Message, b: Message) {
    && a.correlation == b.correlation && a.sender == b.sender && a.recipient == b.recipient && a.kind == b.kind
    && a.payload == b.payload && a.replyTo == b.replyTo
  }

  lemma LetterStays(op: BusOp, issued: nat, before: Option<Message>, after: Option<Message>)
    requires Allowed(op, issued, before, after) && !op.SendOp?
    ensures after.Some? ==> before.Some? && SameLetter(before.value, after.value)
  {}

  lemma BusStepFrame(env: Env, db: Db, op: BusOp)
    ensures var next := BusStep(env, db, op); next == db.(messages := next.messages, issued := next.issued)
  {
    hide Get, LetterOk, InsertAll, Rewrite, Delete, Deduped;
  }

  lemma BusKeepsDesk(s: Desk, env: Env, op: BusOp)
    requires DeskSound(s) && AdmissibleDeed(BusDeed(env, op))
    ensures DeskSound(Step(s, BusDeed(env, op)))
  {
    hide MailSound, OneReply, BusStep, LetterOk;
    StepMoves(env, s.db, op);
    StepKeepsOneReply(env, s.db, op);
    BusStepFrame(env, s.db, op);
    if op.SendOp? {
      if LetterOk(env.roster, op.now, op.letter) {
        SendKnown(env, s.db, op.now, op.letter, s.asked, s.asked);
      } else {
        BadLetter(env, s.db, op.now, op.letter);
      }
    } else {
      QuietKnown(env, s.db, op, s.asked);
    }
  }

  lemma BadLetter(env: Env, db: Db, now: int, l: Letter)
    requires !LetterOk(env.roster, now, l)
    ensures BusStep(env, db, SendOp(now, l)) == db
  {}

  /** A row after a pump is the row before it with a new status, or a reply to a delivery the pump took. */
  lemma PumpOrigin(w: World, db: Db, agent: string, id: nat)
    requires MailSound(db) && agent in w.env.roster
    requires Get(PumpResult(w, db, agent).messages, id).Some?
    ensures var snapshot := Bus.Inbox(db.messages, agent, w.now, MAX_MESSAGES);
            var r := Get(PumpResult(w, db, agent).messages, id);
            || (Get(db.messages, id).Some? && SameLetter(Get(db.messages, id).value, r.value))
            || (Get(db.messages, id).None? && IsReply(w, db.rows, agent, snapshot, r, id))
  {
    hide Get, Bus.Inbox, MailSound, Answered, Raised, ReplyRow;
    var snapshot := Bus.Inbox(db.messages, agent, w.now, MAX_MESSAGES);
    InboxIsTaken(db, agent, w.now, MAX_MESSAGES);
    PumpEffect(w, db, agent, snapshot);
    IdIssued(PumpResult(w, db, agent), id);
    IdIssued(db, id);
    if id < db.issued && InSnapshot(snapshot, id) {
      var i :| 0 <= i < |snapshot| && snapshot[i].id == id;
      OutcomeLetter(w, db.rows, agent, snapshot[i]);
    }
  }

  lemma OutcomeLetter(w: World, rows: seq<Row>, agent: string, m: Message)
    ensures SameLetter(m, Aftermath(w, rows, agent, m))
  {}

  lemma PumpFrame(w: World, db: Db, agent: string)
    requires MailSound(db) && OneReply(db)
    ensures var after := PumpResult(w, db, agent);
            && MailSound(after) && OneReply(after)
            && after == db.(messages := after.messages, issued := after.issued) && db.issued <= after.issued
  {
    hide Get, Bus.Inbox, MailSound, OneReply;
    if agent in w.env.roster {
      var snapshot := Bus.Inbox(db.messages, agent, w.now, MAX_MESSAGES);
      InboxIsTaken(db, agent, w.now, MAX_MESSAGES);
      PumpEffect(w, db, agent, snapshot);
      PumpKeepsOneReply(w, db, agent, snapshot);
    }
  }

  lemma ReplyKnown(w: World, db: Db, agent: string, id: nat, asked: set<nat>)
    requires MailSound(db) && MailKnown(db, asked) && agent in w.env.roster
    requires IsReply(w, db.rows, agent, Bus.Inbox(db.messages, agent, w.now, MAX_MESSAGES),
                     Get(PumpResult(w, db, agent).messages, id), id)
    ensures var r := Get(PumpResult(w, db, agent).messages, id);
            r.Some? && RowKnown(r.value, asked, db.issued)
  {
    hide Get, Bus.Inbox, MailSound, Answered, PumpResult;
    InboxIsTaken(db, agent, w.now, MAX_MESSAGES);
  }

  lemma PumpKeepsDesk(s: Desk, w: World, agent: string)
    requires DeskSound(s)
    ensures DeskSound(Step(s, PumpDeed(w, agent)))
  {
    hide Get, Bus.Inbox, MailSound, OneReply, IsReply, PumpResult, IsRequest;
    var next := Step(s, PumpDeed(w, agent));
    PumpFrame(w, s.db, agent);
    if agent in w.env.roster {
      forall id: nat | Get(next.db.messages, id).Some?
        ensures RowKnown(Get(next.db.messages, id).value, s.asked, next.db.issued)
      {
        PumpOrigin(w, s.db, agent, id);
        if Get(s.db.messages, id).None? {
          ReplyKnown(w, s.db, agent, id, s.asked);
        } else {
          SameKnown(Get(s.db.messages, id).value, Get(next.db.messages, id).value, s.asked, s.db.issued, next.db.issued);
        }
      }
    } else {
      Unknown(w, s.db, agent);
    }
  }

  lemma Unknown(w: World, db: Db, agent: string)
    requires agent !in w.env.roster
    ensures PumpResult(w, db, agent) == db
  {}

  lemma SameKnown(a: Message, b: Message, asked: set<nat>, issued: nat, issued': nat)
    requires SameLetter(a, b) && RowKnown(a, asked, issued) && issued <= issued'
    ensures RowKnown(b, asked, issued')
  {}

  lemma OperateKeepsDesk(s: Desk, w: World, cut: Option<nat>)
    requires DeskSound(s)
    ensures DeskSound(Step(s, OperateDeed(w, cut)))
    ensures s.db.issued <= Step(s, OperateDeed(w, cut)).db.issued
  {
    hide Get, MailSound, OneReply, OperatorWrites, LetterOk, OpensVote, DiesAfterPaying, ApplyAll, Read;
    var ws := OperatorWrites(w, s.db);
    var done := ws[..Reached(ws, cut)];
    var next := Step(s, OperateDeed(w, cut));
    OperateCounts(w, s.db, cut);
    ApplyAllRent(done, s.db);
    OperateMail(w, s.db, cut);
    if OpensVote(w, s.db, cut) {
      var op := SendOp(w.now, RequestLetter(w));
      StepMoves(w.env, s.db, op);
      StepKeepsOneReply(w.env, s.db, op);
      SendKnown(w.env, s.db, w.now, RequestLetter(w), s.asked, next.asked);
      SameMail(BusStep(w.env, s.db, op), next.db);
    } else {
      SameMail(s.db, next.db);
    }
  }

  lemma SameMail(a: Db, b: Db)
    requires MailSound(a) && OneReply(a) && a.messages == b.messages && a.issued == b.issued
    ensures MailSound(b) && OneReply(b)
  {}

  lemma PostKeepsDesk(s: Desk, row: Row)
    requires DeskSound(s) && !IsRent(row)
    ensures DeskSound(Step(s, PostDeed(row)))
  {
    hide Get, MailSound, OneReply;
    ApplyRent(PostRow(row), s.db);
    SameMail(s.db, Step(s, PostDeed(row)).db);
  }

  lemma StepKeepsDesk(s: Desk, d: Deed)
    requires DeskSound(s) && AdmissibleDeed(d)
    ensures DeskSound(Step(s, d)) && s.db.issued <= Step(s, d).db.issued
    ensures s.asked <= Step(s, d).asked <= s.asked + {s.db.issued}
  {
    hide DeskSound, MailSound, BusStep, PumpResult, Operate;
    SoundDesk(s);
    match d {
      case BusDeed(env, op) => BusKeepsDesk(s, env, op); StepMoves(env, s.db, op);
      case PumpDeed(w, agent) => PumpKeepsDesk(s, w, agent); PumpFrame(w, s.db, agent);
      case PostDeed(row) => PostKeepsDesk(s, row);
      case OperateDeed(w, cut) => OperateKeepsDesk(s, w, cut);
    }
  }

  lemma SoundDesk(s: Desk)
    requires DeskSound(s)
    ensures MailSound(s.db) && OneReply(s.db)
  {}

  lemma {:induction false} RunKeepsDesk(s: Desk, ds: seq<Deed>, k: nat)
    requires DeskSound(s) && AdmissibleDeeds(ds) && k <= |ds|
    ensures DeskSound(At(s, ds, k))
  {
    hide DeskSound, Step, AdmissibleDeed;
    if k > 0 {
      RunKeepsDesk(s, ds, k - 1);
      StepKeepsDesk(At(s, ds, k - 1), ds[k - 1]);
    }
  }

  lemma EmptyDeskSound()
    ensures DeskSound(EMPTY_DESK)
  {}

  // ---- Where the votes come from -----------------------------------------------------------

  /** The deed is a pump of the reply's sender that answered an operator's purchase request with this reply. */
  ghost predicate Cast(s: Desk, d: Deed, r: Message) {
    d.PumpDeed? && d.agent == r.sender
    && exists m :: m in Bus.Inbox(s.db.messages, d.agent, d.w.now, MAX_MESSAGES) && IsRequest(m)
         && m.recipient == d.agent && Answered(d.w, s.db.rows, d.agent, m)
         && r.correlation == m.correlation && r.recipient == m.sender
         && Some(r.payload) == Answer(d.w, s.db.rows, m).value
  }

  ghost predicate HasCast(s: Desk, ds: seq<Deed>, k: nat, r: Message)
    requires k <= |ds|
  {
    exists j :: 0 <= j < k && Cast(At(s, ds, j), ds[j], r)
  }

  predicate IsVote(r: Option<Message>, asked: set<nat>) {
    r.Some? && r.value.replyTo.Some? && r.value.correlation in asked
  }

  /** Every reply on a vote's correlation was there before the deed, or the deed is the pump that cast it. */
  lemma VoteOrigin(s: Desk, d: Deed, id: nat)
    requires DeskSound(s) && AdmissibleDeed(d)
    requires IsVote(Get(Step(s, d).db.messages, id), Step(s, d).asked)
    ensures var before := Get(s.db.messages, id); var after := Get(Step(s, d).db.messages, id).value;
            || (IsVote(before, s.asked) && SameLetter(before.value, after))
            || Cast(s, d, after)
  {
    hide Get, MailSound, OneReply, BusStep, PumpResult, Operate, RentKnown, IsRequest, Cast, LetterOk;
    StepKeepsDesk(s, d);
    var next := Step(s, d);
    match d {
      case BusDeed(env, op) =>
        if op.SendOp? { PlainVote(env, s.db, op.now, op.letter, id); }
        else { StepMoves(env, s.db, op); LetterStays(op, s.db.issued, Get(s.db.messages, id), Get(next.db.messages, id)); }
      case PumpDeed(w, agent) =>
        if agent in w.env.roster {
          PumpOrigin(w, s.db, agent, id);
          if Get(s.db.messages, id).None? { ReplyIsCast(s, w, agent, id); }
        } else {
          Unknown(w, s.db, agent);
        }
      case PostDeed(row) =>
      case OperateDeed(w, cut) =>
        OperateMail(w, s.db, cut);
        if OpensVote(w, s.db, cut) { PlainVote(w.env, s.db, w.now, RequestLetter(w), id); }
    }
    if Get(s.db.messages, id).Some? {
      assert RowKnown(Get(s.db.messages, id).value, s.asked, s.db.issued);
    }
  }

  /** A plain letter adds no replies. */
  lemma PlainVote(env: Env, db: Db, now: int, l: Letter, id: nat)
    requires MailSound(db) && l.replyTo.None?
    ensures var r := Get(BusStep(env, db, SendOp(now, l)).messages, id);
            r.Some? && r.value.replyTo.Some? ==> r == Get(db.messages, id)
  {
    hide MailSound, Get, BusStep;
    PlainRow(env, db, now, l, id);
  }

  lemma ReplyIsCast(s: Desk, w: World, agent: string, id: nat)
    requires DeskSound(s) && agent in w.env.roster
    requires IsReply(w, s.db.rows, agent, Bus.Inbox(s.db.messages, agent, w.now, MAX_MESSAGES),
                     Get(PumpResult(w, s.db, agent).messages, id), id)
    requires Get(PumpResult(w, s.db, agent).messages, id).value.correlation in s.asked
    ensures Cast(s, PumpDeed(w, agent), Get(PumpResult(w, s.db, agent).messages, id).value)
  {
    hide Get, Bus.Inbox, MailSound, OneReply, RentKnown, PumpResult, IsRequest;
    var snapshot := Bus.Inbox(s.db.messages, agent, w.now, MAX_MESSAGES);
    InboxIsTaken(s.db, agent, w.now, MAX_MESSAGES);
    var r := Get(PumpResult(w, s.db, agent).messages, id);
    var i :| 0 <= i < |snapshot| && Answered(w, s.db.rows, agent, snapshot[i])
             && r == Some(ReplyRow(w, s.db.rows, agent, snapshot[i], id));
    assert RowKnown(Get(s.db.messages, snapshot[i].id).value, s.asked, s.db.issued);
    assert snapshot[i] in snapshot;
  }

  lemma CastSame(s: Desk, d: Deed, a: Message, b: Message)
    requires Cast(s, d, a) && SameLetter(a, b)
    ensures Cast(s, d, b)
  {}

  /** At every point of a run from an empty store, every vote present was cast by an earlier pump. */
  lemma {:induction false} VotesAreCast(ds: seq<Deed>, k: nat, id: nat)
    requires AdmissibleDeeds(ds) && k <= |ds|
    requires IsVote(Get(At(EMPTY_DESK, ds, k).db.messages, id), At(EMPTY_DESK, ds, k).asked)
    ensures HasCast(EMPTY_DESK, ds, k, Get(At(EMPTY_DESK, ds, k).db.messages, id).value)
    decreases k
  {
    hide DeskSound, Step, AdmissibleDeed, Cast, Get;
    if k == 0 {
      NoVotes(id);
    } else {
      EmptyDeskSound();
      var before := At(EMPTY_DESK, ds, k - 1);
      RunKeepsDesk(EMPTY_DESK, ds, k - 1);
      VoteOrigin(before, ds[k - 1], id);
      var r := Get(At(EMPTY_DESK, ds, k).db.messages, id).value;
      if !Cast(before, ds[k - 1], r) {
        VotesAreCast(ds, k - 1, id);
        var r0 := Get(before.db.messages, id).value;
        var j :| 0 <= j < k - 1 && Cast(At(EMPTY_DESK, ds, j), ds[j], r0);
        CastSame(At(EMPTY_DESK, ds, j), ds[j], r0, r);
      }
    }
  }

  lemma NoVotes(id: nat)
    ensures Get(EMPTY_DESK.db.messages, id).None?
  {}

  // ---- Main results ------------------------------------------------------------------------

  /** The seat's pump answered the operator's request for $6.00 on this correlation, and its policy said `yes`. */
  ghost predicate Voted(s: Desk, d: Deed, seat: string, correlation: nat, yes: bool) {
    && d.PumpDeed? && d.agent == seat
    && Policy(seat, d.w, s.db.rows, PRICE).Some? && Policy(seat, d.w, s.db.rows, PRICE).value.yes == yes
    && exists m :: m in Bus.Inbox(s.db.messages, seat, d.w.now, MAX_MESSAGES)
                   && IsRequest(m) && m.recipient == seat && m.correlation == correlation
  }

  lemma CastIsVoted(s: Desk, d: Deed, r: Message)
    requires Cast(s, d, r)
    ensures Voted(s, d, r.sender, r.correlation, VoteOf(r.payload) == "yes")
  {
    hide Bus.Inbox, Policy;
  }

  /** Each seat's counted vote on the open quorum is its policy's verdict at an earlier pump of its own inbox. */
  lemma CountedVoteWasCast(ds: seq<Deed>, k: nat, seat: string)
    requires AdmissibleDeeds(ds) && k <= |ds| && seat in SEATS
    requires At(EMPTY_DESK, ds, k).db.quorum.Some?
    requires var db := At(EMPTY_DESK, ds, k).db; Choice(Gather(Replies(db.messages, db.quorum.value.correlation)), seat).Some?
    ensures var db := At(EMPTY_DESK, ds, k).db; var correlation := db.quorum.value.correlation;
            var choice := Choice(Gather(Replies(db.messages, correlation)), seat).value;
            exists j :: 0 <= j < k && Voted(At(EMPTY_DESK, ds, j), ds[j], seat, correlation, choice == "yes")
  {
    hide Get, Step, Cast, Voted, Replies, Gather, Choice, OneReply, RentKnown;
    var s := At(EMPTY_DESK, ds, k);
    var correlation := s.db.quorum.value.correlation;
    EmptyDeskSound();
    RunKeepsDesk(EMPTY_DESK, ds, k);
    var replies := Replies(s.db.messages, correlation);
    var i := CountedVoteIsLastReply(replies, seat);
    RepliesMembers(s.db.messages, correlation);
    var r := replies[i];
    assert r in replies;
    var p :| 0 <= p < |s.db.messages| && s.db.messages[p] == r;
    GetAt(s.db.messages, p);
    VotesAreCast(ds, k, r.id);
    var j :| 0 <= j < k && Cast(At(EMPTY_DESK, ds, j), ds[j], r);
    CastIsVoted(At(EMPTY_DESK, ds, j), ds[j], r);
  }

  /**
   Deed `k` runs on an open quorum on which all three seats answered the operator's request, the treasurer's and
   the director's own policies said yes when they answered, nothing was bought yet, and the cash is there.
   */
  ghost predicate Authorised(ds: seq<Deed>, k: nat)
    requires k < |ds| && ds[k].OperateDeed?
  {
    var before := At(EMPTY_DESK, ds, k); var w := ds[k].w;
    && before.db.quorum.Some? && !before.db.bought && PRICE <= OperatingCash(before.db.rows)
    && (w.sim || (w.token && w.allowLiveBuy))
    && var c := before.db.quorum.value.correlation;
       && (exists j :: 0 <= j < k && Voted(At(EMPTY_DESK, ds, j), ds[j], "treasurer", c, true))
       && (exists j :: 0 <= j < k && Voted(At(EMPTY_DESK, ds, j), ds[j], "director", c, true))
       && (exists j, yes :: 0 <= j < k && Voted(At(EMPTY_DESK, ds, j), ds[j], "risk", c, yes))
  }

  /** A purchase happens only when it is authorised. */
  lemma PurchaseIsAuthorised(ds: seq<Deed>, k: nat)
    requires AdmissibleDeeds(ds) && k < |ds| && ds[k].OperateDeed?
    requires Read(Rent, At(EMPTY_DESK, ds, k + 1).db.rows) > Read(Rent, At(EMPTY_DESK, ds, k).db.rows)
    ensures Authorised(ds, k)
  {
    hide Voted, Replies, Gather, Choice, OperatorWrites, Read, RentIn, ApplyAll, OperatingCash, OpensVote, DiesAfterPaying;
    var before := At(EMPTY_DESK, ds, k);
    var w, cut := ds[k].w, ds[k].cut;
    var ws := OperatorWrites(w, before.db);
    ApplyAllRent(ws[..Reached(ws, cut)], before.db);
    OperateCounts(w, before.db, cut);
    assert SEATS[0] == "treasurer" && SEATS[1] == "risk" && SEATS[2] == "director";
    CountedVoteWasCast(ds, k, "treasurer");
    CountedVoteWasCast(ds, k, "director");
    CountedVoteWasCast(ds, k, "risk");
  }

  /**
   What each seat's answer says at the price of $6.00: the treasurer's, that the cash was there, since the price
   is petty cash; the director's, that there was revenue in the last thirty days; the risk seat's, that the operator
   was not frozen and a quarter of the cash would do.
   */
  lemma VotesMean(s: Desk, d: Deed, correlation: nat, yes: bool)
    ensures Voted(s, d, "treasurer", correlation, yes) ==> (yes <==> PRICE <= OperatingCash(s.db.rows))
    ensures Voted(s, d, "director", correlation, yes) ==>
              (yes <==> Read(Earned(Some(d.w.now - TRAILING_SECONDS)), s.db.rows) > 0)
    ensures Voted(s, d, "risk", correlation, yes) ==>
              (yes <==> OPERATOR !in d.w.frozen && 4 * PRICE <= OperatingCash(s.db.rows))
  {
    hide OperatingCash, Read;
  }

  /**
   Infrastructure payments are exactly the noted purchase plus the payments a run died right after making.
   So it is paid for at most once when no operator run dies in that gap.
   */
  lemma PaidOncePlusLost(ds: seq<Deed>, k: nat)
    requires AdmissibleDeeds(ds) && k <= |ds|
    ensures var s := At(EMPTY_DESK, ds, k);
            && Read(Rent, s.db.rows) == (if s.db.bought then 1 else 0) + s.lost
            && (s.lost == 0 ==> Read(Rent, s.db.rows) <= 1)
  {
    hide MailSound, OneReply, MailKnown, Read;
    EmptyDeskSound();
    RunKeepsDesk(EMPTY_DESK, ds, k);
  }

  /** A vote is opened only when none is open and nothing was bought, on a correlation no message has carried. */
  lemma OpeningIsFresh(s: Desk, w: World, cut: Option<nat>)
    requires DeskSound(s)
    ensures var next := Operate(w, s.db, cut);
            next.quorum.Some? && next.quorum != s.db.quorum ==>
              && s.db.quorum.None? && !s.db.bought
              && next.quorum.value.correlation == s.db.issued && s.db.issued !in s.asked
              && (forall id: nat :: Get(s.db.messages, id).Some? ==> Get(s.db.messages, id).value.correlation != s.db.issued)
  {
    hide Get, MailSound, OneReply, OperatorWrites, Operate, RentKnown;
    OperateMail(w, s.db, cut);
  }

  /** Only the operator touches the open quorum. */
  lemma QuorumMoves(s: Desk, d: Deed)
    requires DeskSound(s)
    ensures var after := Step(s, d).db.quorum;
            if d.OperateDeed? && after.Some? && after != s.db.quorum then after.value.correlation == s.db.issued
            else after in {s.db.quorum, None} && (!d.OperateDeed? ==> after == s.db.quorum)
  {
    hide MailSound, OneReply, BusStep, PumpResult, Operate, OpensVote, MailKnown, RentKnown;
    match d {
      case BusDeed(env, op) => BusStepFrame(env, s.db, op);
      case PumpDeed(w, agent) => PumpFrame(w, s.db, agent);
      case PostDeed(_) =>
      case OperateDeed(w, cut) => OperateMail(w, s.db, cut);
    }
  }

  /** So every open quorum is closed for good by the first complete operator run past its deadline. */
  lemma QuorumClosesByDeadline(ds: seq<Deed>, i: nat, k: nat, q: Quorum)
    requires AdmissibleDeeds(ds) && i <= k < |ds|
    requires At(EMPTY_DESK, ds, i).db.quorum == Some(q)
    requires ds[k].OperateDeed? && ds[k].cut.None? && ds[k].w.now > q.requested + ds[k].w.quorumWindow
    ensures forall n :: k < n <= |ds| ==> At(EMPTY_DESK, ds, n).db.quorum != Some(q)
  {
    hide DeskSound, Step, AdmissibleDeed;
    EmptyDeskSound();
    RunKeepsDesk(EMPTY_DESK, ds, i);
    OpenCorrelationIssued(At(EMPTY_DESK, ds, i));
    IssuedGrows(EMPTY_DESK, ds, i, k + 1);
    IssuedGrows(EMPTY_DESK, ds, i, k);
    RunKeepsDesk(EMPTY_DESK, ds, k);
    ClosedNow(At(EMPTY_DESK, ds, k), ds[k], q);
    forall n | k < n <= |ds| ensures At(EMPTY_DESK, ds, n).db.quorum != Some(q) {
      StaysClosedFrom(ds, k + 1, n, q);
    }
  }

  lemma OpenCorrelationIssued(s: Desk)
    requires DeskSound(s)
    ensures s.db.quorum.Some? ==> s.db.quorum.value.correlation < s.db.issued
  {}

  lemma ClosedNow(s: Desk, d: Deed, q: Quorum)
    requires DeskSound(s) && d.OperateDeed? && d.cut.None? && d.w.now > q.requested + d.w.quorumWindow
    requires q.correlation < s.db.issued
    ensures Step(s, d).db.quorum != Some(q)
  {
    hide DeskSound, Operate, OpensVote, DiesAfterPaying;
    if s.db.quorum == Some(q) {
      PastDeadlineCloses(d.w, s.db);
    } else {
      QuorumMoves(s, d);
    }
  }

  lemma {:induction false} IssuedGrows(s: Desk, ds: seq<Deed>, i: nat, k: nat)
    requires DeskSound(s) && AdmissibleDeeds(ds) && i <= k <= |ds|
    ensures At(s, ds, i).db.issued <= At(s, ds, k).db.issued
    decreases k
  {
    hide DeskSound, Step, AdmissibleDeed;
    if i < k {
      IssuedGrows(s, ds, i, k - 1);
      RunKeepsDesk(s, ds, k - 1);
      StepKeepsDesk(At(s, ds, k - 1), ds[k - 1]);
    }
  }

  lemma {:induction false} StaysClosedFrom(ds: seq<Deed>, k: nat, n: nat, q: Quorum)
    requires AdmissibleDeeds(ds) && k <= n <= |ds|
    requires At(EMPTY_DESK, ds, k).db.quorum != Some(q) && q.correlation < At(EMPTY_DESK, ds, k).db.issued
    ensures At(EMPTY_DESK, ds, n).db.quorum != Some(q)
    decreases n
  {
    hide DeskSound, Step, AdmissibleDeed;
    if k < n {
      StaysClosedFrom(ds, k, n - 1, q);
      EmptyDeskSound();
      RunKeepsDesk(EMPTY_DESK, ds, n - 1);
      IssuedGrows(EMPTY_DESK, ds, k, n - 1);
      QuorumMoves(At(EMPTY_DESK, ds, n - 1), ds[n - 1]);
    }
  }
}
