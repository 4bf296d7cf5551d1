/**
 The built-in message handlers and the inbox pump, as values: what one pump does to every delivery it takes.
 */
module Inbox {
  import opened Tables
  import opened Ledger
  import opened Bus
  import opened Lifecycle

  /** What an agent's turn sees besides the store. Autonomy is the operator's earned spending limit in cents. */
  datatype World = World(
    env: Env, now: int, tick: nat, frozen: set<string>, autonomy: int,
    token: bool, sim: bool, allowLiveBuy: bool, quorumWindow: int, comms: bool)

  const SEATS: seq<string> := ["treasurer", "risk", "director"]
  const ROSTER: set<string> :=
    {"mechanic", "bookkeeper", "risk", "ethics", "director", "hunter", "closer", "crafter", "trader", "publisher",
     "scout", "operator", "treasurer", "auditor", "improver", "courier"}

  const MAX_MESSAGES := 10
  const PETTY_CASH := 2500
  const TRAILING_SECONDS := 30 * 86400

  // ---- Vote policies -----------------------------------------------------------------------

  datatype Opinion = Opinion(yes: bool, reason: string)

  function TreasurerVote(w: World, rows: seq<Row>, cents: int): Opinion {
    if cents > OperatingCash(rows) then Opinion(false, "exceeds operating cash")
    else if cents <= (if w.autonomy > 0 then w.autonomy else 0) || cents <= PETTY_CASH
    then Opinion(true, "within operating cash and autonomy")
    else Opinion(false, "exceeds operator autonomy")
  }

  function RiskVote(w: World, rows: seq<Row>, cents: int): Opinion {
    if "operator" in w.frozen then Opinion(false, "operator frozen")
    else if 4 * cents > OperatingCash(rows) then Opinion(false, "exceeds 25% of operating cash")
    else Opinion(true, "limits intact")
  }

  function DirectorVote(w: World, rows: seq<Row>): Opinion {
    if Read(Earned(Some(w.now - TRAILING_SECONDS)), rows) > 0 then Opinion(true, "trailing revenue positive")
    else Opinion(false, "no trailing revenue")
  }

  function Policy(seat: string, w: World, rows: seq<Row>, cents: int): Option<Opinion> {
    if seat == "treasurer" then Some(TreasurerVote(w, rows, cents))
    else if seat == "risk" then Some(RiskVote(w, rows, cents))
    else if seat == "director" then Some(DirectorVote(w, rows))
    else None
  }

  /** `Council.auto_votes_for_spend`, the votes of both seats at once. */
  function AutoVotes(cents: int, cash: int, frozen: bool, autonomy: int): map<string, bool> {
    var earned := cents <= cash && cents <= (if autonomy > 0 then autonomy else 0);
    var treasurer := if cents <= PETTY_CASH && cents <= cash then true else earned;
    var risk := if 4 * cents > cash then false else !frozen;
    map["treasurer" := treasurer, "risk" := risk]
  }

  /** The seats' own policies are the legs of the older same-tick votes. */
  lemma SeatsAgreeWithAutoVotes(w: World, rows: seq<Row>, cents: int)
    ensures var auto := AutoVotes(cents, OperatingCash(rows), "operator" in w.frozen, w.autonomy);
            && TreasurerVote(w, rows, cents).yes == auto["treasurer"] && RiskVote(w, rows, cents).yes == auto["risk"]
    ensures TreasurerVote(w, rows, cents).yes <==>
              cents <= OperatingCash(rows) && (cents <= PETTY_CASH || cents <= w.autonomy || cents <= 0)
  {
    hide OperatingCash;
  }

  // ---- Handlers ----------------------------------------------------------------------------

  predicate NonEmptyText(payload: Payload, key: string) {
    key in payload && payload[key].Text? && payload[key].s != ""
  }

  function VoteRequest(w: World, rows: seq<Row>, m: Message): Result<Payload> {
    if !NonEmptyText(m.payload, "action") || !NonEmptyText(m.payload, "action_id") then Err(ValueError)
    else if "usd" !in m.payload || !m.payload["usd"].Cents? then Err(ValueError)
    else
      var opinion := Policy(m.recipient, w, rows, m.payload["usd"].n);
      if opinion.None? then Err(ValueError)
      else Ok(map["vote" := Text(if opinion.value.yes then "yes" else "no"), "reason" := Text(opinion.value.reason)])
  }

  /** The kinds an agent's spec grants. */
  predicate Handles(agent: string, kind: string) {
    agent in ROSTER && (kind in {"ping", "notify"} || (kind == "vote_request" && agent in SEATS))
  }

  /** What the handler of the message's kind returns; `None` is a handler that returns nothing. */
  function Answer(w: World, rows: seq<Row>, m: Message): Result<Option<Payload>> {
    if m.kind == "ping" then Ok(Some(map["pong" := Flag(true), "agent" := Text(m.recipient)]))
    else if m.kind == "notify" then Ok(None)
    else
      var vote := VoteRequest(w, rows, m);
      if vote.Err? then Err(vote.error) else Ok(Some(vote.value))
  }

  /**
   A ping is answered, a notification needs no answer, and a seat answers a well-formed vote request with its policy's
   yes or no; a request without action, id or integral amount, or to an agent without a seat, raises.
   */
  lemma AnswerExactly(w: World, rows: seq<Row>, m: Message)
    ensures m.kind == "ping" ==> Answer(w, rows, m) == Ok(Some(map["pong" := Flag(true), "agent" := Text(m.recipient)]))
    ensures m.kind == "notify" ==> Answer(w, rows, m) == Ok(None)
    ensures m.kind == "vote_request" ==>
              var r := Answer(w, rows, m);
              if NonEmptyText(m.payload, "action") && NonEmptyText(m.payload, "action_id") && "usd" in m.payload
                 && m.payload["usd"].Cents? && m.recipient in {"treasurer", "risk", "director"}
              then
                && r.Ok? && r.value.Some? && r.value.value.Keys == {"vote", "reason"}
                && r.value.value["vote"]
                   == Text(if (if m.recipient == "treasurer" then TreasurerVote(w, rows, m.payload["usd"].n).yes
                               else if m.recipient == "risk" then RiskVote(w, rows, m.payload["usd"].n).yes
                               else DirectorVote(w, rows).yes) then "yes" else "no")
              else r == Err(ValueError)
  {
    hide TreasurerVote, RiskVote, DirectorVote;
  }

  // ---- The pump ----------------------------------------------------------------------------

  const UNHANDLED := "unhandled_kind"
  const HANDLER_ERROR := "handler error"

  /** Where the handling of one message got to, and whether it raised. */
  datatype Handling = Handling(db: Db, raised: bool)

  function Finish(db: Db, r: Result<Db>): Handling {
    if r.Ok? then Handling(r.value, false) else Handling(db, true)
  }

  function Dispatch(w: World, db: Db, agent: string, m: Message): Handling {
    if m.replyTo.Some? then Finish(db, Ack(db, m.id))
    else if !Handles(agent, m.kind) then Finish(db, DeadLetter(db, m.id, UNHANDLED))
    else
      var answer := Answer(w, db.rows, m);
      if answer.Err? then Handling(db, true)
      else if m.expectsReply && answer.value.Some? then
        var sent := Bus.Reply(w.env.roster, w.env.tie, db, w.now, m, agent, answer.value.value, None);
        if sent.Err? then Handling(db, true) else Finish(sent.value, Ack(sent.value, m.id))
      else Finish(db, Ack(db, m.id))
  }

  /** One message of the pump: when handling raises, the delivery is failed; when even that raises, it is left. */
  function HandleOne(w: World, db: Db, agent: string, m: Message): Db {
    var attempt := Dispatch(w, db, agent, m);
    if attempt.raised then Finish(attempt.db, Fail(attempt.db, m.id, HANDLER_ERROR)).db else attempt.db
  }

  function Pump(w: World, db: Db, agent: string, snapshot: seq<Message>): Db
    decreases |snapshot|
  {
    if snapshot == [] then db else Pump(w, HandleOne(w, db, agent, snapshot[0]), agent, snapshot[1..])
  }

  /** `process_inbox`; it raises only for an agent the bus does not know. */
  function ProcessInbox(w: World, db: Db, agent: string, limit: int): Result<Db> {
    if agent !in w.env.roster then Err(ValueError)
    else Ok(Pump(w, db, agent, Bus.Inbox(db.messages, agent, w.now, limit)))
  }

  // ---- What a pump does to one delivery ----------------------------------------------------

  /** The delivery gets a reply. */
  predicate Answered(w: World, rows: seq<Row>, agent: string, m: Message) {
    && m.replyTo.None? && Handles(agent, m.kind) && m.expectsReply && m.sender in w.env.roster
    && Answer(w, rows, m).Ok? && Answer(w, rows, m).value.Some?
  }

  /** The handler raised, or its reply could not be sent. */
  predicate Raised(w: World, rows: seq<Row>, agent: string, m: Message) {
    && m.replyTo.None? && Handles(agent, m.kind)
    && (Answer(w, rows, m).Err? || (m.expectsReply && Answer(w, rows, m).value.Some? && m.sender !in w.env.roster))
  }

  /** The one transition that handling a delivery without answering it comes to. */
  function HandlingOp(w: World, rows: seq<Row>, agent: string, m: Message): BusOp {
    if Raised(w, rows, agent, m) then FailOp(m.id, HANDLER_ERROR)
    else if m.replyTo.None? && !Handles(agent, m.kind) then DeadLetterOp(m.id, UNHANDLED)
    else AckOp(m.id)
  }

  /** The row a pump leaves for a delivery it took: done, dead, or queued with one more attempt. */
  function Aftermath(w: World, rows: seq<Row>, agent: string, m: Message): Message {
    NewRow(m, HandlingOp(w, rows, agent, m))
  }

  function ReplyRow(w: World, rows: seq<Row>, agent: string, m: Message, id: nat): Message
    requires Answered(w, rows, agent, m)
  {
    Message(id, w.env.tie(id), w.now, m.thread, m.correlation, agent, m.sender, m.kind + REPLY_SUFFIX,
            Answer(w, rows, m).value.value, Queued, false, Some(m.id), None, 0, 3, None)
  }

  /** A reply to a handled kind is always a letter the bus accepts, unless the requester has left the roster. */
  lemma HandledReplies(w: World, db: Db, agent: string, m: Message, payload: Payload)
    requires Handles(agent, m.kind) && m.replyTo.None? && m.recipient == agent && agent in w.env.roster
    ensures var letter := ReplyLetter(m, agent, payload, None);
            && letter.Ok? && letter.value.kind == m.kind + REPLY_SUFFIX && Deduped(letter.value.recipients) == [m.sender]
            && (LetterOk(w.env.roster, w.now, letter.value) <==> m.sender in w.env.roster)
  {
    assert KindCore(m.kind + REPLY_SUFFIX);
    assert Deduped([m.sender]) == [m.sender];
  }

  /** Handling one queued delivery settles it as `Aftermath` says, adds at most its reply, and touches no other row. */
  lemma HandleOneEffect(w: World, db: Db, agent: string, m: Message)
    requires MailSound(db) && Get(db.messages, m.id) == Some(m) && m.status.Queued?
    requires m.recipient == agent && agent in w.env.roster
    ensures var after := HandleOne(w, db, agent, m); var answered := Answered(w, db.rows, agent, m);
            && MailSound(after) && after == db.(messages := after.messages, issued := after.issued)
            && after.issued == db.issued + (if answered then 1 else 0)
            && (answered ==> Get(after.messages, db.issued) == Some(ReplyRow(w, db.rows, agent, m, db.issued)))
            && (forall id: nat :: id < db.issued ==>
                  Get(after.messages, id) == if id == m.id then Some(Aftermath(w, db.rows, agent, m)) else Get(db.messages, id))
  {
    hide Insert, Rewrite, Delete, MailSound, Get, Answer, Apply, HandleOne, Answered, Raised, Try, ReplyRow;
    SoundTable(db);
    GetSound(db, m.id);
    if Answered(w, db.rows, agent, m) {
      AnswerEffect(w, db, agent, m);
      AnsweredIsAcked(w, db.rows, agent, m);
    } else {
      HandleIsOp(w, db, agent, m);
      RowChanges(w.env, db, HandlingOp(w, db.rows, agent, m));
    }
  }

  lemma HandleIsOp(w: World, db: Db, agent: string, m: Message)
    requires Get(db.messages, m.id) == Some(m) && m.status.Queued? && m.recipient == agent && agent in w.env.roster
    requires !Answered(w, db.rows, agent, m)
    ensures var r := Try(w.env, db, HandlingOp(w, db.rows, agent, m));
            r.Ok? && HandleOne(w, db, agent, m) == r.value
  {
    hide Apply, Get, Answer, LetterOk, ReplyLetter, Deduped;
    if Raised(w, db.rows, agent, m) && Answer(w, db.rows, m).Ok? {
      HandledReplies(w, db, agent, m, Answer(w, db.rows, m).value.value);
    }
  }

  lemma AnsweredIsAcked(w: World, rows: seq<Row>, agent: string, m: Message)
    requires Answered(w, rows, agent, m)
    ensures Aftermath(w, rows, agent, m) == NewRow(m, AckOp(m.id))
  {}

  /** The reply to a request adds one row. */
  lemma ReplyEffect(w: World, db: Db, agent: string, m: Message)
    requires MailSound(db) && m.recipient == agent && agent in w.env.roster && Answered(w, db.rows, agent, m)
    ensures var sent := Bus.Reply(w.env.roster, w.env.tie, db, w.now, m, agent, Answer(w, db.rows, m).value.value, None);
            && sent.Ok? && MailSound(sent.value)
            && sent.value == db.(messages := sent.value.messages, issued := db.issued + 1)
            && Get(sent.value.messages, db.issued) == Some(ReplyRow(w, db.rows, agent, m, db.issued))
            && (forall id: nat :: id < db.issued ==> Get(sent.value.messages, id) == Get(db.messages, id))
  {
    hide Insert, Rewrite, Delete, MailSound, Get, Answer, LetterOk, Deduped;
    var payload := Answer(w, db.rows, m).value.value;
    HandledReplies(w, db, agent, m, payload);
    var letter := ReplyLetter(m, agent, payload, None).value;
    SendSound(w.env, db, w.now, letter);
    assert Or(letter.thread, db.issued) == m.thread && Or(letter.correlation, db.issued) == m.correlation;
    assert Deliveries(letter, [m.sender], w.now, db.issued, w.env.tie)[0] == ReplyRow(w, db.rows, agent, m, db.issued);
  }

  /** Reply, then ack. */
  lemma AnswerEffect(w: World, db: Db, agent: string, m: Message)
    requires MailSound(db) && Get(db.messages, m.id) == Some(m) && m.status.Queued?
    requires m.recipient == agent && agent in w.env.roster && Answered(w, db.rows, agent, m)
    ensures var after := HandleOne(w, db, agent, m);
            && MailSound(after) && after == db.(messages := after.messages, issued := after.issued)
            && after.issued == db.issued + 1
            && Get(after.messages, db.issued) == Some(ReplyRow(w, db.rows, agent, m, db.issued))
            && (forall id: nat :: id < db.issued ==>
                  Get(after.messages, id) == if id == m.id then Some(NewRow(m, AckOp(m.id))) else Get(db.messages, id))
  {
    hide MailSound, Get, Answer, Bus.Reply, ReplyRow, Apply;
    IdIssued(db, m.id);
    ReplyEffect(w, db, agent, m);
    var sent := Bus.Reply(w.env.roster, w.env.tie, db, w.now, m, agent, Answer(w, db.rows, m).value.value, None).value;
    RowChanges(w.env, sent, AckOp(m.id));
  }

  // ---- What a pump does to the whole table -------------------------------------------------

  /** Rows a pump took: queued deliveries of the agent, as they are in the table, each once. */
  predicate Taken(db: Db, agent: string, snapshot: seq<Message>) {
    && Distinct(snapshot)
    && forall i :: 0 <= i < |snapshot| ==>
         && Get(db.messages, snapshot[i].id) == Some(snapshot[i])
         && snapshot[i].status.Queued? && snapshot[i].recipient == agent
  }

  predicate InSnapshot(snapshot: seq<Message>, id: nat) {
    exists i :: 0 <= i < |snapshot| && snapshot[i].id == id
  }

  function AnsweredCount(w: World, rows: seq<Row>, agent: string, snapshot: seq<Message>): nat {
    if snapshot == [] then 0
    else (if Answered(w, rows, agent, snapshot[0]) then 1 else 0) + AnsweredCount(w, rows, agent, snapshot[1..])
  }

  /** A new row is the reply to a delivery of the snapshot. */
  ghost predicate IsReply(w: World, rows: seq<Row>, agent: string, snapshot: seq<Message>, r: Option<Message>, id: nat) {
    exists i :: 0 <= i < |snapshot| && Answered(w, rows, agent, snapshot[i])
                && r == Some(ReplyRow(w, rows, agent, snapshot[i], id))
  }

  lemma LaterReply(w: World, rows: seq<Row>, agent: string, snapshot: seq<Message>, r: Option<Message>, id: nat)
    requires snapshot != [] && IsReply(w, rows, agent, snapshot[1..], r, id)
    ensures IsReply(w, rows, agent, snapshot, r, id)
  {
    hide Answered, ReplyRow;
    var i :| 0 <= i < |snapshot[1..]| && Answered(w, rows, agent, snapshot[1..][i])
             && r == Some(ReplyRow(w, rows, agent, snapshot[1..][i], id));
    assert snapshot[i + 1] == snapshot[1..][i];
  }

  /**
   A pump gives every delivery it took its outcome, sends one reply for each it answered, and changes
   nothing else in the store.
   */
  lemma {:induction false} PumpEffect(w: World, db: Db, agent: string, snapshot: seq<Message>)
    requires MailSound(db) && Taken(db, agent, snapshot) && agent in w.env.roster
    ensures var after := Pump(w, db, agent, snapshot);
            && MailSound(after) && after == db.(messages := after.messages, issued := after.issued)
            && after.issued == db.issued + AnsweredCount(w, db.rows, agent, snapshot)
            && (forall i :: 0 <= i < |snapshot| ==>
                  Get(after.messages, snapshot[i].id) == Some(Aftermath(w, db.rows, agent, snapshot[i])))
            && (forall id: nat :: id < db.issued && !InSnapshot(snapshot, id) ==>
                  Get(after.messages, id) == Get(db.messages, id))
            && (forall id: nat :: db.issued <= id < after.issued ==>
                  IsReply(w, db.rows, agent, snapshot, Get(after.messages, id), id))
    decreases |snapshot|
  {
    hide MailSound, Get, Answered, Aftermath, HandleOne, ReplyRow;
    if snapshot != [] {
      var m, rest := snapshot[0], snapshot[1..];
      var next := HandleOne(w, db, agent, m);
      HandleOneEffect(w, db, agent, m);
      SoundTable(db);
      forall i | 0 <= i < |rest| ensures rest[i] == snapshot[i + 1] && rest[i].id < db.issued {
        GetSound(db, rest[i].id);
      }
      GetSound(db, m.id);
      PumpEffect(w, next, agent, rest);
      var after := Pump(w, next, agent, rest);
      forall id: nat | id < db.issued && !InSnapshot(snapshot, id) ensures Get(after.messages, id) == Get(db.messages, id) {
        assert snapshot[0].id != id;
        assert forall i :: 0 <= i < |rest| ==> rest[i].id == snapshot[i + 1].id;
      }
      assert !InSnapshot(rest, m.id);
      assert forall i :: 0 < i < |snapshot| ==> snapshot[i] == rest[i - 1];
      forall id: nat | db.issued <= id < after.issued
        ensures IsReply(w, db.rows, agent, snapshot, Get(after.messages, id), id)
      {
        if id < next.issued {
          assert !InSnapshot(rest, id);
          assert snapshot[0] == m;
        } else {
          LaterReply(w, db.rows, agent, snapshot, Get(after.messages, id), id);
        }
      }
    }
  }

  lemma {:induction false} QueueMembers(rows: seq<Message>, agent: string)
    ensures forall x :: x in Queue(rows, agent) <==> x in rows && x.recipient == agent && x.status.Queued?
  {
    if rows != [] {
      QueueMembers(rows[1..], agent);
      assert forall x :: x in rows <==> x == rows[0] || x in rows[1..];
    }
  }

  lemma {:induction false} QueueDistinct(rows: seq<Message>, agent: string)
    requires Distinct(rows)
    ensures Distinct(Queue(rows, agent))
  {
    if rows != [] {
      QueueDistinct(rows[1..], agent);
      QueueMembers(rows[1..], agent);
      var rest := Queue(rows[1..], agent);
      TailLacks(rows, rest);
      ConsDistinct(rows[0], rest);
      assert [] + rest == rest;
    }
  }

  lemma TailLacks(rows: seq<Message>, rest: seq<Message>)
    requires rows != [] && Distinct(rows) && forall x :: x in rest ==> x in rows[1..]
    ensures Lacks(rest, rows[0].id)
  {
    forall i | 0 <= i < |rest| ensures rest[i].id != rows[0].id {
      assert rest[i] in rest;
      var j :| 0 <= j < |rows[1..]| && rows[1..][j] == rest[i];
      assert rows[j + 1] == rest[i];
    }
  }

  lemma {:induction false} VisibleMembers(rows: seq<Message>, now: int)
    requires Distinct(rows)
    ensures Distinct(Visible(rows, now)) && |Visible(rows, now)| <= |rows|
    ensures forall x :: x in Visible(rows, now) <==> x in rows && !PastDeadline(x, now)
  {
    if rows != [] {
      VisibleMembers(rows[1..], now);
      var rest := Visible(rows[1..], now);
      assert forall x :: x in rows <==> x == rows[0] || x in rows[1..];
      TailLacks(rows, rest);
      ConsDistinct(rows[0], rest);
      assert [] + rest == rest;
    }
  }

  /** What an inbox read returns: queued rows of the agent that are not past their deadline, within the limit. */
  lemma InboxIsTaken(db: Db, agent: string, now: int, limit: int)
    requires MailSound(db)
    ensures var snapshot := Bus.Inbox(db.messages, agent, now, limit);
            && Taken(db, agent, snapshot) && (0 <= limit ==> |snapshot| <= limit)
            && (forall i :: 0 <= i < |snapshot| ==> !PastDeadline(snapshot[i], now))
  {
    hide Get, Queue, Visible, Ordered;
    var queue := Queue(db.messages, agent);
    QueueMembers(db.messages, agent);
    QueueDistinct(db.messages, agent);
    var taken := Limit(queue, limit);
    assert forall x :: x in taken ==> x in queue;
    VisibleMembers(taken, now);
    var snapshot := Visible(taken, now);
    forall i | 0 <= i < |snapshot|
      ensures Get(db.messages, snapshot[i].id) == Some(snapshot[i])
      ensures snapshot[i].status.Queued? && snapshot[i].recipient == agent && !PastDeadline(snapshot[i], now)
    {
      assert snapshot[i] in db.messages;
      var k :| 0 <= k < |db.messages| && db.messages[k] == snapshot[i];
      GetAt(db.messages, k);
    }
  }

  /** Every delivery a pump takes ends done, dead, or queued with exactly one more attempt. */
  lemma SnapshotSettles(w: World, db: Db, agent: string, limit: int, i: nat)
    requires MailSound(db) && agent in w.env.roster
    requires i < |Bus.Inbox(db.messages, agent, w.now, limit)|
    ensures var m := Bus.Inbox(db.messages, agent, w.now, limit)[i];
            var r := Get(ProcessInbox(w, db, agent, limit).value.messages, m.id);
            && r.Some?
            && match r.value.status
               case Done => r.value == m.(status := Done) && !Raised(w, db.rows, agent, m)
               case Dead => r.value.attempts in {m.attempts, m.maxAttempts}
               case Queued => r.value == m.(attempts := m.attempts + 1, error := Some(HANDLER_ERROR))
                              && m.attempts + 1 < m.maxAttempts && Raised(w, db.rows, agent, m)
               case Expired => false
  {
    hide Get, Queue, Visible, Answered, Raised;
    InboxIsTaken(db, agent, w.now, limit);
    PumpEffect(w, db, agent, Bus.Inbox(db.messages, agent, w.now, limit));
    GetSound(db, Bus.Inbox(db.messages, agent, w.now, limit)[i].id);
  }

  // ---- One reply per request ---------------------------------------------------------------

  /** Row `id` answers row `q`. */
  predicate RepliesTo(rows: seq<Message>, id: nat, q: nat) {
    Get(rows, id).Some? && Get(rows, id).value.replyTo == Some(q)
  }

  predicate Closed(rows: seq<Message>, q: nat) {
    Get(rows, q).None? || Get(rows, q).value.status.Done?
  }

  /** No delivery has two replies, and one that has a reply is done or pruned. */
  ghost predicate OneReply(db: Db) {
    && (forall id: nat, q: nat :: RepliesTo(db.messages, id, q) ==>
          q < id && Closed(db.messages, q))
    && (forall a: nat, b: nat, q: nat ::
          RepliesTo(db.messages, a, q) && RepliesTo(db.messages, b, q) ==> a == b)
  }

  lemma StepKeepsOneReply(env: Env, db: Db, op: BusOp)
    requires MailSound(db) && OneReply(db) && (op.SendOp? ==> op.letter.replyTo.None?)
    ensures OneReply(BusStep(env, db, op))
  {
    hide MailSound, BusStep;
    var next := BusStep(env, db, op);
    StepMoves(env, db, op);
    StepSettles(env, db, op);
    forall id: nat, q: nat | RepliesTo(next.messages, id, q)
      ensures RepliesTo(db.messages, id, q) && q < db.issued
    {
      if op.SendOp? {
        PlainRow(env, db, op.now, op.letter, id);
      } else {
        ReplyToStays(op, db.issued, Get(db.messages, id), Get(next.messages, id));
      }
      IdIssued(db, id);
    }
  }

  lemma ReplyToStays(op: BusOp, issued: nat, before: Option<Message>, after: Option<Message>)
    requires Allowed(op, issued, before, after) && !op.SendOp?
    ensures after.Some? ==> before.Some? && before.value.replyTo == after.value.replyTo
  {}

  lemma IdIssued(db: Db, id: nat)
    requires MailSound(db)
    ensures Get(db.messages, id).Some? ==> id < db.issued
  {
    GetSound(db, id);
  }

  /** A plain letter's rows answer nothing, and the other rows stay. */
  lemma PlainRow(env: Env, db: Db, now: int, l: Letter, id: nat)
    requires MailSound(db) && l.replyTo.None?
    ensures var r := Get(BusStep(env, db, SendOp(now, l)).messages, id);
            r == Get(db.messages, id) || (r.Some? && r.value.replyTo.None?)
  {
    hide MailSound, Get, LetterOk;
    if LetterOk(env.roster, now, l) {
      SendSound(env, db, now, l);
      var after := BusStep(env, db, SendOp(now, l));
      if after.issued <= id {
        IdIssued(after, id);
      }
    }
  }

  lemma HandleOneKeepsOneReply(w: World, db: Db, agent: string, m: Message)
    requires MailSound(db) && OneReply(db) && Get(db.messages, m.id) == Some(m) && m.status.Queued?
    requires m.recipient == agent && agent in w.env.roster
    ensures OneReply(HandleOne(w, db, agent, m))
  {
    hide MailSound, HandleOne, Answered, Raised;
    HandleOneEffect(w, db, agent, m);
    var next := HandleOne(w, db, agent, m);
    forall id: nat ensures Get(next.messages, id).Some? ==> id < next.issued {
      IdIssued(next, id);
    }
    IdIssued(db, m.id);
    AnsweredIsDone(w, db.rows, agent, m);
    forall id: nat, q: nat | RepliesTo(next.messages, id, q)
      ensures if id < db.issued then RepliesTo(db.messages, id, q) else id == db.issued && q == m.id
      ensures q < id && Closed(next.messages, q)
    {
      IdIssued(next, id);
    }
    assert !exists id: nat :: RepliesTo(db.messages, id, m.id);
  }

  lemma AnsweredIsDone(w: World, rows: seq<Row>, agent: string, m: Message)
    ensures Answered(w, rows, agent, m) ==> Aftermath(w, rows, agent, m).status.Done?
  {}

  lemma {:induction false} PumpKeepsOneReply(w: World, db: Db, agent: string, snapshot: seq<Message>)
    requires MailSound(db) && OneReply(db) && Taken(db, agent, snapshot) && agent in w.env.roster
    ensures OneReply(Pump(w, db, agent, snapshot))
    decreases |snapshot|
  {
    hide MailSound, Get, OneReply, HandleOne;
    if snapshot != [] {
      var next := HandleOne(w, db, agent, snapshot[0]);
      HandleOneEffect(w, db, agent, snapshot[0]);
      HandleOneKeepsOneReply(w, db, agent, snapshot[0]);
      forall i | 0 <= i < |snapshot| ensures snapshot[i].id < db.issued {
        IdIssued(db, snapshot[i].id);
      }
      PumpKeepsOneReply(w, next, agent, snapshot[1..]);
    }
  }
}
