/**
 One reply per request over runs of the bus in which the database may fail during any pump, at any statement.
 */
module ReplyFaults {
  import opened Tables
  import opened Bus
  import opened Lifecycle
  import opened Inbox
  import opened Persistence
  import opened InboxFaults

  /** A bus operation, or a pump with the faults it meets. */
  datatype Beat =
    | OpBeat(env: Env, op: BusOp)
    | PumpBeat(w: World, agent: string, limit: int, writes: Faults, exits: Faults)

  function Snapshot(db: Db, b: Beat): seq<Message>
    requires b.PumpBeat?
  {
    if b.agent in b.w.env.roster then Bus.Inbox(db.messages, b.agent, b.w.now, b.limit) else []
  }

  function Next(db: Db, b: Beat): Db {
    match b
    case OpBeat(env, op) => BusStep(env, db, op)
    case PumpBeat(w, agent, _, writes, exits) => PumpUnder(w, Line(db, writes, exits), false, agent, Snapshot(db, b)).db
  }

  /** The store after the first `k` beats. */
  function At(bs: seq<Beat>, k: nat): Db
    requires k <= |bs|
  {
    if k == 0 then EMPTY_DB else Next(At(bs, k - 1), bs[k - 1])
  }

  /** Only handlers send replies. */
  predicate PlainBeat(b: Beat) {
    b.OpBeat? && b.op.SendOp? ==> b.op.letter.replyTo.None?
  }

  ghost predicate PlainBeats(bs: seq<Beat>) {
    forall i :: 0 <= i < |bs| ==> PlainBeat(bs[i])
  }

  /** A pump acknowledges every request it replies to. */
  predicate Acknowledges(db: Db, b: Beat) {
    b.PumpBeat? ==> NoneSlips(b.w, Line(db, b.writes, b.exits), b.agent, Snapshot(db, b))
  }

  // ---- One pump ----------------------------------------------------------------------------

  /** It touches no older row but those it took, and answers nothing else. */
  lemma {:induction false} PumpReach(w: World, l: Line, agent: string, snapshot: seq<Message>)
    requires MailSound(l.db) && Taken(l.db, agent, snapshot) && agent in w.env.roster
    ensures var after := PumpUnder(w, l, false, agent, snapshot).db;
            && MailSound(after) && l.db.issued <= after.issued
            && (forall id: nat :: id < l.db.issued && !InSnapshot(snapshot, id) ==>
                  Get(after.messages, id) == Get(l.db.messages, id))
            && (forall b: nat, q: nat :: RepliesTo(after.messages, b, q) && !RepliesTo(l.db.messages, b, q) ==>
                  InSnapshot(snapshot, q))
    decreases |snapshot|
  {
    hide MailSound, Get, HandleUnder, Taken, RepliesTo;
    if snapshot != [] {
      var m, rest, next := snapshot[0], snapshot[1..], HandleUnder(w, l, false, agent, snapshot[0]);
      TakenHead(l.db, agent, snapshot);
      HandleUnderEffect(w, l, agent, m);
      StillTaken(w, l, agent, snapshot);
      PumpReach(w, next, agent, rest);
      assert forall i :: 0 <= i < |rest| ==> rest[i] == snapshot[i + 1];
      assert forall id: nat :: InSnapshot(snapshot, id) <==> m.id == id || InSnapshot(rest, id) by {
        SnapshotHead(snapshot);
      }
      forall b: nat, q: nat | RepliesTo(next.db.messages, b, q) && !RepliesTo(l.db.messages, b, q) ensures q == m.id {
        HandleAnswers(w, l, agent, m, b, q);
      }
    }
  }

  lemma SnapshotHead(snapshot: seq<Message>)
    requires snapshot != []
    ensures forall id: nat :: InSnapshot(snapshot, id) <==> snapshot[0].id == id || InSnapshot(snapshot[1..], id)
  {
    forall id: nat | InSnapshot(snapshot[1..], id) ensures InSnapshot(snapshot, id) {
      var i :| 0 <= i < |snapshot[1..]| && snapshot[1..][i].id == id;
      assert snapshot[i + 1].id == id;
    }
    forall id: nat | InSnapshot(snapshot, id) && snapshot[0].id != id ensures InSnapshot(snapshot[1..], id) {
      var i :| 0 <= i < |snapshot| && snapshot[i].id == id;
      assert snapshot[1..][i - 1].id == id;
    }
  }

  /** A new reply answers the request being handled. */
  lemma HandleAnswers(w: World, l: Line, agent: string, m: Message, b: nat, q: nat)
    requires MailSound(l.db) && Get(l.db.messages, m.id) == Some(m) && m.status.Queued?
    requires m.recipient == agent && agent in w.env.roster
    requires RepliesTo(HandleUnder(w, l, false, agent, m).db.messages, b, q) && !RepliesTo(l.db.messages, b, q)
    ensures q == m.id
  {
    hide MailSound, Get, Answered, HandleUnder;
    if Answered(w, l.db.rows, agent, m) && !Strikes(l.writes) && !Strikes(l.exits) {
      AnsweredRow(w, l, agent, m);
      IdIssued(HandleUnder(w, l, false, agent, m).db, b);
    } else {
      UnansweredRow(w, l, agent, m);
    }
  }

  // ---- One beat ----------------------------------------------------------------------------

  lemma SnapshotTaken(db: Db, b: Beat)
    requires MailSound(db) && b.PumpBeat?
    ensures Taken(db, b.agent, Snapshot(db, b))
  {
    InboxIsTaken(db, b.agent, b.w.now, b.limit);
  }

  lemma NextSound(db: Db, b: Beat)
    requires MailSound(db)
    ensures MailSound(Next(db, b)) && db.issued <= Next(db, b).issued
  {
    hide MailSound, Get, BusStep, Bus.Inbox;
    match b {
      case OpBeat(env, op) => StepMoves(env, db, op);
      case PumpBeat(w, agent, _, writes, exits) =>
        SnapshotTaken(db, b);
        if agent in w.env.roster {
          PumpReach(w, Line(db, writes, exits), agent, Snapshot(db, b));
        }
    }
  }

  /** A beat keeps one reply per request if and only if it acknowledges what it answered. */
  lemma BeatKeepsOneReplyExactly(db: Db, b: Beat)
    requires MailSound(db) && OneReply(db) && PlainBeat(b)
    ensures OneReply(Next(db, b)) <==> Acknowledges(db, b)
  {
    hide MailSound, OneReply, BusStep, Bus.Inbox, Slips;
    match b {
      case OpBeat(env, op) => StepKeepsOneReply(env, db, op);
      case PumpBeat(w, agent, _, writes, exits) =>
        SnapshotTaken(db, b);
        if agent in w.env.roster {
          PumpKeepsOneReplyExactly(w, Line(db, writes, exits), agent, Snapshot(db, b));
        }
    }
  }

  /** What is closed stays closed, and what gets a new reply was queued until then. */
  lemma BeatKeepsClosed(db: Db, b: Beat, a: nat, q: nat)
    requires MailSound(db) && PlainBeat(b) && q < db.issued && Closed(db.messages, q)
    ensures Closed(Next(db, b).messages, q)
    ensures RepliesTo(Next(db, b).messages, a, q) ==> RepliesTo(db.messages, a, q)
  {
    hide MailSound, Get, BusStep, Bus.Inbox;
    match b {
      case OpBeat(env, op) =>
        StepSettles(env, db, op);
        OpAnswersNothing(env, db, op, a, q);
      case PumpBeat(w, agent, _, writes, exits) =>
        SnapshotTaken(db, b);
        ClosedNotTaken(db, agent, Snapshot(db, b), q);
        if agent in w.env.roster {
          PumpReach(w, Line(db, writes, exits), agent, Snapshot(db, b));
        }
    }
  }

  lemma OpAnswersNothing(env: Env, db: Db, op: BusOp, a: nat, q: nat)
    requires MailSound(db) && (op.SendOp? ==> op.letter.replyTo.None?)
    ensures RepliesTo(BusStep(env, db, op).messages, a, q) ==> RepliesTo(db.messages, a, q)
  {
    hide MailSound, Get, BusStep;
    if op.SendOp? {
      PlainRow(env, db, op.now, op.letter, a);
    } else {
      StepMoves(env, db, op);
      ReplyToStays(op, db.issued, Get(db.messages, a), Get(BusStep(env, db, op).messages, a));
    }
  }

  lemma ClosedNotTaken(db: Db, agent: string, snapshot: seq<Message>, q: nat)
    requires Taken(db, agent, snapshot) && Closed(db.messages, q)
    ensures !InSnapshot(snapshot, q)
  {
    hide Get;
    forall i | 0 <= i < |snapshot| ensures snapshot[i].id != q {
      assert Get(db.messages, snapshot[i].id) == Some(snapshot[i]);
    }
  }

  // ---- Runs --------------------------------------------------------------------------------

  lemma {:induction false} AtSound(bs: seq<Beat>, k: nat)
    requires k <= |bs|
    ensures MailSound(At(bs, k))
  {
    hide MailSound, Next;
    EmptyIsSound();
    if k > 0 {
      AtSound(bs, k - 1);
      NextSound(At(bs, k - 1), bs[k - 1]);
    }
  }

  /** The first `n` beats acknowledge what they answer. */
  ghost predicate AllAcknowledge(bs: seq<Beat>, n: nat)
    requires n <= |bs|
  {
    forall k :: 0 <= k < n ==> Acknowledges(At(bs, k), bs[k])
  }

  /**
   In every run, under any faults, every request has at most one reply at every point, and is done or pruned once it
   has one, if and only if every pump acknowledged every request it replied to.
   */
  lemma {:induction false} OneReplyExactly(bs: seq<Beat>, n: nat)
    requires PlainBeats(bs) && n <= |bs|
    ensures (forall k :: 0 <= k <= n ==> OneReply(At(bs, k))) <==> AllAcknowledge(bs, n)
    decreases n
  {
    hide OneReply, Acknowledges, Next, PlainBeat;
    if n == 0 {
      EmptyHasNoReplies();
    } else {
      OneReplyExactly(bs, n - 1);
      AtSound(bs, n - 1);
      assert AllAcknowledge(bs, n) <==> AllAcknowledge(bs, n - 1) && Acknowledges(At(bs, n - 1), bs[n - 1]);
      assert (forall k :: 0 <= k <= n ==> OneReply(At(bs, k)))
        <==> (forall k :: 0 <= k <= n - 1 ==> OneReply(At(bs, k))) && OneReply(At(bs, n));
      if OneReply(At(bs, n - 1)) {
        BeatKeepsOneReplyExactly(At(bs, n - 1), bs[n - 1]);
      }
    }
  }

  lemma EmptyHasNoReplies()
    ensures OneReply(EMPTY_DB)
  {}

  lemma {:induction false} AnsweredForGood(bs: seq<Beat>, j: nat, k: nat, a: nat, b: nat, q: nat)
    requires PlainBeats(bs) && j <= k <= |bs| && AllAcknowledge(bs, k)
    requires RepliesTo(At(bs, j).messages, a, q)
    ensures Closed(At(bs, k).messages, q) && q < At(bs, k).issued
    ensures RepliesTo(At(bs, k).messages, b, q) ==> a == b
    decreases k
  {
    hide Get, Acknowledges, Next, PlainBeat, RepliesTo, Closed, MailSound;
    AtSound(bs, k);
    if j == k {
      OneReplyExactly(bs, k);
      RepliedIsClosed(At(bs, k), a, b, q);
    } else {
      AtSound(bs, k - 1);
      AnsweredForGood(bs, j, k - 1, a, b, q);
      BeatKeepsClosed(At(bs, k - 1), bs[k - 1], b, q);
      NextSound(At(bs, k - 1), bs[k - 1]);
    }
  }

  lemma RepliedIsClosed(db: Db, a: nat, b: nat, q: nat)
    requires MailSound(db) && OneReply(db) && RepliesTo(db.messages, a, q)
    ensures Closed(db.messages, q) && q < db.issued
    ensures RepliesTo(db.messages, b, q) ==> a == b
  {
    hide MailSound, Get;
    IdIssued(db, a);
  }

  /**
   And then no request is answered twice at any two points of the run, pruned replies included: whatever faults
   the pumps meet, as long as none of them strikes between a reply and its acknowledgement.
   */
  lemma OneReplyEverUnderFaults(bs: seq<Beat>, j: nat, k: nat, a: nat, b: nat, q: nat)
    requires PlainBeats(bs) && j <= |bs| && k <= |bs| && AllAcknowledge(bs, |bs|)
    requires RepliesTo(At(bs, j).messages, a, q) && RepliesTo(At(bs, k).messages, b, q)
    ensures a == b
  {
    hide RepliesTo, PlainBeat, Acknowledges, Next;
    if j <= k {
      AnsweredForGood(bs, j, k, a, b, q);
    } else {
      AnsweredForGood(bs, k, j, b, a, q);
    }
  }
}
