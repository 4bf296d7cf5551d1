/**
 One reply per request over whole runs: not only at any one time, but ever.
 */
module ReplyRuns {
  import opened Tables
  import opened Bus
  import opened Lifecycle
  import opened Inbox
  import opened Purchase
  import opened QuorumRuns

  /** A delivery that is done or gone stays so. */
  lemma ClosedStays(s: Desk, d: Deed, q: nat)
    requires DeskSound(s) && q < s.db.issued && Closed(s.db.messages, q)
    ensures Closed(Step(s, d).db.messages, q)
  {
    hide Get, MailSound, OneReply, MailKnown, RentKnown, BusStep, PumpResult, Operate, OpensVote;
    match d {
      case BusDeed(env, op) => StepSettles(env, s.db, op);
      case PumpDeed(w, agent) =>
        if agent in w.env.roster { PumpLeavesClosed(w, s.db, agent, q); } else { Unknown(w, s.db, agent); }
      case PostDeed(_) =>
      case OperateDeed(w, cut) =>
        OperateMail(w, s.db, cut);
        StepSettles(w.env, s.db, SendOp(w.now, RequestLetter(w)));
    }
  }

  lemma PumpLeavesClosed(w: World, db: Db, agent: string, q: nat)
    requires MailSound(db) && agent in w.env.roster && q < db.issued && Closed(db.messages, q)
    ensures Closed(PumpResult(w, db, agent).messages, q)
  {
    hide Get, Bus.Inbox, MailSound, Answered, Raised;
    var snapshot := Bus.Inbox(db.messages, agent, w.now, MAX_MESSAGES);
    InboxIsTaken(db, agent, w.now, MAX_MESSAGES);
    PumpEffect(w, db, agent, snapshot);
    forall i | 0 <= i < |snapshot| ensures snapshot[i].id != q {
      assert Get(db.messages, snapshot[i].id) == Some(snapshot[i]);
    }
  }

  /** A reply is only ever sent to a delivery that is still queued. */
  lemma NewReplyOpensNothing(s: Desk, d: Deed, b: nat, q: nat)
    requires DeskSound(s) && AdmissibleDeed(d)
    requires RepliesTo(Step(s, d).db.messages, b, q) && !RepliesTo(s.db.messages, b, q)
    ensures Get(s.db.messages, q).Some? && Get(s.db.messages, q).value.status.Queued?
  {
    hide Get, MailSound, OneReply, MailKnown, RentKnown, BusStep, PumpResult, Operate, OpensVote, IsReply;
    match d {
      case BusDeed(env, op) =>
        if op.SendOp? { PlainVote(env, s.db, op.now, op.letter, b); }
        else {
          StepMoves(env, s.db, op);
          ReplyToStays(op, s.db.issued, Get(s.db.messages, b), Get(Step(s, d).db.messages, b));
        }
      case PumpDeed(w, agent) =>
        if agent in w.env.roster {
          PumpOrigin(w, s.db, agent, b);
          RepliedWasQueued(w, s.db, agent, b, q);
        } else { Unknown(w, s.db, agent); }
      case PostDeed(_) =>
      case OperateDeed(w, cut) =>
        OperateMail(w, s.db, cut);
        PlainVote(w.env, s.db, w.now, RequestLetter(w), b);
    }
  }

  lemma RepliedWasQueued(w: World, db: Db, agent: string, b: nat, q: nat)
    requires MailSound(db) && agent in w.env.roster
    requires IsReply(w, db.rows, agent, Bus.Inbox(db.messages, agent, w.now, MAX_MESSAGES),
                     Get(PumpResult(w, db, agent).messages, b), b)
    requires RepliesTo(PumpResult(w, db, agent).messages, b, q)
    ensures Get(db.messages, q).Some? && Get(db.messages, q).value.status.Queued?
  {
    hide Get, Bus.Inbox, MailSound, PumpResult;
    InboxIsTaken(db, agent, w.now, MAX_MESSAGES);
  }

  lemma ReplyCloses(s: Desk, a: nat, q: nat)
    requires DeskSound(s) && RepliesTo(s.db.messages, a, q)
    ensures Closed(s.db.messages, q) && q < s.db.issued
    ensures forall b: nat :: RepliesTo(s.db.messages, b, q) ==> a == b
  {
    hide Get, MailSound, MailKnown, RentKnown;
    IdIssued(s.db, a);
  }

  lemma {:induction false} NoLaterReply(ds: seq<Deed>, j: nat, k: nat, a: nat, q: nat)
    requires AdmissibleDeeds(ds) && j <= k <= |ds| && RepliesTo(At(EMPTY_DESK, ds, j).db.messages, a, q)
    ensures Closed(At(EMPTY_DESK, ds, k).db.messages, q) && q < At(EMPTY_DESK, ds, k).db.issued
    ensures forall b: nat :: RepliesTo(At(EMPTY_DESK, ds, k).db.messages, b, q) ==> a == b
    decreases k
  {
    hide Get, Step, DeskSound, AdmissibleDeed, RepliesTo, Closed;
    EmptyDeskSound();
    RunKeepsDesk(EMPTY_DESK, ds, k);
    var s := At(EMPTY_DESK, ds, k);
    if j == k {
      ReplyCloses(s, a, q);
    } else {
      RunKeepsDesk(EMPTY_DESK, ds, k - 1);
      var before := At(EMPTY_DESK, ds, k - 1);
      NoLaterReply(ds, j, k - 1, a, q);
      ClosedStays(before, ds[k - 1], q);
      StepKeepsDesk(before, ds[k - 1]);
      forall b: nat | RepliesTo(s.db.messages, b, q) ensures a == b {
        if !RepliesTo(before.db.messages, b, q) {
          NewReplyOpensNothing(before, ds[k - 1], b, q);
          QueuedIsNotClosed(before.db.messages, q);
        }
      }
    }
  }

  lemma QueuedIsNotClosed(rows: seq<Message>, q: nat)
    ensures !(Closed(rows, q) && Get(rows, q).Some? && Get(rows, q).value.status.Queued?)
  {}

  /** No request is ever answered twice in a run, even when the first reply has been pruned by then. */
  lemma OneReplyEver(ds: seq<Deed>, j: nat, k: nat, a: nat, b: nat, q: nat)
    requires AdmissibleDeeds(ds) && j <= |ds| && k <= |ds|
    requires RepliesTo(At(EMPTY_DESK, ds, j).db.messages, a, q) && RepliesTo(At(EMPTY_DESK, ds, k).db.messages, b, q)
    ensures a == b
  {
    hide Step, RepliesTo, AdmissibleDeed;
    if j <= k {
      NoLaterReply(ds, j, k, a, q);
    } else {
      NoLaterReply(ds, k, j, b, q);
    }
  }
}
