/**
 The message bus as values: sending, the status transitions of one delivery, expiry, pruning, and the
 views agents read.
 */
module Bus {
  import opened Tables

  const MAX_ATTEMPTS_CEILING := 10
  const KIND_MAX_LEN := 64
  const REPLY_SUFFIX := ".reply"

  // ---- Kinds -------------------------------------------------------------------------------

  predicate KindChar(c: char) {
    'a' <= c <= 'z' || '0' <= c <= '9' || c == '_' || c == '.'
  }

  /** A lower-case letter followed by at most 63 letters, digits, underscores and dots. */
  predicate KindCore(kind: string) {
    && 0 < |kind| <= KIND_MAX_LEN && 'a' <= kind[0] <= 'z'
    && forall i :: 0 <= i < |kind| ==> KindChar(kind[i])
  }

  predicate EndsInNewline(kind: string) {
    kind != "" && kind[|kind| - 1] == '\n'
  }

  /** What the pattern accepts: its `$` also matches before one final newline. */
  predicate KindOk(kind: string) {
    KindCore(kind) || (EndsInNewline(kind) && KindCore(kind[..|kind| - 1]))
  }

  function StripDots(kind: string): string {
    if kind != "" && kind[|kind| - 1] in {'.', '_'} then StripDots(kind[..|kind| - 1]) else kind
  }

  /** `_default_reply_kind`: append the suffix, shortening the kind to make room. */
  function DefaultReplyKind(kind: string): Option<string> {
    var candidate :=
      if |kind| + |REPLY_SUFFIX| > KIND_MAX_LEN
      then StripDots(kind[..KIND_MAX_LEN - |REPLY_SUFFIX|]) + REPLY_SUFFIX
      else kind + REPLY_SUFFIX;
    if KindOk(candidate) then Some(candidate) else None
  }

  lemma {:induction false} StripDotsPrefix(kind: string)
    requires kind != "" && 'a' <= kind[0] <= 'z'
    ensures 0 < |StripDots(kind)| <= |kind| && StripDots(kind) == kind[..|StripDots(kind)|]
  {
    if kind[|kind| - 1] in {'.', '_'} {
      StripDotsPrefix(kind[..|kind| - 1]);
    }
  }

  /** Every accepted kind has a reply kind, except a short one with a trailing newline. */
  lemma ReplyKindExists(kind: string)
    requires KindOk(kind)
    ensures DefaultReplyKind(kind).None? <==> EndsInNewline(kind) && |kind| + |REPLY_SUFFIX| <= KIND_MAX_LEN
    ensures DefaultReplyKind(kind).Some? ==> KindCore(DefaultReplyKind(kind).value)
  {
    var core := if EndsInNewline(kind) then kind[..|kind| - 1] else kind;
    assert KindCore(core) && |core| <= |kind| <= |core| + 1;
    if |kind| + |REPLY_SUFFIX| > KIND_MAX_LEN {
      var cut := kind[..KIND_MAX_LEN - |REPLY_SUFFIX|];
      assert cut == core[..|cut|];
      StripDotsPrefix(cut);
      assert KindCore(StripDots(cut) + REPLY_SUFFIX);
    } else {
      var candidate := kind + REPLY_SUFFIX;
      assert candidate[|candidate| - 1] == 'y';
      if EndsInNewline(kind) {
        assert candidate[|kind| - 1] == '\n';
      } else {
        assert KindCore(candidate);
      }
    }
  }

  /** One of them: `"ping"` and a newline. */
  lemma NewlineKindHasNoReply()
    ensures KindOk("ping\n") && DefaultReplyKind("ping\n").None?
  {
    assert KindCore("ping") && "ping\n"[..4] == "ping";
    ReplyKindExists("ping\n");
  }

  // ---- Rows --------------------------------------------------------------------------------

  function Get(rows: seq<Message>, id: nat): Option<Message> {
    if rows == [] then None else if rows[0].id == id then Some(rows[0]) else Get(rows[1..], id)
  }

  predicate RowSound(m: Message, issued: nat) {
    && m.id < issued
    && 1 <= m.maxAttempts <= MAX_ATTEMPTS_CEILING
    && (m.status.Queued? ==> m.attempts < m.maxAttempts)
  }

  predicate Distinct(rows: seq<Message>) {
    forall i, j :: 0 <= i < j < |rows| ==> rows[i].id != rows[j].id
  }

  /** Ids are unique and already issued, and a queued row still has an attempt left. */
  predicate TableSound(rows: seq<Message>, issued: nat) {
    && Distinct(rows)
    && (forall i :: 0 <= i < |rows| ==> RowSound(rows[i], issued))
  }

  /** Rows come in query order. */
  predicate Ordered(rows: seq<Message>) {
    forall i, j :: 0 <= i < j < |rows| ==> !Before(rows[j], rows[i])
  }

  lemma {:induction false} GetAt(rows: seq<Message>, i: nat)
    requires i < |rows| && Distinct(rows)
    ensures Get(rows, rows[i].id) == Some(rows[i])
  {
    if i > 0 {
      assert rows[0].id != rows[i].id;
      GetAt(rows[1..], i - 1);
    }
  }

  lemma {:induction false} GetIndex(rows: seq<Message>, id: nat) returns (i: nat)
    ensures i <= |rows|
    ensures Get(rows, id) == if i < |rows| then Some(rows[i]) else None
    ensures i < |rows| ==> rows[i].id == id
    ensures i == |rows| ==> forall j :: 0 <= j < |rows| ==> rows[j].id != id
  {
    if rows == [] || rows[0].id == id {
      i := 0;
    } else {
      var i' := GetIndex(rows[1..], id);
      i := i' + 1;
    }
  }

  // ---- Sending -----------------------------------------------------------------------------

  datatype Letter = Letter(
    sender: string, recipients: seq<string>, kind: string, payload: Payload, thread: Option<nat>,
    correlation: Option<nat>, replyTo: Option<nat>, expectsReply: bool, deadline: Option<int>, maxAttempts: int)

  /** Recipients in order, each once. */
  function Deduped(recipients: seq<string>): seq<string> {
    if recipients == [] then []
    else
      var rest := Deduped(recipients[..|recipients| - 1]);
      var last := recipients[|recipients| - 1];
      if last in rest then rest else rest + [last]
  }

  predicate LetterOk(roster: set<string>, now: int, l: Letter) {
    && l.sender in roster && l.recipients != []
    && (forall i :: 0 <= i < |l.recipients| ==> l.recipients[i] in roster)
    && KindOk(l.kind)
    && (l.deadline.Some? ==> now < l.deadline.value)
    && 1 <= l.maxAttempts <= MAX_ATTEMPTS_CEILING
  }

  function Or(given: Option<nat>, otherwise: nat): nat {
    if given.Some? then given.value else otherwise
  }

  /**
   The rows of one fan-out: a fresh queued delivery per recipient. A thread or correlation the caller does
   not give is fresh too, so it is numbered like the first message of the fan-out.
   */
  function Deliveries(l: Letter, targets: seq<string>, now: int, issued: nat, tie: nat -> nat): seq<Message>
    requires 1 <= l.maxAttempts
  {
    seq(|targets|, i requires 0 <= i < |targets| =>
      Message(issued + i, tie(issued + i), now, Or(l.thread, issued), Or(l.correlation, issued), l.sender, targets[i],
              l.kind, l.payload, Queued, l.expectsReply, l.replyTo, l.deadline, 0, l.maxAttempts, None))
  }

  /** `send`. */
  function Send(roster: set<string>, tie: nat -> nat, db: Db, now: int, l: Letter): Result<Db> {
    if !LetterOk(roster, now, l) then Err(ValueError)
    else Ok(Apply(InsertMessages(Deliveries(l, Deduped(l.recipients), now, db.issued, tie)), db))
  }

  /** `reply`: one delivery back to the sender, on the request's thread and correlation. */
  function ReplyLetter(original: Message, sender: string, payload: Payload, kind: Option<string>): Result<Letter> {
    if original.replyTo.Some? || sender != original.recipient then Err(ValueError)
    else
      var replyKind := if kind.Some? then kind else DefaultReplyKind(original.kind);
      if replyKind.None? then Err(ValueError)
      else Ok(Letter(sender, [original.sender], replyKind.value, payload, Some(original.thread), Some(original.correlation),
                     Some(original.id), false, None, 3))
  }

  function Reply(roster: set<string>, tie: nat -> nat, db: Db, now: int, original: Message, sender: string,
                 payload: Payload, kind: Option<string>): Result<Db>
  {
    var letter := ReplyLetter(original, sender, payload, kind);
    if letter.Err? then Err(letter.error) else Send(roster, tie, db, now, letter.value)
  }

  // ---- Transitions of one delivery ---------------------------------------------------------

  function Change(db: Db, m: Message, status: MessageStatus, attempts: nat, error: Option<string>): Db {
    Apply(UpdateMessage(m.id, status, attempts, error), db)
  }

  function Ack(db: Db, id: nat): Result<Db> {
    var m := Get(db.messages, id);
    if m.None? then Err(KeyError)
    else if !m.value.status.Queued? then Err(ValueError)
    else Ok(Change(db, m.value, Done, m.value.attempts, m.value.error))
  }

  function Fail(db: Db, id: nat, error: string): Result<Db> {
    var m := Get(db.messages, id);
    if m.None? then Err(KeyError)
    else if !m.value.status.Queued? then Err(ValueError)
    else
      var attempts := m.value.attempts + 1;
      Ok(Change(db, m.value, if attempts >= m.value.maxAttempts then Dead else Queued, attempts, Some(error)))
  }

  function DeadLetter(db: Db, id: nat, reason: string): Result<Db> {
    var m := Get(db.messages, id);
    if m.None? then Err(KeyError)
    else if !m.value.status.Queued? then Err(ValueError)
    else Ok(Change(db, m.value, Dead, m.value.attempts, Some(reason)))
  }

  function Requeue(db: Db, id: nat): Result<Db> {
    var m := Get(db.messages, id);
    if m.None? then Err(KeyError)
    else if !(m.value.status.Dead? || m.value.status.Expired?) then Err(ValueError)
    else Ok(Change(db, m.value, Queued, 0, None))
  }

  // ---- Sweeps ------------------------------------------------------------------------------

  predicate PastDeadline(m: Message, now: int) {
    m.deadline.Some? && m.deadline.value < now
  }

  function Expire(m: Message, now: int): Message {
    if m.status.Queued? && PastDeadline(m, now) then m.(status := Expired) else m
  }

  function ExpireRows(rows: seq<Message>, now: int): seq<Message> {
    seq(|rows|, i requires 0 <= i < |rows| => Expire(rows[i], now))
  }

  /** `expire_due`: every queued row past its deadline becomes expired. */
  function ExpireDue(db: Db, now: int): Db {
    db.(messages := ExpireRows(db.messages, now))
  }

  /** `prune`: drop settled rows older than the horizon; asking to prune queued rows is an error. */
  function Prune(db: Db, now: int, age: int, statuses: set<MessageStatus>): Result<Db> {
    if statuses == {} || Queued in statuses || age < 0 then Err(ValueError)
    else Ok(Apply(DeleteMessages(statuses, now - age), db))
  }

  // ---- Views -------------------------------------------------------------------------------

  /** Queued deliveries of one agent, in query order. */
  function Queue(rows: seq<Message>, agent: string): seq<Message> {
    if rows == [] then []
    else (if rows[0].recipient == agent && rows[0].status.Queued? then [rows[0]] else []) + Queue(rows[1..], agent)
  }

  function Visible(rows: seq<Message>, now: int): seq<Message> {
    if rows == [] then []
    else (if PastDeadline(rows[0], now) then [] else [rows[0]]) + Visible(rows[1..], now)
  }

  /** SQL LIMIT: a negative limit is no limit. */
  function Limit(rows: seq<Message>, limit: int): seq<Message> {
    if 0 <= limit < |rows| then rows[..limit] else rows
  }

  /** `inbox`: the first `limit` queued rows, less those past their deadline. */
  function Inbox(rows: seq<Message>, agent: string, now: int, limit: int): seq<Message> {
    Visible(Limit(Queue(rows, agent), limit), now)
  }

  /** `replies`: rows of the correlation that answer something. */
  function Replies(rows: seq<Message>, correlation: nat): seq<Message> {
    if rows == [] then []
    else (if rows[0].correlation == correlation && rows[0].replyTo.Some? then [rows[0]] else [])
         + Replies(rows[1..], correlation)
  }

  /** `outstanding`: queued rows of the correlation that still expect a reply. */
  function Outstanding(rows: seq<Message>, correlation: nat): nat {
    if rows == [] then 0
    else (if rows[0].correlation == correlation && rows[0].status.Queued? && rows[0].expectsReply then 1 else 0)
         + Outstanding(rows[1..], correlation)
  }

  // ---- Lazy hiding equals eager sweeping ---------------------------------------------------

  /** After the sweep the queue is what the inbox would have shown before it. */
  lemma {:induction false} SweptQueue(rows: seq<Message>, agent: string, now: int)
    ensures Queue(ExpireRows(rows, now), agent) == Visible(Queue(rows, agent), now)
  {
    if rows != [] {
      assert ExpireRows(rows, now)[1..] == ExpireRows(rows[1..], now);
      SweptQueue(rows[1..], agent, now);
      var rest := Queue(rows[1..], agent);
      var head := if rows[0].recipient == agent && rows[0].status.Queued? then [rows[0]] else [];
      assert head == [] ==> head + rest == rest;
      assert head != [] ==> (head + rest)[1..] == rest;
      var swept := ExpireRows(rows, now);
      assert [] + Queue(swept[1..], agent) == Queue(swept[1..], agent);
      assert [] + Visible(rest, now) == Visible(rest, now);
    }
  }

  lemma {:induction false} VisibleOfPrefix(rows: seq<Message>, now: int, k: nat)
    requires k <= |rows|
    ensures Visible(rows[..k], now) <= Visible(rows, now)
    ensures |Visible(rows[..k], now)| <= k
  {
    if k > 0 {
      assert rows[..k][1..] == rows[1..][..k - 1];
      VisibleOfPrefix(rows[1..], now, k - 1);
    }
  }

  lemma {:induction false} VisibleIdempotent(rows: seq<Message>, now: int)
    ensures Visible(Visible(rows, now), now) == Visible(rows, now)
  {
    if rows != [] {
      VisibleIdempotent(rows[1..], now);
      var rest := Visible(rows[1..], now);
      assert [] + rest == rest;
      assert ([rows[0]] + rest)[1..] == rest;
    }
  }

  /**
   Hiding past-deadline rows in a read is as good as sweeping them first: without a limit the two inboxes
   are equal, and under a limit the unswept one is a prefix of the swept one.
   */
  lemma LazyHidingIsEagerSweeping(db: Db, agent: string, now: int, limit: int)
    ensures Inbox(db.messages, agent, now, limit) <= Inbox(ExpireDue(db, now).messages, agent, now, limit)
    ensures limit < 0 ==> Inbox(db.messages, agent, now, limit) == Inbox(ExpireDue(db, now).messages, agent, now, limit)
  {
    assert ExpireDue(db, now).messages == ExpireRows(db.messages, now);
    SweptQueue(db.messages, agent, now);
    var queue := Queue(db.messages, agent);
    var swept := Visible(queue, now);
    VisibleIdempotent(queue, now);
    var k := if 0 <= limit < |queue| then limit else |queue|;
    assert Limit(queue, limit) == queue[..k];
    VisibleOfPrefix(queue, now, k);
    assert queue[..|queue|] == queue;
    assert swept[..|swept|] == swept;
    VisibleOfPrefix(queue, now, |queue|);
    var l := if 0 <= limit < |swept| then limit else |swept|;
    VisibleOfVisiblePrefix(queue, now, l);
  }

  lemma {:induction false} VisibleAllVisible(rows: seq<Message>, now: int)
    requires forall i :: 0 <= i < |rows| ==> !PastDeadline(rows[i], now)
    ensures Visible(rows, now) == rows
  {
    if rows != [] {
      VisibleAllVisible(rows[1..], now);
    }
  }

  lemma {:induction false} NoneHidden(rows: seq<Message>, now: int)
    ensures forall i :: 0 <= i < |Visible(rows, now)| ==> !PastDeadline(Visible(rows, now)[i], now)
  {
    if rows != [] {
      NoneHidden(rows[1..], now);
    }
  }

  lemma VisibleOfVisiblePrefix(rows: seq<Message>, now: int, k: nat)
    requires k <= |Visible(rows, now)|
    ensures Visible(Visible(rows, now)[..k], now) == Visible(rows, now)[..k]
  {
    NoneHidden(rows, now);
    VisibleAllVisible(Visible(rows, now)[..k], now);
  }
}
