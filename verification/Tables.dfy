/**
 The tables of the firm's one transactional store, as values.

 A `Db` is everything a connection can read; a `Write` is one SQL statement the firm issues;
 `Apply` says what that statement does. All money is in integer cents, chain amounts are in
 USDC's six-decimal minor units, and time is an integer number of seconds.
 */
module Tables {

  datatype Option<+T> = None | Some(value: T)

  /** What an operation raises when it does not return. */
  datatype Error = KeyError | ValueError | StoreError

  datatype Result<+T> = Ok(value: T) | Err(error: Error) {
    predicate IsFailure() { Err? }
    function PropagateFailure<U>(): Result<U> requires Err? { Err(error) }
    function Extract(): T requires Ok? { value }
  }

  // ---- Ledger ------------------------------------------------------------------------------

  datatype Kind = AssetKind | LiabilityKind | IncomeKind | ExpenseKind | EquityKind

  /** A dotted account name, split at its prefix: `assets.usdc` is `Account(AssetKind, "usdc")`. */
  datatype Account = Account(kind: Kind, name: string)

  const CASH := Account(AssetKind, "cash_usd")
  const USDC := Account(AssetKind, "usdc")
  const TRADING_BOOK := Account(AssetKind, "trading_book")
  const RECEIVABLE := Account(AssetKind, "receivable")
  const UNEARNED := Account(LiabilityKind, "unearned")
  const LABOR := Account(IncomeKind, "labor")
  const TRADING_PAPER := Account(IncomeKind, "trading_paper")
  const INFRA := Account(ExpenseKind, "infra")

  datatype Row = Row(ts: int, debit: Account, credit: Account, cents: nat, memo: string)

  // ---- Invoices and jobs -------------------------------------------------------------------

  datatype InvoiceStatus = Open | Paid | Void

  datatype Invoice = Invoice(
    id: string, jobId: string, cents: int, account: Account, status: InvoiceStatus, memo: string, source: string)

  datatype Job = Job(status: string, cents: int, invoiceId: string)

  // ---- The payment watcher's record --------------------------------------------------------

  datatype Chain = Eth | Sol

  datatype Lot = Lot(number: int, minor: int, tainted: bool)

  datatype ChainState = ChainState(initialized: bool, balance: int, height: Option<int>, lots: seq<Lot>)

  datatype PayState = PayState(
    eth: ChainState, sol: ChainState, lotSequence: int, reserved: int, manual: int, auto: int)
  {
    function On(c: Chain): ChainState {
      match c case Eth => eth case Sol => sol
    }

    function With(c: Chain, cs: ChainState): PayState {
      match c case Eth => this.(eth := cs) case Sol => this.(sol := cs)
    }
  }

  datatype TxKey = TxKey(chain: Chain, txid: string)

  datatype TxRecord = TxRecord(minor: int, invoiceId: Option<string>)

  // ---- Messages, quorum and votes ----------------------------------------------------------

  datatype MessageStatus = Queued | Done | Expired | Dead

  datatype Value = Text(s: string) | Cents(n: int) | Flag(b: bool)

  type Payload = map<string, Value>

  /**
   One delivery. `id` counts the messages ever sent, standing for a fresh uuid; `tie` is where that uuid's
   text sorts among messages of the same time.
   */
  datatype Message = Message(
    id: nat, tie: nat, ts: int, thread: nat, correlation: nat, sender: string, recipient: string, kind: string,
    payload: Payload, status: MessageStatus, expectsReply: bool, replyTo: Option<nat>, deadline: Option<int>,
    attempts: nat, maxAttempts: nat, error: Option<string>)

  datatype Quorum = Quorum(correlation: nat, tick: nat, requested: int)

  datatype VoteRow = VoteRow(tick: nat, agent: string, choice: string)

  // ---- The database ------------------------------------------------------------------------

  datatype Db = Db(
    invoices: seq<Invoice>,           // in rowid order
    jobs: map<string, Job>,
    rows: seq<Row>,                   // the ledger, in rowid order
    pay: Option<PayState>,            // kv "payment_watch_v2"
    legacy: map<Chain, nat>,          // valid pre-v2 balances, kv "usdc_onchain_<chain>"
    txids: map<TxKey, TxRecord>,      // UNIQUE(chain, txid)
    messages: seq<Message>,           // in (ts, id text) order, the order every query uses
    issued: nat,                      // messages ever sent
    quorum: Option<Quorum>,           // kv "infra_quorum"
    bought: bool,                     // kv "vps_bought"
    votes: seq<VoteRow>)

  const EMPTY_DB := Db([], map[], [], None, map[], map[], [], 0, None, false, [])

  datatype Write =
    | UpsertInvoice(invoice: Invoice)
    | UpsertJob(jobId: string, job: Job)
    | PostRow(row: Row)
    | SetPay(pay: PayState)
    | RecordTxid(key: TxKey, record: TxRecord)
    | InsertMessages(messages: seq<Message>)
    | UpdateMessage(id: nat, status: MessageStatus, attempts: nat, error: Option<string>)
    | DeleteMessages(statuses: set<MessageStatus>, cutoff: int)
    | SetQuorum(quorum: Option<Quorum>)
    | SetBought
    | InsertVote(vote: VoteRow)

  function Apply(w: Write, db: Db): Db {
    match w
    case UpsertInvoice(inv) => db.(invoices := Upsert(db.invoices, inv))
    case UpsertJob(jobId, job) => db.(jobs := db.jobs[jobId := job])
    case PostRow(row) => db.(rows := db.rows + [row])
    case SetPay(pay) => db.(pay := Some(pay))
    case RecordTxid(key, record) => if key in db.txids then db else db.(txids := db.txids[key := record])
    case InsertMessages(ms) => db.(messages := InsertAll(db.messages, ms), issued := db.issued + |ms|)
    case UpdateMessage(id, status, attempts, error) =>
      db.(messages := Rewrite(db.messages, id, status, attempts, error))
    case DeleteMessages(statuses, cutoff) => db.(messages := Delete(db.messages, statuses, cutoff))
    case SetQuorum(q) => db.(quorum := q)
    case SetBought => db.(bought := true)
    case InsertVote(v) => db.(votes := db.votes + [v])
  }

  function ApplyAll(ws: seq<Write>, db: Db): Db {
    if ws == [] then db else ApplyAll(ws[1..], Apply(ws[0], db))
  }

  lemma {:induction false} ApplyAllConcat(a: seq<Write>, b: seq<Write>, db: Db)
    ensures ApplyAll(a + b, db) == ApplyAll(b, ApplyAll(a, db))
  {
    if a == [] {
      assert a + b == b;
    } else {
      assert (a + b)[0] == a[0] && (a + b)[1..] == a[1..] + b;
      ApplyAllConcat(a[1..], b, Apply(a[0], db));
    }
  }

  // ---- Row-level helpers -------------------------------------------------------------------

  /** INSERT ... ON CONFLICT(id) DO UPDATE: replace the row with that id in place, or append. */
  function Upsert(invoices: seq<Invoice>, inv: Invoice): seq<Invoice> {
    if invoices == [] then [inv]
    else if invoices[0].id == inv.id then [inv] + invoices[1..]
    else [invoices[0]] + Upsert(invoices[1..], inv)
  }

  /** Query order: ORDER BY ts ASC, id ASC. */
  predicate Before(a: Message, b: Message) {
    a.ts < b.ts || (a.ts == b.ts && a.tie < b.tie)
  }

  function Insert(messages: seq<Message>, m: Message): seq<Message> {
    if messages == [] then [m]
    else if Before(m, messages[0]) then [m] + messages
    else [messages[0]] + Insert(messages[1..], m)
  }

  function InsertAll(messages: seq<Message>, ms: seq<Message>): seq<Message>
    decreases |ms|
  {
    if ms == [] then messages else InsertAll(Insert(messages, ms[0]), ms[1..])
  }

  /** UPDATE messages SET status, attempts, error WHERE id. */
  function Rewrite(messages: seq<Message>, id: nat, status: MessageStatus, attempts: nat, error: Option<string>)
    : seq<Message>
  {
    seq(|messages|, i requires 0 <= i < |messages| =>
      if messages[i].id == id
      then messages[i].(status := status, attempts := attempts, error := error)
      else messages[i])
  }

  /** DELETE FROM messages WHERE status IN statuses AND ts < cutoff. */
  function Delete(messages: seq<Message>, statuses: set<MessageStatus>, cutoff: int): seq<Message> {
    if messages == [] then []
    else
      var rest := Delete(messages[1..], statuses, cutoff);
      if messages[0].status in statuses && messages[0].ts < cutoff then rest else [messages[0]] + rest
  }
}
