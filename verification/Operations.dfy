/** The calls a handler makes, one atomic action each: single statements on the database, the
    two-row ledger transaction, and the questions to the vendor and the funding engine. */
module Operations {
  import opened States
  import opened Tables
  import opened Ledger
  import opened Funding

  datatype Error =
    | Unavailable         // the call failed, or its reply was lost
    | OptimisticLock      // UPDATE ... WHERE state = from matched no row
    | UnknownMemo
    | ConstraintViolation // CHECK, UNIQUE or FOREIGN KEY
    | NotFound
    | InvalidTransition
    | NotReviewable
    | InvalidReturnState
    | BadAmount

  datatype Call =
    | LookUpAccount(account: AccountId)
    | CreateTransfer(account: AccountId, omnibus: AccountId, correspondent: CorrespondentId, amount: int)
    | GetTransfer(t: TransferId)
    | UpdateState(t: TransferId, from: State, to: State)
    | WriteEvent(t: TransferId, step: Step)
    | SetReviewReason(t: TransferId, code: Code)
    | SetErrorCode(t: TransferId, code: Code)
    | SetContribution(t: TransferId, contribution: Contribution)
    | SetVssResults(t: TransferId, micr: Option<Micr>)
    | Post(pair: Pair)
    | GetBalance(account: AccountId)
    | SetAccountStatus(account: AccountId, status: AccountStatus)
    | GetBatchStatus(b: BatchId)
    | GetLinked(b: BatchId)
    | SetBatchStatus(b: BatchId, batchStatus: BatchStatus)
    | SetSettlementBatch(t: TransferId, b: BatchId, settledAt: Option<int>)
    | AskVendor
    | AskFunding(req: Request, correspondent: CorrespondentId)
    | GetFeeTerms
    | NoCall

  /** What the world outside the modelled tables contributes to a call. */
  datatype Answer =
    | NoAnswer
    | Config(config: RulesConfig)
    | Clock(now: int)
    | Vendor(answer: VssAnswer)
    | DuplicateCheck(dup: Duplicates)
    | FeeTerms(fee: int, feeAccount: AccountId)
    | Listing(ids: seq<TransferId>)

  /** A call may be refused before it takes effect, or take effect and lose its reply. */
  datatype Fault = NoFault | Refused | ReplyLost

  datatype Reply =
    | Done
    | Failed(error: Error)
    | Created(t: TransferId)
    | TheTransfer(row: Row)
    | TheAccount(
        accountType: AccountType, status: AccountStatus, correspondent: CorrespondentId,
        omnibus: AccountId, config: RulesConfig)
    | TheBalance(balance: int)
    | TheBatch(batchStatus: BatchStatus)
    | Linked(ids: seq<TransferId>)
    | VendorSays(answer: VssAnswer)
    | FundingSays(decision: Decision)
    | TheFee(fee: int, feeAccount: AccountId)

  /** UPDATE transfers SET state = to WHERE id = t AND state = from finds a row. */
  predicate LockHolds(db: Db, t: TransferId, from: State) {
    t < |db.rows| && db.rows[t].state == from
  }

  predicate PostCommits(db: Db, p: Pair) {
    Commits(|db.rows|, db.accounts.Keys, db.ledger, Entries(p, |db.ledger|))
  }

  /** A result of SELECT id FROM transfers WHERE settlement_batch_id = b ORDER BY submitted_at;
      rows submitted at the same instant come in any order. */
  predicate IsLinkedListing(rows: seq<Row>, b: BatchId, ids: seq<TransferId>) {
    && (forall i :: 0 <= i < |ids| ==> ids[i] < |rows| && rows[ids[i]].batch == Some(b))
    && (forall t: TransferId {:trigger t in ids} :: t < |rows| && rows[t].batch == Some(b) ==> t in ids)
    && (forall i, j :: 0 <= i < j < |ids| ==> ids[i] != ids[j])
    && (forall i, j :: 0 <= i < j < |ids| ==> rows[ids[i]].submittedAt <= rows[ids[j]].submittedAt)
  }

  /** Update one row; a statement that matches no row succeeds without effect. */
  function WithRow(db: Db, t: TransferId, row: Row): Db {
    if t < |db.rows| then db.(rows := db.rows[t := row]) else db
  }

  /** The row that INSERT INTO transfers makes. */
  function NewRow(account: AccountId, omnibus: AccountId, correspondent: CorrespondentId, amount: int, now: int): Row {
    Row(account, omnibus, correspondent, amount, now, Requested, None, None, Unspecified, None, None, None)
  }

  /** The effect of a call that goes through, and its reply. */
  function Perform(db: Db, call: Call, answer: Answer): (Db, Reply) {
    match call
    case LookUpAccount(a) =>
      if a in db.accounts && db.accounts[a].correspondent.Some?
         && db.accounts[a].correspondent.value in db.omnibusOf && answer.Config? then
        var c := db.accounts[a].correspondent.value;
        (db, TheAccount(db.accounts[a].accountType, db.accounts[a].status, c, db.omnibusOf[c], answer.config))
      else (db, Failed(NotFound))
    case CreateTransfer(a, o, c, amount) =>
      if ValidAmount(amount) && a in db.accounts && o in db.accounts && answer.Clock? then
        (db.(rows := db.rows + [NewRow(a, o, c, amount, answer.now)]), Created(|db.rows|))
      else (db, Failed(ConstraintViolation))
    case GetTransfer(t) =>
      if t < |db.rows| then (db, TheTransfer(db.rows[t])) else (db, Failed(NotFound))
    case UpdateState(t, from, to) =>
      if LockHolds(db, t, from) then (WithRow(db, t, db.rows[t].(state := to)), Done)
      else (db, Failed(OptimisticLock))
    case WriteEvent(t, step) =>
      if t < |db.rows| then (db.(events := db.events + [Event(t, step)]), Done)
      else (db, Failed(ConstraintViolation))
    case SetReviewReason(t, code) =>
      (if t < |db.rows| then WithRow(db, t, db.rows[t].(reviewReason := Some(code))) else db, Done)
    case SetErrorCode(t, code) =>
      (if t < |db.rows| then WithRow(db, t, db.rows[t].(errorCode := Some(code))) else db, Done)
    case SetContribution(t, contribution) =>
      (if t < |db.rows| then WithRow(db, t, db.rows[t].(contribution := contribution)) else db, Done)
    case SetVssResults(t, micr) =>
      (if t < |db.rows| then WithRow(db, t, db.rows[t].(micr := micr)) else db, Done)
    case Post(p) =>
      if PostCommits(db, p) then (db.(ledger := db.ledger + Entries(p, |db.ledger|)), Done)
      else (db, Failed(ConstraintViolation))
    case GetBalance(a) => (db, TheBalance(Balance(db.ledger, a)))
    case SetAccountStatus(a, status) =>
      (if a in db.accounts then db.(accounts := db.accounts[a := db.accounts[a].(status := status)]) else db, Done)
    case GetBatchStatus(b) =>
      if b < |db.batches| then (db, TheBatch(db.batches[b].status)) else (db, Failed(NotFound))
    case GetLinked(b) =>
      if answer.Listing? && IsLinkedListing(db.rows, b, answer.ids) then (db, Linked(answer.ids))
      else (db, Failed(Unavailable))
    case SetBatchStatus(b, status) =>
      (if b < |db.batches| then db.(batches := db.batches[b := db.batches[b].(status := status)]) else db, Done)
    case SetSettlementBatch(t, b, settledAt) =>
      if t < |db.rows| && b < |db.batches| then
        var row := db.rows[t].(batch := Some(b));
        (WithRow(db, t, if settledAt.Some? then row.(settledAt := settledAt) else row), Done)
      else if t < |db.rows| then (db, Failed(ConstraintViolation))
      else (db, Done)
    case AskVendor =>
      (db, if answer.Vendor? then VendorSays(answer.answer) else Failed(Unavailable))
    case AskFunding(req, c) =>
      var omnibus := if c in db.omnibusOf then Some(db.omnibusOf[c]) else None;
      var e := if answer.DuplicateCheck? then EvaluationOf(ENGINE_RULES, req, answer.dup, omnibus) else NoOmnibus;
      (db, if e.Decided? then FundingSays(e.decision) else Failed(Unavailable))
    case GetFeeTerms =>
      (db, if answer.FeeTerms? then TheFee(answer.fee, answer.feeAccount) else Failed(Unavailable))
    case NoCall => (db, Done)
  }

  /** The call with its fault. */
  function Execute(db: Db, call: Call, answer: Answer, fault: Fault): (Db, Reply) {
    match fault
    case NoFault => Perform(db, call, answer)
    case Refused => (db, Failed(Unavailable))
    case ReplyLost => (Perform(db, call, answer).0, Failed(Unavailable))
  }
}
