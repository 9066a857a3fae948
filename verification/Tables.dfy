/** The database tables the handlers share (the migrations under db/migrations, internal/store/transfers.go,
    internal/ledger/interface.go).  Money is in whole cents.  A transfer, and a settlement batch,
    is named by its position in its table: the positions stand for the fresh UUIDs the database
    hands out. */
module Tables {
  import opened States

  datatype Option<+T> = None | Some(value: T)

  type AccountId = nat
  type TransferId = nat
  type BatchId = nat
  type CorrespondentId = string

  /** NUMERIC(12,2) in cents. */
  const NUMERIC_LIMIT := 1_000_000_000_000

  /** The valid_amount CHECK together with the column's precision. */
  predicate ValidAmount(cents: int) {
    0 < cents < NUMERIC_LIMIT
  }

  /** settlement_batches.total_amount is NUMERIC(14,2). */
  const BATCH_TOTAL_LIMIT := 100_000_000_000_000

  /** settlement_batches.record_count is an INT of 32 bits. */
  const BATCH_COUNT_LIMIT := 0x8000_0000

  /** A batch that the columns of settlement_batches can hold. */
  predicate FitsBatch(recordCount: nat, totalAmount: int) {
    recordCount < BATCH_COUNT_LIMIT && totalAmount < BATCH_TOTAL_LIMIT
  }

  datatype AccountStatus = Active | Suspended | Collections

  datatype AccountType = IndividualAccount | IraAccount | OmnibusAccount | FeeAccount

  datatype Account = Account(accountType: AccountType, status: AccountStatus, correspondent: Option<CorrespondentId>)

  /** error_code and review_reason values; NoCode is the empty string. */
  datatype Code =
    | NoCode
    | VssIqaBlur
    | VssIqaGlare
    | VssDuplicateDetected
    | VssMicrReadFail
    | VssAmountMismatch
    | FsAccountIneligible
    | FsOverDepositLimit
    | FsDuplicateDeposit
    | OperatorReason(text: string)

  datatype Contribution = Unspecified | IndividualContribution | OtherContribution(name: string)

  datatype Micr = Micr(routing: string, account: string, checkNumber: string)

  /** One row of the transfers table. */
  datatype Row = Row(
    account: AccountId,
    omnibus: AccountId,
    correspondent: CorrespondentId,
    amount: int,
    submittedAt: int,
    state: State,
    reviewReason: Option<Code>,
    errorCode: Option<Code>,
    contribution: Contribution,
    micr: Option<Micr>,
    batch: Option<BatchId>,
    settledAt: Option<int>)

  /** The columns no statement ever updates. */
  predicate SameOrigin(r: Row, q: Row) {
    && r.account == q.account
    && r.omnibus == q.omnibus
    && r.correspondent == q.correspondent
    && r.amount == q.amount
    && r.submittedAt == q.submittedAt
  }

  datatype Side = Debit | Credit

  datatype EntryType = ProvisionalCredit | Reversal | Fee

  /** One row of ledger_entries. */
  datatype Entry = Entry(
    movement: nat,
    transfer: TransferId,
    account: AccountId,
    side: Side,
    amount: int,
    entryType: EntryType)

  /** transfer_events: the mandatory state_changed step, or any of the informational steps. */
  datatype Step =
    | StateChanged(from: State, to: State)
    | Note(name: string)

  datatype Event = Event(transfer: TransferId, step: Step)

  datatype BatchStatus = Pending | Submitted | Acknowledged

  datatype Batch = Batch(
    correspondent: CorrespondentId,
    cutoffDate: string,
    status: BatchStatus,
    fileRef: string,
    recordCount: nat,
    totalAmount: int)

  /** The whole database.  `omnibusOf` is the lookup of a correspondent's OMNIBUS account. */
  datatype Db = Db(
    rows: seq<Row>,
    ledger: seq<Entry>,
    events: seq<Event>,
    batches: seq<Batch>,
    accounts: map<AccountId, Account>,
    omnibusOf: map<CorrespondentId, AccountId>)
}
