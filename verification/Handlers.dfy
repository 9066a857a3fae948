/** The control flow of the four handlers that touch a transfer, one call at a time: the call a
    process makes next, and where its reply takes it.
    - Deposit: CreateDeposit and ProcessDeposit (cmd/api/handlers/deposit.go, internal/orchestrator/flow.go)
    - Operator: PostAction (cmd/api/handlers/operator.go)
    - Return: ProcessReturn (internal/returns/handler.go)
    - Acknowledge: AcknowledgeBatch (internal/settlement/engine.go) */
module Handlers {
  import opened States
  import opened Tables
  import opened Ledger
  import opened Funding
  import opened Operations

  /** TransferDetail: what CreateDeposit captured for the flow. */
  datatype Detail = Detail(
    account: AccountId,
    accountType: AccountType,
    status: AccountStatus,
    correspondent: CorrespondentId,
    omnibus: AccountId,
    amount: int,
    config: RulesConfig)

  function RequestOf(d: Detail): Request {
    Request(d.amount, d.accountType, d.status, Unspecified, d.config, None)
  }

  datatype DepositPc =
    | DLookUp
    | DCreate
    | DSubmitted
    | DValidate
    | DValidateEvent
    | DVendorCalled
    | DVendor
    | DVendorResult
    | DStoreResult
    | DRejectCode(from: State, code: Code)
    | DReject(from: State)
    | DRejectEvent(from: State)
    | DAnalyze
    | DAnalyzeEvent
    | DFundingCalled
    | DFunding
    | DFundingResult
    | DFlagged
    | DReview
    | DApprove
    | DApproveEvent
    | DContribution
    | DPost
    | DPosted
    | DFundsPosted
    | DFundsPostedEvent
    | DHalt(state: State, error: Option<Error>)

  datatype OperatorPc =
    | OLoad
    | OAction
    | OOverride
    | OApprove
    | OApproveEvent
    | OPost
    | OPosted
    | OFundsPosted
    | OFundsPostedEvent
    | ORejectCode
    | OReject
    | ORejectEvent
    | OHalt(error: Option<Error>)

  datatype ReturnPc =
    | RLoad
    | RReceived
    | RFeeTerms
    | RReversal
    | RFee
    | RReturn
    | RReturnEvent
    | RProcessed
    | RBalance
    | RCollections
    | RHalt(error: Option<Error>)

  datatype AcknowledgePc =
    | ALoad
    | AList(status: BatchStatus)
    | AStatus
    | AComplete
    | ACompleteEvent
    | ACompleted
    | ASettled
    | AHalt(error: Option<Error>)

  datatype Proc =
    | Deposit(dpc: DepositPc, d: Detail, t: TransferId, answer: VssAnswer, decision: Decision)
    | Operator(
        opc: OperatorPc, t: TransferId, approve: bool, reason: Code, override: Contribution,
        scope: Option<CorrespondentId>, read: Row)
    | Return(rpc: ReturnPc, t: TransferId, read: Row, fee: int, feeAccount: AccountId)
    | Acknowledge(apc: AcknowledgePc, b: BatchId, at: int, ids: seq<TransferId>, next: nat, faulted: set<TransferId>)

  /** A handler that has just been called; the locals it has not assigned yet are arbitrary. */
  predicate IsStart(p: Proc) {
    match p
    case Deposit(pc, _, _, _, _) => pc == DLookUp
    case Operator(pc, _, _, _, _, _, _) => pc == OLoad
    case Return(pc, _, _, _, _) => pc == RLoad
    case Acknowledge(pc, _, _, _, next, faulted) => pc == ALoad && next == 0 && faulted == {}
  }

  /** isReviewable (operator.go:205-214). */
  predicate IsReviewable(row: Row) {
    (row.state == Analyzing && row.reviewReason.Some?) || row.state == Validating
  }

  function CreditPair(t: TransferId, account: AccountId, omnibus: AccountId, amount: int): Pair {
    Pair(t, ProvisionalCredit, omnibus, account, amount)
  }

  function ReversalPair(t: TransferId, row: Row): Pair {
    Pair(t, Reversal, row.account, row.omnibus, row.amount)
  }

  function FeePair(t: TransferId, row: Row, feeAccount: AccountId, fee: int): Pair {
    Pair(t, Fee, row.account, feeAccount, fee)
  }

  function IqaCode(answer: VssAnswer): Code {
    if answer.iqaError == Glare then VssIqaGlare else VssIqaBlur
  }

  /** The reason stored for the operator: the engine's code wins over the flow's own. */
  function ReviewCode(p: Proc): Code
    requires p.Deposit?
  {
    if p.decision.Approve? || p.decision.code == NoCode then InlineReason(p.answer, p.d.amount) else p.decision.code
  }

  function OperatorFrom(p: Proc): State
    requires p.Operator?
  {
    if p.read.state == Validating then Validating else Analyzing
  }

  function DepositCall(p: Proc): Call
    requires p.Deposit?
  {
    match p.dpc
    case DLookUp => LookUpAccount(p.d.account)
    case DCreate => CreateTransfer(p.d.account, p.d.omnibus, p.d.correspondent, p.d.amount)
    case DSubmitted => WriteEvent(p.t, Note("submitted"))
    case DValidate => UpdateState(p.t, Requested, Validating)
    case DValidateEvent => WriteEvent(p.t, StateChanged(Requested, Validating))
    case DVendorCalled => WriteEvent(p.t, Note("vss_called"))
    case DVendor => AskVendor
    case DVendorResult => WriteEvent(p.t, Note("vss_result"))
    case DStoreResult => SetVssResults(p.t, p.answer.micr)
    case DRejectCode(_, code) => SetErrorCode(p.t, code)
    case DReject(from) => UpdateState(p.t, from, Rejected)
    case DRejectEvent(from) => WriteEvent(p.t, StateChanged(from, Rejected))
    case DAnalyze => UpdateState(p.t, Validating, Analyzing)
    case DAnalyzeEvent => WriteEvent(p.t, StateChanged(Validating, Analyzing))
    case DFundingCalled => WriteEvent(p.t, Note("fs_evaluated"))
    case DFunding => AskFunding(RequestOf(p.d), p.d.correspondent)
    case DFundingResult => WriteEvent(p.t, Note("fs_evaluated"))
    case DFlagged => WriteEvent(p.t, Note("flagged"))
    case DReview => SetReviewReason(p.t, ReviewCode(p))
    case DApprove => UpdateState(p.t, Analyzing, Approved)
    case DApproveEvent => WriteEvent(p.t, StateChanged(Analyzing, Approved))
    case DContribution =>
      if p.decision.Approve? then SetContribution(p.t, p.decision.contribution) else NoCall
    case DPost =>
      if p.decision.Approve? then Post(CreditPair(p.t, p.d.account, p.decision.omnibus, p.d.amount)) else NoCall
    case DPosted => WriteEvent(p.t, Note("ledger_posted"))
    case DFundsPosted => UpdateState(p.t, Approved, FundsPosted)
    case DFundsPostedEvent => WriteEvent(p.t, StateChanged(Approved, FundsPosted))
    case DHalt(_, _) => NoCall
  }

  function ErrorOf(r: Reply): Option<Error> {
    if r.Failed? then Some(r.error) else None
  }

  /** Where a deposit goes on one reply. */
  function NextDepositPc(p: Proc, r: Reply): DepositPc
    requires p.Deposit?
  {
    var ok := r == Done;
    var fail := ErrorOf(r);
    match p.dpc
    case DLookUp =>
      if p.d.amount <= 0 then DHalt(Requested, Some(BadAmount))
      else if r.TheAccount? then DCreate
      else DHalt(Requested, fail)
    case DCreate => if r.Created? then DSubmitted else DHalt(Requested, fail)
    case DSubmitted => DValidate
    case DValidate => if ok then DValidateEvent else DHalt(Requested, fail)
    case DValidateEvent => if ok then DVendorCalled else DHalt(Requested, fail)
    case DVendorCalled => DVendor
    case DVendor => if r.VendorSays? then DVendorResult else DHalt(Validating, fail)
    case DVendorResult => DStoreResult
    case DStoreResult =>
      if p.answer.iqa == IqaFail then DRejectCode(Validating, IqaCode(p.answer))
      else if p.answer.duplicate then DRejectCode(Validating, VssDuplicateDetected)
      else DAnalyze
    case DRejectCode(from, _) => DReject(from)
    case DReject(from) => if ok then DRejectEvent(from) else DHalt(from, fail)
    case DRejectEvent(from) => if ok then DHalt(Rejected, None) else DHalt(from, fail)
    case DAnalyze => if ok then DAnalyzeEvent else DHalt(Validating, fail)
    case DAnalyzeEvent => if ok then DFundingCalled else DHalt(Validating, fail)
    case DFundingCalled => DFunding
    case DFunding => if r.FundingSays? then DFundingResult else DHalt(Analyzing, fail)
    case DFundingResult =>
      if p.decision.Reject? then DRejectCode(Analyzing, p.decision.code)
      else if p.decision.FlagForReview? || InlineReason(p.answer, p.d.amount) != NoCode then DFlagged
      else DApprove
    case DFlagged => DReview
    case DReview => DHalt(Analyzing, None)
    case DApprove => if ok then DApproveEvent else DHalt(Analyzing, fail)
    case DApproveEvent =>
      if !ok then DHalt(Analyzing, fail)
      else if p.decision.Approve? && p.decision.contribution != Unspecified then DContribution
      else DPost
    case DContribution => DPost
    case DPost => if ok then DPosted else DHalt(Approved, fail)
    case DPosted => DFundsPosted
    case DFundsPosted => if ok then DFundsPostedEvent else DHalt(Approved, fail)
    case DFundsPostedEvent => if ok then DHalt(FundsPosted, None) else DHalt(Approved, fail)
    case DHalt(_, _) => p.dpc
  }

  /** The deposit after one reply: the locals that the reply assigns, and the next program point. */
  function AfterDeposit(p: Proc, r: Reply): Proc
    requires p.Deposit?
  {
    p.(dpc := NextDepositPc(p, r),
       d := if p.dpc.DLookUp? && p.d.amount > 0 && r.TheAccount?
            then Detail(p.d.account, r.accountType, r.status, r.correspondent, r.omnibus, p.d.amount, r.config)
            else p.d,
       t := if p.dpc.DCreate? && r.Created? then r.t else p.t,
       answer := if p.dpc.DVendor? && r.VendorSays? then r.answer else p.answer,
       decision := if p.dpc.DFunding? && r.FundingSays? then r.decision else p.decision)
  }

  function OperatorCall(p: Proc): Call
    requires p.Operator?
  {
    match p.opc
    case OLoad => GetTransfer(p.t)
    case OAction => WriteEvent(p.t, Note("operator_action"))
    case OOverride => SetContribution(p.t, p.override)
    case OApprove => UpdateState(p.t, Analyzing, Approved)
    case OApproveEvent => WriteEvent(p.t, StateChanged(Analyzing, Approved))
    case OPost => Post(CreditPair(p.t, p.read.account, p.read.omnibus, p.read.amount))
    case OPosted => WriteEvent(p.t, Note("ledger_posted"))
    case OFundsPosted => UpdateState(p.t, Approved, FundsPosted)
    case OFundsPostedEvent => WriteEvent(p.t, StateChanged(Approved, FundsPosted))
    case ORejectCode => SetErrorCode(p.t, p.reason)
    case OReject => UpdateState(p.t, OperatorFrom(p), Rejected)
    case ORejectEvent => WriteEvent(p.t, StateChanged(OperatorFrom(p), Rejected))
    case OHalt(_) => NoCall
  }

  function OperatorBranch(p: Proc): OperatorPc
    requires p.Operator?
  {
    if p.approve then OApprove else if p.reason != NoCode then ORejectCode else OReject
  }

  function AfterOperator(p: Proc, r: Reply): Proc
    requires p.Operator?
  {
    var ok := r == Done;
    var fail := ErrorOf(r);
    match p.opc
    case OLoad =>
      if !r.TheTransfer? then p.(opc := OHalt(Some(NotFound)))
      else if p.scope.Some? && r.row.correspondent != p.scope.value then p.(opc := OHalt(Some(NotFound)))
      else if !IsReviewable(r.row) then p.(opc := OHalt(Some(NotReviewable)))
      else p.(opc := OAction, read := r.row)
    case OAction => p.(opc := if p.override != Unspecified then OOverride else OperatorBranch(p))
    case OOverride => p.(opc := OperatorBranch(p))
    case OApprove => p.(opc := if ok then OApproveEvent else OHalt(fail))
    case OApproveEvent => p.(opc := if ok then OPost else OHalt(fail))
    case OPost => p.(opc := if ok then OPosted else OHalt(fail))
    case OPosted => p.(opc := OFundsPosted)
    case OFundsPosted => p.(opc := if ok then OFundsPostedEvent else OHalt(fail))
    case OFundsPostedEvent => p.(opc := OHalt(fail))
    case ORejectCode => p.(opc := OReject)
    case OReject => p.(opc := if ok then ORejectEvent else OHalt(fail))
    case ORejectEvent => p.(opc := OHalt(fail))
    case OHalt(_) => p
  }

  function ReturnCall(p: Proc): Call
    requires p.Return?
  {
    match p.rpc
    case RLoad => GetTransfer(p.t)
    case RReceived => WriteEvent(p.t, Note("return_received"))
    case RFeeTerms => GetFeeTerms
    case RReversal => Post(ReversalPair(p.t, p.read))
    case RFee => Post(FeePair(p.t, p.read, p.feeAccount, p.fee))
    case RReturn => UpdateState(p.t, p.read.state, Returned)
    case RReturnEvent => WriteEvent(p.t, StateChanged(p.read.state, Returned))
    case RProcessed => WriteEvent(p.t, Note("return_processed"))
    case RBalance => GetBalance(p.read.account)
    case RCollections => SetAccountStatus(p.read.account, Collections)
    case RHalt(_) => NoCall
  }

  function AfterReturn(p: Proc, r: Reply): Proc
    requires p.Return?
  {
    var ok := r == Done;
    var fail := ErrorOf(r);
    match p.rpc
    case RLoad =>
      if !r.TheTransfer? then p.(rpc := RHalt(fail))
      else if r.row.state == Returned then p.(rpc := RHalt(None))
      else if r.row.state != FundsPosted && r.row.state != Completed then p.(rpc := RHalt(Some(InvalidReturnState)))
      else p.(rpc := RReceived, read := r.row)
    case RReceived => p.(rpc := RFeeTerms)
    case RFeeTerms =>
      if r.TheFee? then p.(rpc := RReversal, fee := r.fee, feeAccount := r.feeAccount) else p.(rpc := RHalt(fail))
    case RReversal => p.(rpc := if ok then RFee else RHalt(fail))
    case RFee => p.(rpc := if ok then RReturn else RHalt(fail))
    case RReturn => p.(rpc := if ok then RReturnEvent else RHalt(fail))
    case RReturnEvent => p.(rpc := RProcessed)
    case RProcessed => p.(rpc := RBalance)
    case RBalance => p.(rpc := if r.TheBalance? && r.balance < 0 then RCollections else RHalt(None))
    case RCollections => p.(rpc := RHalt(None))
    case RHalt(_) => p
  }

  function AcknowledgeCall(p: Proc): Call
    requires p.Acknowledge?
  {
    match p.apc
    case ALoad => GetBatchStatus(p.b)
    case AList(_) => GetLinked(p.b)
    case AStatus => SetBatchStatus(p.b, Acknowledged)
    case AComplete => if p.next < |p.ids| then UpdateState(p.ids[p.next], FundsPosted, Completed) else NoCall
    case ACompleteEvent =>
      if p.next < |p.ids| then WriteEvent(p.ids[p.next], StateChanged(FundsPosted, Completed)) else NoCall
    case ACompleted =>
      if p.next < |p.ids| then WriteEvent(p.ids[p.next], Note("settlement_completed")) else NoCall
    case ASettled =>
      if p.next < |p.ids| then SetSettlementBatch(p.ids[p.next], p.b, Some(p.at)) else NoCall
    case AHalt(_) => NoCall
  }

  /** The next turn of the loop over the batch, or its end. */
  function NextTurn(p: Proc, next: nat): Proc
    requires p.Acknowledge?
  {
    p.(next := next, apc := if next < |p.ids| then AComplete else AHalt(None))
  }

  /** `faulted` remembers the rows whose update failed for want of the database, not of the lock. */
  function AfterAcknowledge(p: Proc, r: Reply): Proc
    requires p.Acknowledge?
  {
    var ok := r == Done;
    var fail := ErrorOf(r);
    match p.apc
    case ALoad => p.(apc := if r.TheBatch? then AList(r.batchStatus) else AHalt(fail))
    case AList(status) =>
      if !r.Linked? then p.(apc := AHalt(fail))
      else if status == Acknowledged then p.(apc := AHalt(None))
      else p.(apc := AStatus, ids := r.ids)
    case AStatus => if ok then NextTurn(p, 0) else p.(apc := AHalt(fail))
    case AComplete =>
      if ok || p.next >= |p.ids| then p.(apc := ACompleteEvent)
      else
        NextTurn(p.(faulted := if r == Failed(OptimisticLock) then p.faulted else p.faulted + {p.ids[p.next]}),
                 p.next + 1)
    case ACompleteEvent => p.(apc := ACompleted)
    case ACompleted => p.(apc := ASettled)
    case ASettled => NextTurn(p, p.next + 1)
    case AHalt(_) => p
  }

  /** The call the process makes next. */
  function NextCall(p: Proc): Call {
    match p
    case Deposit(_, _, _, _, _) => DepositCall(p)
    case Operator(_, _, _, _, _, _, _) => OperatorCall(p)
    case Return(_, _, _, _, _) => ReturnCall(p)
    case Acknowledge(_, _, _, _, _, _) => AcknowledgeCall(p)
  }

  /** The process after the reply. */
  function Resume(p: Proc, r: Reply): Proc {
    match p
    case Deposit(_, _, _, _, _) => AfterDeposit(p, r)
    case Operator(_, _, _, _, _, _, _) => AfterOperator(p, r)
    case Return(_, _, _, _, _) => AfterReturn(p, r)
    case Acknowledge(_, _, _, _, _, _) => AfterAcknowledge(p, r)
  }
}
