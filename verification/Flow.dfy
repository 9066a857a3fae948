/** ProcessDeposit as the source runs it, statement by statement over one database, and the decision
    table it realises when nothing fails and nothing else runs (internal/orchestrator/flow.go,
    internal/orchestrator/transition.go, cmd/api/handlers/deposit.go). */
module Flow {
  import opened States
  import opened Tables
  import opened Ledger
  import opened Funding
  import opened Operations
  import opened Handlers
  import opened Store

  /** Table check, optimistic lock, then the mandatory event. */
  method Transition(db: Database, t: TransferId, from: State, to: State) returns (error: Option<Error>)
    requires db.Valid()
    requires IsValidTransition(from, to) ==>
      && NextCall(db.worker) == UpdateState(t, from, to)
      && NextCall(Resume(db.worker, Done)) == WriteEvent(t, StateChanged(from, to))
    modifies db`rows, db`events, db`worker, db`choices
    ensures db.Valid() && db.origin == old(db.origin) && db.start == old(db.start)
    ensures !IsValidTransition(from, to) ==>
      error == Some(InvalidTransition) && db.Snapshot() == old(db.Snapshot()) && db.worker == old(db.worker)
    ensures IsValidTransition(from, to) && error == None ==> db.worker == Resume(Resume(old(db.worker), Done), Done)
    ensures IsValidTransition(from, to) && error.Some? ==>
      || db.worker == Resume(old(db.worker), Failed(error.value))
      || db.worker == Resume(Resume(old(db.worker), Done), Failed(error.value))
    ensures IsValidTransition(from, to) && db.reliable ==>
      if LockHolds(old(db.Snapshot()), t, from) then
        && error == None
        && db.rows == old(db.rows)[t := old(db.rows)[t].(state := to)]
        && db.events == old(db.events) + [Event(t, StateChanged(from, to))]
      else
        error == Some(OptimisticLock) && db.rows == old(db.rows) && db.events == old(db.events)
  {
    if !IsValidTransition(from, to) {
      return Some(InvalidTransition);
    }
    var r := db.UpdateState(t, from, to);
    if r != Done {
      return Some(r.error);
    }
    r := db.WriteEvent(t, StateChanged(from, to));
    return ErrorOf(r);
  }

  /** From Validating or Analyzing to Rejected. */
  method RejectDeposit(db: Database, t: TransferId, from: State) returns (error: Option<Error>)
    requires db.Valid() && db.worker.Deposit? && db.worker.t == t && db.worker.dpc == DReject(from)
    requires from == Validating || from == Analyzing
    modifies db`rows, db`events, db`worker, db`choices
    ensures db.Valid() && db.origin == old(db.origin) && db.start == old(db.start)
    ensures db.worker == old(db.worker).(dpc := DHalt(if error == None then Rejected else from, error))
    ensures db.reliable && LockHolds(old(db.Snapshot()), t, from) ==>
      error == None && db.rows == old(db.rows)[t := old(db.rows)[t].(state := Rejected)]
  {
    EdgesAreTheTable(from, Rejected);
    error := Transition(db, t, from, Rejected);
  }

  method SetErrorAndReject(db: Database, t: TransferId, from: State, code: Code) returns (error: Option<Error>)
    requires db.Valid() && db.worker.Deposit? && db.worker.t == t && db.worker.dpc == DRejectCode(from, code)
    requires from == Validating || from == Analyzing
    modifies db`rows, db`events, db`worker, db`choices
    ensures db.Valid() && db.origin == old(db.origin) && db.start == old(db.start)
    ensures db.worker == old(db.worker).(dpc := DHalt(if error == None then Rejected else from, error))
    ensures db.reliable && LockHolds(old(db.Snapshot()), t, from) ==>
      error == None && db.rows == old(db.rows)[t := old(db.rows)[t].(state := Rejected, errorCode := Some(code))]
  {
    var _ := db.SetErrorCode(t, code);
    error := RejectDeposit(db, t, from);
  }

  /** What becomes of a deposit when nothing fails: the flow's decision table. */
  datatype Verdict =
    | PayOut(omnibus: AccountId, contribution: Contribution)
    | TurnDown(code: Code)
    | SendToReview(code: Code)
    | VendorSilent
    | FundingSilent

  function VerdictOf(d: Detail, vendor: Option<VssAnswer>, dup: Duplicates, omnibus: Option<AccountId>): Verdict {
    if vendor == None then VendorSilent
    else if vendor.value.iqa == IqaFail then TurnDown(IqaCode(vendor.value))
    else if vendor.value.duplicate then TurnDown(VssDuplicateDetected)
    else FundingVerdict(d, vendor.value, dup, omnibus)
  }

  function FundingVerdict(d: Detail, answer: VssAnswer, dup: Duplicates, omnibus: Option<AccountId>): Verdict {
    var own := InlineReason(answer, d.amount);
    match EvaluationOf(ENGINE_RULES, RequestOf(d), dup, omnibus)
    case DuplicateCheckFailed => FundingSilent
    case NoOmnibus => FundingSilent
    case Decided(Reject(code)) => TurnDown(code)
    case Decided(FlagForReview(code)) => SendToReview(if code == NoCode then own else code)
    case Decided(Approve(o, contribution)) => if own != NoCode then SendToReview(own) else PayOut(o, contribution)
  }

  function StateAfter(v: Verdict): State {
    match v
    case PayOut(_, _) => FundsPosted
    case TurnDown(_) => Rejected
    case SendToReview(_) => Analyzing
    case VendorSilent => Validating
    case FundingSilent => Analyzing
  }

  function RowAfter(row: Row, vendor: Option<VssAnswer>, v: Verdict): Row {
    var seen := if vendor.Some? then row.(micr := vendor.value.micr, state := StateAfter(v))
                else row.(state := StateAfter(v));
    match v
    case PayOut(_, contribution) => if contribution != Unspecified then seen.(contribution := contribution) else seen
    case TurnDown(code) => seen.(errorCode := Some(code))
    case SendToReview(code) => seen.(reviewReason := Some(code))
    case VendorSilent => seen
    case FundingSilent => seen
  }

  /** The table in words: funds are posted exactly when IQA did not fail, no duplicate was seen, the
      flow found no reason of its own and the engine approves; a deposit that ends in Analyzing
      without an error is in the operator's queue (internal/store/transfers.go:312-323). */
  lemma {:induction false} VerdictInWords(
    d: Detail, vendor: Option<VssAnswer>, dup: Duplicates, omnibus: Option<AccountId>, row: Row)
    ensures var v := VerdictOf(d, vendor, dup, omnibus);
      && (v.PayOut? <==>
            vendor.Some? && vendor.value.iqa != IqaFail && !vendor.value.duplicate
            && InlineApproves(vendor.value, RequestOf(d), dup, omnibus))
      && (v.PayOut? ==> Some(v.omnibus) == omnibus && Eligible(RequestOf(d)))
      && (v.SendToReview? ==> Eligible(RequestOf(d)) && InlineReason(vendor.value, d.amount) == v.code != NoCode)
      && (v.SendToReview? ==>
            RowAfter(row, vendor, v).state == Analyzing && RowAfter(row, vendor, v).reviewReason.Some?)
  {
    WithoutVendorResult(RequestOf(d), dup, omnibus);
    ApprovesIff(ENGINE_RULES, RequestOf(d), dup, omnibus);
    assert RequestOf(d).(vss := None) == RequestOf(d);
  }

  /** The flow is more lenient than the engine: MICR data without a routing number, under an IQA status that
      is neither pass nor fail. */
  predicate FlowAlone(answer: VssAnswer) {
    answer.micr.Some? && answer.micr.value.routing == "" && answer.iqa == IqaOther && !answer.duplicate
  }

  /** The flow is stricter: it turns down failed images and the vendor's duplicates, of which the engine is
      not told. */
  predicate EngineAlone(answer: VssAnswer) {
    answer.micr.Some? && answer.micr.value.routing != "" && (answer.iqa == IqaFail || answer.duplicate)
  }

  /** The flow pays out exactly what the engine, handed the vendor result, would approve, but for answers of
      those two kinds on requests that nothing else stops. */
  lemma {:induction false} FlowAgreesWithEngine(
    d: Detail, answer: VssAnswer, dup: Duplicates, omnibus: Option<AccountId>)
    ensures var pays := VerdictOf(d, Some(answer), dup, omnibus).PayOut?;
      var approves := EngineApproves(answer, RequestOf(d), dup, omnibus);
      var fine := OtherwiseFine(answer, RequestOf(d), dup, omnibus);
      && (pays && !approves <==> fine && FlowAlone(answer))
      && (approves && !pays <==> fine && EngineAlone(answer))
    ensures answer.iqa == IqaPass && !answer.duplicate ==>
      (VerdictOf(d, Some(answer), dup, omnibus).PayOut? <==> EngineApproves(answer, RequestOf(d), dup, omnibus))
  {
    ApprovalsInWords(answer, RequestOf(d), dup, omnibus);
    var row := NewRow(d.account, d.omnibus, d.correspondent, d.amount, 0);
    VerdictInWords(d, Some(answer), dup, omnibus, row);
  }

  /** Requested to Validating. */
  method StartValidating(db: Database, t: TransferId) returns (error: Option<Error>)
    requires db.Valid() && db.worker.Deposit? && db.worker.dpc == DValidate && db.worker.t == t
    modifies db`rows, db`events, db`worker, db`choices
    ensures db.Valid() && db.origin == old(db.origin) && db.start == old(db.start)
    ensures db.worker == old(db.worker).(dpc := if error == None then DVendorCalled else DHalt(Requested, error))
    ensures db.reliable && LockHolds(old(db.Snapshot()), t, Requested) ==>
      error == None && db.rows == old(db.rows)[t := old(db.rows)[t].(state := Validating)]
  {
    EdgesAreTheTable(Requested, Validating);
    error := Transition(db, t, Requested, Validating);
  }

  /** Requested to Validating, and the vendor's answer. */
  method Validate(db: Database, t: TransferId, d: Detail, vendor: Option<VssAnswer>)
    returns (go: bool, state: State, error: Option<Error>, answer: VssAnswer)
    requires db.Valid() && db.worker.Deposit? && db.worker.dpc == DValidate && db.worker.t == t && db.worker.d == d
    modifies db`rows, db`events, db`worker, db`choices
    ensures db.Valid() && db.origin == old(db.origin) && db.start == old(db.start)
    ensures db.worker.Deposit? && db.worker.t == t && db.worker.d == d
    ensures go ==> db.worker.dpc == DStoreResult && db.worker.answer == answer
    ensures !go ==> db.worker.dpc == DHalt(state, error)
    ensures db.reliable && LockHolds(old(db.Snapshot()), t, Requested) ==>
      && (go <==> vendor.Some?) && (go ==> answer == vendor.value)
      && (!go ==> state == Validating && error.Some?)
      && db.rows == old(db.rows)[t := old(db.rows)[t].(state := Validating)]
  {
    go, answer := false, VssAnswer(IqaOther, NoErrorType, None, 0, false);
    error := StartValidating(db, t);
    if error.Some? {
      return false, Requested, error, answer;
    }
    var _ := db.WriteEvent(t, Note("vss_called"));
    var r := db.AskVendor(vendor);
    if !r.VendorSays? {
      return false, Validating, ErrorOf(r), answer;
    }
    answer := r.answer;
    var _ := db.WriteEvent(t, Note("vss_result"));
    return true, Validating, None, answer;
  }

  /** Validating to Analyzing. */
  method StartAnalyzing(db: Database, t: TransferId) returns (error: Option<Error>)
    requires db.Valid() && db.worker.Deposit? && db.worker.dpc == DAnalyze && db.worker.t == t
    modifies db`rows, db`events, db`worker, db`choices
    ensures db.Valid() && db.origin == old(db.origin) && db.start == old(db.start)
    ensures db.worker == old(db.worker).(dpc := if error == None then DFundingCalled else DHalt(Validating, error))
    ensures db.reliable && LockHolds(old(db.Snapshot()), t, Validating) ==>
      error == None && db.rows == old(db.rows)[t := old(db.rows)[t].(state := Analyzing)]
  {
    EdgesAreTheTable(Validating, Analyzing);
    error := Transition(db, t, Validating, Analyzing);
  }

  /** The code of an answer that stops the deposit. */
  function StopCode(answer: VssAnswer): Code {
    if answer.iqa == IqaFail then IqaCode(answer) else VssDuplicateDetected
  }

  /** The vendor's answer is stored; what it says decides where the deposit goes. */
  method StoreAnswer(db: Database, t: TransferId, answer: VssAnswer)
    requires db.Valid() && db.worker.Deposit? && db.worker.dpc == DStoreResult && db.worker.t == t
    requires db.worker.answer == answer
    modifies db`rows, db`worker, db`choices
    ensures db.Valid() && db.origin == old(db.origin) && db.start == old(db.start)
    ensures db.worker == old(db.worker).(
      dpc := if answer.iqa == IqaFail || answer.duplicate then DRejectCode(Validating, StopCode(answer)) else DAnalyze)
    ensures db.reliable && t < |old(db.rows)| ==> db.rows == old(db.rows)[t := old(db.rows)[t].(micr := answer.micr)]
  {
    var _ := db.SetVssResults(t, answer.micr);
  }

  function Screened(row: Row, answer: VssAnswer): Row {
    if answer.iqa == IqaFail || answer.duplicate
    then row.(micr := answer.micr, state := Rejected, errorCode := Some(StopCode(answer)))
    else row.(micr := answer.micr, state := Analyzing)
  }

  lemma {:induction false} ScreenedRows(
    rows: seq<Row>, stored: seq<Row>, after: seq<Row>, t: TransferId, answer: VssAnswer)
    requires t < |rows| && stored == rows[t := rows[t].(micr := answer.micr)]
    requires after == stored[t := if answer.iqa == IqaFail || answer.duplicate
                                  then stored[t].(state := Rejected, errorCode := Some(StopCode(answer)))
                                  else stored[t].(state := Analyzing)]
    ensures after == rows[t := Screened(rows[t], answer)]
  {
  }

  /** On to Analyzing, unless the vendor's answer stops the deposit. */
  method Screen(db: Database, t: TransferId, d: Detail, answer: VssAnswer)
    returns (go: bool, state: State, error: Option<Error>)
    requires db.Valid() && db.worker.Deposit? && db.worker.dpc == DStoreResult && db.worker.t == t && db.worker.d == d
    requires db.worker.answer == answer
    modifies db`rows, db`events, db`worker, db`choices
    ensures db.Valid() && db.origin == old(db.origin) && db.start == old(db.start)
    ensures db.worker.Deposit? && db.worker.t == t && db.worker.d == d && db.worker.answer == answer
    ensures go ==> db.worker.dpc == DFundingCalled
    ensures !go ==> db.worker.dpc == DHalt(state, error)
    ensures db.reliable && LockHolds(old(db.Snapshot()), t, Validating) ==>
      && (go <==> answer.iqa != IqaFail && !answer.duplicate)
      && (!go ==> state == Rejected && error == None)
      && db.rows == old(db.rows)[t := Screened(old(db.rows)[t], answer)]
  {
    ghost var rows, exact := db.rows, db.reliable && LockHolds(db.Snapshot(), t, Validating);
    StoreAnswer(db, t, answer);
    ghost var stored := db.rows;
    if answer.iqa == IqaFail || answer.duplicate {
      error := SetErrorAndReject(db, t, Validating, StopCode(answer));
      go, state := false, if error == None then Rejected else Validating;
    } else {
      error := StartAnalyzing(db, t);
      go, state := error == None, if error == None then Analyzing else Validating;
    }
    if exact {
      ScreenedRows(rows, stored, db.rows, t, answer);
    }
  }

  /** The engine's decision, logged before and after. */
  method AskEngine(db: Database, t: TransferId, d: Detail, dup: Duplicates) returns (r: Reply)
    requires db.Valid() && db.worker.Deposit? && db.worker.dpc == DFundingCalled && db.worker.t == t && db.worker.d == d
    modifies db`events, db`worker, db`choices
    ensures db.Valid() && db.origin == old(db.origin) && db.start == old(db.start)
    ensures !r.FundingSays? ==> db.worker == old(db.worker).(dpc := DHalt(Analyzing, ErrorOf(r)))
    ensures r.FundingSays? ==>
      var p := old(db.worker).(dpc := DFundingResult, decision := r.decision);
      db.worker == p.(dpc := NextDepositPc(p, Done))
    ensures db.reliable ==>
      var e := EvaluationOf(ENGINE_RULES, RequestOf(d), dup, db.OmnibusOf(d.correspondent));
      r == if e.Decided? then FundingSays(e.decision) else Failed(Unavailable)
  {
    var _ := db.WriteEvent(t, Note("fs_evaluated"));
    r := db.AskFunding(RequestOf(d), d.correspondent, dup);
    if r.FundingSays? {
      var _ := db.WriteEvent(t, Note("fs_evaluated"));
    }
  }

  /** The deposit stays in Analyzing with a review reason. */
  method FlagDeposit(db: Database, t: TransferId, reason: Code)
    requires db.Valid() && db.worker.Deposit? && db.worker.dpc == DFlagged && db.worker.t == t
    requires ReviewCode(db.worker) == reason
    modifies db`rows, db`events, db`worker, db`choices
    ensures db.Valid() && db.origin == old(db.origin) && db.start == old(db.start)
    ensures db.worker == old(db.worker).(dpc := DHalt(Analyzing, None))
    ensures db.reliable && t < |old(db.rows)| ==>
      db.rows == old(db.rows)[t := old(db.rows)[t].(reviewReason := Some(reason))]
  {
    var _ := db.WriteEvent(t, Note("flagged"));
    var _ := db.SetReviewReason(t, reason);
  }

  /** The funding decision, unless it stops or flags the deposit. */
  method Decide(db: Database, t: TransferId, d: Detail, answer: VssAnswer, dup: Duplicates)
    returns (go: bool, state: State, error: Option<Error>, decision: Decision)
    requires db.Valid() && db.worker.Deposit? && db.worker.dpc == DFundingCalled && db.worker.t == t && db.worker.d == d
    requires db.worker.answer == answer
    modifies db`rows, db`events, db`worker, db`choices
    ensures db.Valid() && db.origin == old(db.origin) && db.start == old(db.start)
    ensures db.worker.Deposit? && db.worker.t == t && db.worker.d == d
    ensures go ==> db.worker.dpc == DApprove && db.worker.decision == decision && decision.Approve?
    ensures !go ==> db.worker.dpc == DHalt(state, error)
    ensures db.reliable && LockHolds(old(db.Snapshot()), t, Analyzing) ==>
      var v := FundingVerdict(d, answer, dup, db.OmnibusOf(d.correspondent));
      && (go <==> v.PayOut?)
      && (go ==> decision == Decision.Approve(v.omnibus, v.contribution) && db.rows == old(db.rows))
      && (!go ==>
            state == StateAfter(v) && (error == None <==> v.TurnDown? || v.SendToReview?)
            && db.rows == old(db.rows)[t := RowAfter(old(db.rows)[t], None, v)])
  {
    go := false;
    ghost var omnibus := db.OmnibusOf(d.correspondent);
    WithoutVendorResult(RequestOf(d), dup, omnibus);
    decision := FlagForReview(NoCode);
    var reviewReason := InlineReason(answer, d.amount);
    var r := AskEngine(db, t, d, dup);
    if !r.FundingSays? {
      return false, Analyzing, ErrorOf(r), decision;
    }
    decision := r.decision;
    if decision.Reject? {
      error := SetErrorAndReject(db, t, Analyzing, decision.code);
      return false, if error == None then Rejected else Analyzing, error, decision;
    }
    if decision.FlagForReview? || reviewReason != NoCode {
      var reason := reviewReason;
      if !decision.Approve? && decision.code != NoCode {
        reason := decision.code;
      }
      FlagDeposit(db, t, reason);
      return false, Analyzing, None, decision;
    }
    return true, Analyzing, None, decision;
  }

  /** The row of a deposit paid out. */
  function Paid(row: Row, contribution: Contribution): Row {
    if contribution != Unspecified then row.(state := FundsPosted, contribution := contribution)
    else row.(state := FundsPosted)
  }

  /** Analyzing to Approved, with the engine's contribution type. */
  method ApproveDeposit(db: Database, t: TransferId, d: Detail, decision: Decision)
    returns (go: bool, error: Option<Error>)
    requires db.Valid() && db.worker.Deposit? && db.worker.dpc == DApprove && db.worker.t == t && db.worker.d == d
    requires db.worker.decision == decision && decision.Approve?
    modifies db`rows, db`events, db`worker, db`choices
    ensures db.Valid() && db.origin == old(db.origin) && db.start == old(db.start)
    ensures go ==> db.worker == old(db.worker).(dpc := DPost)
    ensures !go ==> db.worker == old(db.worker).(dpc := DHalt(Analyzing, error))
    ensures db.reliable && LockHolds(old(db.Snapshot()), t, Analyzing) ==>
      go && db.rows == old(db.rows)[t := Paid(old(db.rows)[t], decision.contribution).(state := Approved)]
  {
    EdgesAreTheTable(Analyzing, Approved);
    error := Transition(db, t, Analyzing, Approved);
    if error.Some? {
      return false, error;
    }
    if decision.contribution != Unspecified {
      var _ := db.SetContributionType(t, decision.contribution);
    }
    return true, None;
  }

  /** Approved to FundsPosted. */
  method CompleteFunding(db: Database, t: TransferId) returns (error: Option<Error>)
    requires db.Valid() && db.worker.Deposit? && db.worker.dpc == DFundsPosted && db.worker.t == t
    modifies db`rows, db`events, db`worker, db`choices
    ensures db.Valid() && db.origin == old(db.origin) && db.start == old(db.start)
    ensures db.worker == old(db.worker).(
      dpc := if error == None then DHalt(FundsPosted, None) else DHalt(Approved, error))
    ensures db.reliable && LockHolds(old(db.Snapshot()), t, Approved) ==>
      error == None && db.rows == old(db.rows)[t := old(db.rows)[t].(state := FundsPosted)]
  {
    EdgesAreTheTable(Approved, FundsPosted);
    error := Transition(db, t, Approved, FundsPosted);
  }

  /** The provisional credit and the note of it. */
  method PostProvisional(db: Database, t: TransferId, d: Detail, decision: Decision) returns (error: Option<Error>)
    requires db.Valid() && db.worker.Deposit? && db.worker.dpc == DPost && db.worker.t == t && db.worker.d == d
    requires db.worker.decision == decision && decision.Approve?
    modifies db`events, db`ledger, db`worker, db`choices
    ensures db.Valid() && db.origin == old(db.origin) && db.start == old(db.start)
    ensures db.worker == old(db.worker).(dpc := if error == None then DFundsPosted else DHalt(Approved, error))
    ensures db.reliable ==>
      var p := CreditPair(t, d.account, decision.omnibus, d.amount);
      && (error == None <==> PostCommits(old(db.Snapshot()), p))
      && db.ledger == old(db.ledger) + if error == None then Entries(p, |old(db.ledger)|) else []
  {
    var r := db.PostDoubleEntry(decision.omnibus, d.account, d.amount, Free, t);
    if r != Done {
      return ErrorOf(r);
    }
    var _ := db.WriteEvent(t, Note("ledger_posted"));
    return None;
  }

  /** The provisional credit, then FundsPosted. */
  method PostCredit(db: Database, t: TransferId, d: Detail, decision: Decision)
    returns (state: State, error: Option<Error>)
    requires db.Valid() && db.worker.Deposit? && db.worker.dpc == DPost && db.worker.t == t && db.worker.d == d
    requires db.worker.decision == decision && decision.Approve?
    modifies db`rows, db`events, db`ledger, db`worker, db`choices
    ensures db.Valid() && db.origin == old(db.origin) && db.start == old(db.start)
    ensures db.worker.Deposit? && db.worker.dpc == DHalt(state, error) && db.worker.t == t && db.worker.d == d
    ensures db.reliable && LockHolds(old(db.Snapshot()), t, Approved) ==>
      var p := CreditPair(t, d.account, decision.omnibus, d.amount);
      if PostCommits(old(db.Snapshot()), p) then
        && state == FundsPosted && error == None
        && db.rows == old(db.rows)[t := old(db.rows)[t].(state := FundsPosted)]
        && db.ledger == old(db.ledger) + Entries(p, |old(db.ledger)|)
      else
        && state == Approved && error.Some? && db.rows == old(db.rows) && db.ledger == old(db.ledger)
  {
    error := PostProvisional(db, t, d, decision);
    if error.Some? {
      return Approved, error;
    }
    error := CompleteFunding(db, t);
    return if error == None then FundsPosted else Approved, error;
  }

  /** What the engine approved: Approved, the credit, FundsPosted. */
  method PayDeposit(db: Database, t: TransferId, d: Detail, decision: Decision)
    returns (state: State, error: Option<Error>)
    requires db.Valid() && db.worker.Deposit? && db.worker.dpc == DApprove && db.worker.t == t && db.worker.d == d
    requires db.worker.decision == decision && decision.Approve?
    modifies db`rows, db`events, db`ledger, db`worker, db`choices
    ensures db.Valid() && db.origin == old(db.origin) && db.start == old(db.start)
    ensures db.worker.Deposit? && db.worker.dpc == DHalt(state, error) && db.worker.t == t && db.worker.d == d
    ensures db.reliable && LockHolds(old(db.Snapshot()), t, Analyzing) ==>
      var p := CreditPair(t, d.account, decision.omnibus, d.amount);
      if PostCommits(old(db.Snapshot()), p) then
        && state == FundsPosted && error == None
        && db.rows == old(db.rows)[t := Paid(old(db.rows)[t], decision.contribution)]
        && db.ledger == old(db.ledger) + Entries(p, |old(db.ledger)|)
      else
        && state == Approved && error.Some? && db.ledger == old(db.ledger)
        && db.rows == old(db.rows)[t := Paid(old(db.rows)[t], decision.contribution).(state := Approved)]
  {
    ghost var rows, exact := db.rows, db.reliable && LockHolds(db.Snapshot(), t, Analyzing);
    var go;
    go, error := ApproveDeposit(db, t, d, decision);
    if !go {
      return Analyzing, error;
    }
    ghost var approved := db.rows;
    state, error := PostCredit(db, t, d, decision);
    if exact {
      PaidRows(rows, approved, t, decision.contribution);
    }
  }

  lemma {:induction false} PaidRows(rows: seq<Row>, approved: seq<Row>, t: TransferId, contribution: Contribution)
    requires t < |rows| && approved == rows[t := Paid(rows[t], contribution).(state := Approved)]
    ensures approved[t := approved[t].(state := FundsPosted)] == rows[t := Paid(rows[t], contribution)]
  {
    assert approved[t].(state := FundsPosted) == Paid(rows[t], contribution);
  }

  /** The verdict carried out: the state reported is the row's, the row is what the decision table says,
      and one pair is posted exactly when the verdict is to pay out. */
  predicate CarriedOut(
    before: Db, after: Db, t: TransferId, d: Detail, vendor: Option<VssAnswer>, v: Verdict, state: State,
    error: Option<Error>)
    requires t < |before.rows|
  {
    if !v.PayOut? || PostCommits(before, CreditPair(t, d.account, v.omnibus, d.amount)) then
      && state == StateAfter(v)
      && (error == None <==> !v.VendorSilent? && !v.FundingSilent?)
      && after.rows == before.rows[t := RowAfter(before.rows[t], vendor, v)]
      && after.ledger == before.ledger +
         if v.PayOut? then Entries(CreditPair(t, d.account, v.omnibus, d.amount), |before.ledger|) else []
    else
      && state == Approved && error.Some? && after.ledger == before.ledger
      && after.rows == before.rows[t := RowAfter(before.rows[t], vendor, v).(state := Approved)]
  }

  /** The funding half of the flow: from Analyzing to the end. */
  method Fund(db: Database, t: TransferId, d: Detail, answer: VssAnswer, dup: Duplicates)
    returns (state: State, error: Option<Error>)
    requires db.Valid() && db.worker.Deposit? && db.worker.dpc == DFundingCalled && db.worker.t == t && db.worker.d == d
    requires db.worker.answer == answer
    modifies db`rows, db`events, db`ledger, db`worker, db`choices
    ensures db.Valid() && db.origin == old(db.origin) && db.start == old(db.start)
    ensures db.worker.Deposit? && db.worker.dpc == DHalt(state, error) && db.worker.t == t && db.worker.d == d
    ensures db.reliable && LockHolds(old(db.Snapshot()), t, Analyzing) ==>
      CarriedOut(
        old(db.Snapshot()), db.Snapshot(), t, d, None, FundingVerdict(d, answer, dup, db.OmnibusOf(d.correspondent)),
        state, error)
  {
    ghost var before, exact := db.Snapshot(), db.reliable && LockHolds(db.Snapshot(), t, Analyzing);
    ghost var v := FundingVerdict(d, answer, dup, db.OmnibusOf(d.correspondent));
    var go, decision;
    go, state, error, decision := Decide(db, t, d, answer, dup);
    if go {
      ghost var mid := db.Snapshot();
      state, error := PayDeposit(db, t, d, decision);
      if exact {
        PaidDeposit(before, mid, db.Snapshot(), t, d, v, state, error);
      }
    } else if exact {
      UnpaidDeposit(before, db.Snapshot(), t, d, v, error);
    }
  }

  lemma {:induction false} PaidDeposit(
    before: Db, mid: Db, after: Db, t: TransferId, d: Detail, v: Verdict, state: State, error: Option<Error>)
    requires t < |before.rows| && v.PayOut?
    requires mid.rows == before.rows && mid.ledger == before.ledger && mid.accounts == before.accounts
    requires var p := CreditPair(t, d.account, v.omnibus, d.amount); var paid := Paid(before.rows[t], v.contribution);
      if PostCommits(mid, p) then
        && state == FundsPosted && error == None
        && after.rows == before.rows[t := paid] && after.ledger == before.ledger + Entries(p, |before.ledger|)
      else
        && state == Approved && error.Some?
        && after.rows == before.rows[t := paid.(state := Approved)] && after.ledger == before.ledger
    ensures CarriedOut(before, after, t, d, None, v, state, error)
  {
    assert RowAfter(before.rows[t], None, v) == Paid(before.rows[t], v.contribution);
  }

  lemma {:induction false} UnpaidDeposit(
    before: Db, after: Db, t: TransferId, d: Detail, v: Verdict, error: Option<Error>)
    requires t < |before.rows| && !v.PayOut? && !v.VendorSilent?
    requires error == None <==> v.TurnDown? || v.SendToReview?
    requires after.rows == before.rows[t := RowAfter(before.rows[t], None, v)] && after.ledger == before.ledger
    ensures CarriedOut(before, after, t, d, None, v, StateAfter(v), error)
  {
  }

  /** The answer stops the deposit, and that is carried out. */
  lemma {:induction false} StoppedDeposit(
    before: Db, after: Db, t: TransferId, d: Detail, answer: VssAnswer, dup: Duplicates, omnibus: Option<AccountId>)
    requires t < |before.rows| && (answer.iqa == IqaFail || answer.duplicate)
    requires after.rows == before.rows[t := Screened(before.rows[t], answer)] && after.ledger == before.ledger
    ensures CarriedOut(before, after, t, d, Some(answer), VerdictOf(d, Some(answer), dup, omnibus), Rejected, None)
  {
  }

  /** What follows the screening carries out the whole verdict. */
  lemma {:induction false} FundedDeposit(
    before: Db, mid: Db, after: Db, t: TransferId, d: Detail, answer: VssAnswer, dup: Duplicates,
    omnibus: Option<AccountId>, state: State, error: Option<Error>)
    requires t < |before.rows| && answer.iqa != IqaFail && !answer.duplicate
    requires mid.rows == before.rows[t := Screened(before.rows[t], answer)]
    requires mid.ledger == before.ledger && mid.accounts == before.accounts
    requires CarriedOut(mid, after, t, d, None, FundingVerdict(d, answer, dup, omnibus), state, error)
    ensures CarriedOut(
      before, after, t, d, Some(answer), VerdictOf(d, Some(answer), dup, omnibus), state, error)
  {
    var v := FundingVerdict(d, answer, dup, omnibus);
    assert VerdictOf(d, Some(answer), dup, omnibus) == v && !v.VendorSilent?;
    assert RowAfter(before.rows[t], Some(answer), v) == RowAfter(Screened(before.rows[t], answer), None, v);
  }

  /** From the vendor's answer to the end. */
  method Assess(db: Database, t: TransferId, d: Detail, answer: VssAnswer, dup: Duplicates)
    returns (state: State, error: Option<Error>)
    requires db.Valid() && db.worker.Deposit? && db.worker.dpc == DStoreResult && db.worker.t == t && db.worker.d == d
    requires db.worker.answer == answer
    modifies db`rows, db`events, db`ledger, db`worker, db`choices
    ensures db.Valid() && db.origin == old(db.origin) && db.start == old(db.start)
    ensures db.worker.Deposit? && db.worker.dpc == DHalt(state, error) && db.worker.t == t && db.worker.d == d
    ensures db.reliable && LockHolds(old(db.Snapshot()), t, Validating) ==>
      CarriedOut(
        old(db.Snapshot()), db.Snapshot(), t, d, Some(answer),
        VerdictOf(d, Some(answer), dup, db.OmnibusOf(d.correspondent)), state, error)
  {
    var go;
    ghost var before, exact := db.Snapshot(), db.reliable && LockHolds(db.Snapshot(), t, Validating);
    go, state, error := Screen(db, t, d, answer);
    ghost var mid := db.Snapshot();
    if go {
      state, error := Fund(db, t, d, answer, dup);
      if exact {
        FundedDeposit(before, mid, db.Snapshot(), t, d, answer, dup, db.OmnibusOf(d.correspondent), state, error);
      }
    } else if exact {
      StoppedDeposit(before, mid, t, d, answer, dup, db.OmnibusOf(d.correspondent));
    }
  }

  /** A silent vendor leaves the row in Validating. */
  lemma {:induction false} SilentVendor(
    before: Db, after: Db, t: TransferId, d: Detail, dup: Duplicates, omnibus: Option<AccountId>, error: Option<Error>)
    requires t < |before.rows| && error.Some?
    requires after.rows == before.rows[t := before.rows[t].(state := Validating)] && after.ledger == before.ledger
    ensures CarriedOut(before, after, t, d, None, VerdictOf(d, None, dup, omnibus), Validating, error)
  {
  }

  /** What follows the vendor's answer carries out the whole verdict. */
  lemma {:induction false} AssessedDeposit(
    before: Db, mid: Db, after: Db, t: TransferId, d: Detail, answer: VssAnswer, v: Verdict, state: State,
    error: Option<Error>)
    requires t < |before.rows|
    requires mid.rows == before.rows[t := before.rows[t].(state := Validating)]
    requires mid.ledger == before.ledger && mid.accounts == before.accounts
    requires CarriedOut(mid, after, t, d, Some(answer), v, state, error)
    ensures CarriedOut(before, after, t, d, Some(answer), v, state, error)
  {
    assert RowAfter(before.rows[t].(state := Validating), Some(answer), v) == RowAfter(before.rows[t], Some(answer), v);
  }

  // ---- the outcome in terms of the answers and the row ----

  /** The vendor's answer lets the deposit go on to the funding engine. */
  predicate GoesOn(vendor: Option<VssAnswer>) {
    vendor.Some? && vendor.value.iqa != IqaFail && !vendor.value.duplicate
  }

  /** Neither the duplicate check nor the account or its limit stops the deposit. */
  predicate IsFundable(d: Detail, dup: Duplicates) {
    && (dup == NoChecker || dup == NotSeen)
    && d.status == Active && d.accountType !in d.config.ineligibleTypes && d.amount <= d.config.depositLimit
  }

  /** The MICR data the operator must look at: none, or a passed image without a routing number. */
  predicate LacksMicr(answer: VssAnswer) {
    answer.micr == None || (answer.iqa == IqaPass && answer.micr.value.routing == "")
  }

  /** What becomes of the row of a deposit the vendor has nothing against; `funded` is its last state if it
      is paid out. */
  predicate Funded(
    d: Detail, answer: VssAnswer, dup: Duplicates, omnibus: Option<AccountId>, row: Row, after: Row, funded: State)
  {
    var seen := row.(micr := answer.micr);
    var unseen := dup == NoChecker || dup == NotSeen;
    var barred := d.status != Active || d.accountType in d.config.ineligibleTypes;
    && (dup == CheckFailed ==> after == seen.(state := Analyzing))
    && (dup == Seen ==> after == seen.(state := Rejected, errorCode := Some(FsDuplicateDeposit)))
    && (unseen && barred ==> after == seen.(state := Rejected, errorCode := Some(FsAccountIneligible)))
    && (unseen && !barred && d.amount > d.config.depositLimit ==>
          after == seen.(state := Rejected, errorCode := Some(FsOverDepositLimit)))
    && (IsFundable(d, dup) && omnibus == None ==> after == seen.(state := Analyzing))
    && (IsFundable(d, dup) && omnibus.Some? && answer.ocrAmount != d.amount ==>
          after == seen.(state := Analyzing, reviewReason := Some(VssAmountMismatch)))
    && (IsFundable(d, dup) && omnibus.Some? && answer.ocrAmount == d.amount && LacksMicr(answer) ==>
          after == seen.(state := Analyzing, reviewReason := Some(VssMicrReadFail)))
    && (IsFundable(d, dup) && omnibus.Some? && answer.ocrAmount == d.amount && !LacksMicr(answer) ==>
          after == seen.(
            state := funded,
            contribution := if d.accountType == IraAccount then IndividualContribution else row.contribution))
  }

  /** What becomes of the row of any deposit. */
  predicate Judged(
    d: Detail, vendor: Option<VssAnswer>, dup: Duplicates, omnibus: Option<AccountId>, row: Row, after: Row,
    funded: State)
  {
    if vendor == None then
      after == row.(state := Validating)
    else
      var answer := vendor.value;
      var stopped := row.(micr := answer.micr, state := Rejected);
      && (answer.iqa == IqaFail && answer.iqaError == Glare ==> after == stopped.(errorCode := Some(VssIqaGlare)))
      && (answer.iqa == IqaFail && answer.iqaError != Glare ==> after == stopped.(errorCode := Some(VssIqaBlur)))
      && (answer.iqa != IqaFail && answer.duplicate ==> after == stopped.(errorCode := Some(VssDuplicateDetected)))
      && (GoesOn(vendor) ==> Funded(d, answer, dup, omnibus, row, after, funded))
  }

  /** The two entries of a deposit: the omnibus account is debited, the investor credited. */
  function DepositEntries(t: TransferId, d: Detail, omnibus: AccountId, movement: nat): seq<Entry> {
    [ Entry(movement, t, omnibus, Debit, d.amount, ProvisionalCredit),
      Entry(movement, t, d.account, Credit, d.amount, ProvisionalCredit) ]
  }

  /** Everything that becomes of a deposit when nothing fails: its row, its entries, and what is reported. */
  predicate Ends(
    before: Db, after: Db, t: TransferId, d: Detail, vendor: Option<VssAnswer>, dup: Duplicates,
    omnibus: Option<AccountId>, state: State, error: Option<Error>)
    requires t < |before.rows|
  {
    var row, n := before.rows[t], |before.ledger|;
    var entries := if omnibus.Some? then DepositEntries(t, d, omnibus.value, n) else [];
    var fits := Commits(|before.rows|, before.accounts.Keys, before.ledger, entries);
    && |after.rows| == |before.rows| && after.rows == before.rows[t := after.rows[t]]
    && Judged(d, vendor, dup, omnibus, row, after.rows[t], if fits then FundsPosted else Approved)
    && state == after.rows[t].state
    && after.ledger == before.ledger + (if state == FundsPosted then entries else [])
    && (error.Some? <==>
          || vendor == None
          || (GoesOn(vendor) && (dup == CheckFailed || (IsFundable(d, dup) && omnibus == None)))
          || state == Approved)
  }

  /** What is carried out, row and verdict. */
  lemma {:induction false} VerdictIsJudged(
    d: Detail, vendor: Option<VssAnswer>, dup: Duplicates, omnibus: Option<AccountId>, row: Row)
    ensures var v := VerdictOf(d, vendor, dup, omnibus); var after := RowAfter(row, vendor, v);
      && Judged(d, vendor, dup, omnibus, row, after, FundsPosted)
      && (v.PayOut? ==> Judged(d, vendor, dup, omnibus, row, after.(state := Approved), Approved))
      && (v.PayOut? ==> Some(v.omnibus) == omnibus)
      && (!v.PayOut? ==> Judged(d, vendor, dup, omnibus, row, after, Approved))
      && (v.VendorSilent? || v.FundingSilent? <==>
            vendor == None || (GoesOn(vendor) && (dup == CheckFailed || (IsFundable(d, dup) && omnibus == None))))
  {
    EngineDecides(RequestOf(d), dup, omnibus);
  }

  lemma {:induction false} CarriedOutEnds(
    before: Db, after: Db, t: TransferId, d: Detail, vendor: Option<VssAnswer>, dup: Duplicates,
    omnibus: Option<AccountId>, state: State, error: Option<Error>)
    requires t < |before.rows| && before.rows[t].state == Requested
    requires CarriedOut(before, after, t, d, vendor, VerdictOf(d, vendor, dup, omnibus), state, error)
    ensures Ends(before, after, t, d, vendor, dup, omnibus, state, error)
  {
    VerdictIsJudged(d, vendor, dup, omnibus, before.rows[t]);
    if omnibus.Some? {
      assert Entries(CreditPair(t, d.account, omnibus.value, d.amount), |before.ledger|)
        == DepositEntries(t, d, omnibus.value, |before.ledger|);
    }
  }

  /** ProcessDeposit makes exactly the calls of its process; and when nothing fails it carries out the
      verdict of the decision table. */
  method ProcessDeposit(db: Database, t: TransferId, d: Detail, vendor: Option<VssAnswer>, dup: Duplicates)
    returns (state: State, error: Option<Error>)
    requires db.Valid() && db.worker.Deposit? && db.worker.dpc == DValidate && db.worker.t == t && db.worker.d == d
    modifies db`rows, db`events, db`ledger, db`worker, db`choices
    ensures db.Valid() && db.origin == old(db.origin) && db.start == old(db.start)
    ensures db.worker.Deposit? && db.worker.dpc == DHalt(state, error) && db.worker.t == t && db.worker.d == d
    ensures db.reliable && LockHolds(old(db.Snapshot()), t, Requested) ==>
      && CarriedOut(
           old(db.Snapshot()), db.Snapshot(), t, d, vendor, VerdictOf(d, vendor, dup, db.OmnibusOf(d.correspondent)),
           state, error)
      && Ends(
           old(db.Snapshot()), db.Snapshot(), t, d, vendor, dup, db.OmnibusOf(d.correspondent), state, error)
  {
    var go, answer;
    ghost var before, exact := db.Snapshot(), db.reliable && LockHolds(db.Snapshot(), t, Requested);
    go, state, error, answer := Validate(db, t, d, vendor);
    ghost var mid, omnibus := db.Snapshot(), db.OmnibusOf(d.correspondent);
    if go {
      state, error := Assess(db, t, d, answer, dup);
      if exact {
        AssessedDeposit(
          before, mid, db.Snapshot(), t, d, answer, VerdictOf(d, Some(answer), dup, omnibus), state, error);
      }
    } else if exact {
      SilentVendor(before, mid, t, d, dup, omnibus, error);
    }
    if exact {
      CarriedOutEnds(before, db.Snapshot(), t, d, vendor, dup, omnibus, state, error);
    }
  }

  /** Only rows, ledger and accounts matter to what is carried out. */
  lemma {:induction false} CarriedOutFrom(
    before: Db, same: Db, after: Db, t: TransferId, d: Detail, vendor: Option<VssAnswer>, v: Verdict, state: State,
    error: Option<Error>)
    requires same.rows == before.rows && same.ledger == before.ledger && same.accounts == before.accounts
    requires t < |before.rows| && CarriedOut(before, after, t, d, vendor, v, state, error)
    ensures CarriedOut(same, after, t, d, vendor, v, state, error)
  {
  }

  /** The account takes deposits: it exists, and its correspondent has an omnibus account. */
  predicate TakesDeposits(db: Db, account: AccountId) {
    && account in db.accounts && db.accounts[account].correspondent.Some?
    && db.accounts[account].correspondent.value in db.omnibusOf
  }

  /** A deposit gets a row. */
  predicate OpensRow(db: Db, account: AccountId, amount: int) {
    && ValidAmount(amount) && TakesDeposits(db, account)
    && db.omnibusOf[db.accounts[account].correspondent.value] in db.accounts
  }

  /** What is captured for a deposit made now. */
  function DetailNow(db: Db, account: AccountId, amount: int, config: RulesConfig): Detail
    requires TakesDeposits(db, account)
  {
    var a := db.accounts[account];
    var c := a.correspondent.value;
    Detail(account, a.accountType, a.status, c, db.omnibusOf[c], amount, config)
  }

  /** The database with the new row of a deposit. */
  function WithNewRow(db: Db, d: Detail, now: int): Db {
    db.(rows := db.rows + [NewRow(d.account, d.omnibus, d.correspondent, d.amount, now)])
  }

  /** CreateDeposit: the account as it is now, a new row, and the flow.  When nothing fails a row is made
      exactly when the account takes deposits and the amount and accounts satisfy the constraints; the
      verdict is then carried out on it; and otherwise nothing has changed.  The answers of the world
      come in as parameters. */
  method CreateDeposit(
    db: Database, account: AccountId, amount: int, config: RulesConfig, now: int,
    vendor: Option<VssAnswer>, dup: Duplicates)
    returns (t: Option<TransferId>, state: State, error: Option<Error>)
    requires db.Valid() && db.worker.Deposit? && db.worker.dpc == DLookUp
    requires db.worker.d.account == account && db.worker.d.amount == amount
    modifies db`rows, db`events, db`ledger, db`worker, db`choices
    ensures db.Valid() && db.origin == old(db.origin) && db.start == old(db.start)
    ensures amount <= 0 ==> t == None && error == Some(BadAmount) && db.Snapshot() == old(db.Snapshot())
    ensures amount > 0 ==> db.worker.Deposit? && db.worker.dpc == DHalt(state, error)
    ensures t.Some? ==>
      && TakesDeposits(old(db.Snapshot()), account)
      && db.worker.Deposit? && t.value == |old(db.rows)| == db.worker.t
      && db.worker.d == DetailNow(old(db.Snapshot()), account, amount, config)
    ensures t == None ==> error.Some?
    ensures db.reliable ==>
      (t.Some? <==> OpensRow(old(db.Snapshot()), account, amount))
    ensures db.reliable && t == None ==> db.Snapshot() == old(db.Snapshot())
    ensures db.reliable && t.Some? ==>
      var d := DetailNow(old(db.Snapshot()), account, amount, config);
      CarriedOut(
        WithNewRow(old(db.Snapshot()), d, now), db.Snapshot(), t.value, d, vendor,
        VerdictOf(d, vendor, dup, db.OmnibusOf(d.correspondent)), state, error)
  {
    t, state := None, Requested;
    if amount <= 0 {
      return t, state, Some(BadAmount);
    }
    ghost var before := db.Snapshot();
    var d;
    t, error, d := OpenDeposit(db, account, amount, config, now);
    if t.Some? {
      ghost var mid := db.Snapshot();
      state, error := ProcessDeposit(db, t.value, d, vendor, dup);
      if db.reliable {
        CarriedOutFrom(
          mid, WithNewRow(before, d, now), db.Snapshot(), t.value, d, vendor,
          VerdictOf(d, vendor, dup, db.OmnibusOf(d.correspondent)), state, error);
      }
    }
  }

  /** The account is looked up, the row inserted, and the submission noted. */
  method OpenDeposit(db: Database, account: AccountId, amount: int, config: RulesConfig, now: int)
    returns (t: Option<TransferId>, error: Option<Error>, d: Detail)
    requires db.Valid() && db.worker.Deposit? && db.worker.dpc == DLookUp && amount > 0
    requires db.worker.d.account == account && db.worker.d.amount == amount
    modifies db`rows, db`events, db`worker, db`choices
    ensures db.Valid() && db.origin == old(db.origin) && db.start == old(db.start)
    ensures t == None ==> error.Some? && db.worker.Deposit? && db.worker.dpc == DHalt(Requested, error)
    ensures t.Some? ==>
      && TakesDeposits(old(db.Snapshot()), account) && d == DetailNow(old(db.Snapshot()), account, amount, config)
      && t.value == |old(db.rows)|
      && db.worker.Deposit? && db.worker.dpc == DValidate && db.worker.t == t.value && db.worker.d == d
    ensures db.reliable ==>
      (t.Some? <==> OpensRow(old(db.Snapshot()), account, amount))
    ensures db.reliable && t == None ==> db.Snapshot() == old(db.Snapshot())
    ensures db.reliable && t.Some? ==> db.rows == WithNewRow(old(db.Snapshot()), d, now).rows
  {
    t, d := None, Detail(account, FeeAccount, Suspended, "", 0, amount, config);
    ghost var before := db.Snapshot();
    var r := db.LookUpAccount(account, config);
    if !r.TheAccount? {
      return t, ErrorOf(r), d;
    }
    d := Detail(account, r.accountType, r.status, r.correspondent, r.omnibus, amount, r.config);
    assert db.Snapshot() == before && TakesDeposits(before, account) && d == DetailNow(before, account, amount, config);
    t, error := InsertDeposit(db, d, now);
  }

  /** The row is inserted and the submission noted. */
  method InsertDeposit(db: Database, d: Detail, now: int) returns (t: Option<TransferId>, error: Option<Error>)
    requires db.Valid() && db.worker.Deposit? && db.worker.dpc == DCreate && db.worker.d == d
    modifies db`rows, db`events, db`worker, db`choices
    ensures db.Valid() && db.origin == old(db.origin) && db.start == old(db.start)
    ensures t == None ==> error.Some? && db.worker == old(db.worker).(dpc := DHalt(Requested, error))
    ensures t.Some? ==> t.value == |old(db.rows)| && db.worker == old(db.worker).(dpc := DValidate, t := t.value)
    ensures db.reliable ==>
      (t.Some? <==> ValidAmount(d.amount) && d.account in db.accounts && d.omnibus in db.accounts)
    ensures db.reliable && t == None ==> db.Snapshot() == old(db.Snapshot())
    ensures db.reliable && t.Some? ==> db.rows == WithNewRow(old(db.Snapshot()), d, now).rows
  {
    var r := db.Create(d.account, d.omnibus, d.correspondent, d.amount, now);
    if !r.Created? {
      return None, ErrorOf(r);
    }
    var _ := db.WriteEvent(r.t, Note("submitted"));
    return Some(r.t), None;
  }
}
