/** The operator's action and the bank's return as the source runs them (cmd/api/handlers/operator.go,
    internal/returns/handler.go). */
module Reviews {
  import opened States
  import opened Tables
  import opened Ledger
  import opened Operations
  import opened Handlers
  import opened Store
  import opened Flow

  /** Analyzing to Approved. */
  method ApproveReviewed(db: Database, t: TransferId) returns (error: Option<Error>)
    requires db.Valid() && db.worker.Operator? && db.worker.t == t && db.worker.opc == OApprove
    modifies db`rows, db`events, db`worker, db`choices
    ensures db.Valid() && db.origin == old(db.origin) && db.start == old(db.start)
    ensures db.worker == old(db.worker).(opc := if error == None then OPost else OHalt(error))
    ensures db.reliable ==>
      if LockHolds(old(db.Snapshot()), t, Analyzing) then
        error == None && db.rows == old(db.rows)[t := old(db.rows)[t].(state := Approved)]
      else
        error == Some(OptimisticLock) && db.rows == old(db.rows)
  {
    EdgesAreTheTable(Analyzing, Approved);
    error := Transition(db, t, Analyzing, Approved);
  }

  /** Approved to FundsPosted. */
  method FundReviewed(db: Database, t: TransferId) returns (error: Option<Error>)
    requires db.Valid() && db.worker.Operator? && db.worker.t == t && db.worker.opc == OFundsPosted
    modifies db`rows, db`events, db`worker, db`choices
    ensures db.Valid() && db.origin == old(db.origin) && db.start == old(db.start)
    ensures db.worker == old(db.worker).(opc := OHalt(error))
    ensures db.reliable ==>
      if LockHolds(old(db.Snapshot()), t, Approved) then
        error == None && db.rows == old(db.rows)[t := old(db.rows)[t].(state := FundsPosted)]
      else
        error == Some(OptimisticLock) && db.rows == old(db.rows)
  {
    EdgesAreTheTable(Approved, FundsPosted);
    error := Transition(db, t, Approved, FundsPosted);
  }

  /** From the state that was read to Rejected. */
  method RejectReviewed(db: Database, t: TransferId, from: State) returns (error: Option<Error>)
    requires db.Valid() && db.worker.Operator? && db.worker.t == t && db.worker.opc == OReject
    requires from == OperatorFrom(db.worker)
    modifies db`rows, db`events, db`worker, db`choices
    ensures db.Valid() && db.origin == old(db.origin) && db.start == old(db.start)
    ensures db.worker == old(db.worker).(opc := OHalt(error))
    ensures db.reliable ==>
      if LockHolds(old(db.Snapshot()), t, from) then
        error == None && db.rows == old(db.rows)[t := old(db.rows)[t].(state := Rejected)]
      else
        error == Some(OptimisticLock) && db.rows == old(db.rows)
  {
    EdgesAreTheTable(from, Rejected);
    error := Transition(db, t, from, Rejected);
  }

  /** The credit of what has become Approved, then FundsPosted. */
  method CreditApproved(db: Database, t: TransferId, read: Row) returns (error: Option<Error>)
    requires db.Valid() && db.worker.Operator? && db.worker.opc == OPost && db.worker.t == t && db.worker.read == read
    modifies db`rows, db`events, db`ledger, db`worker, db`choices
    ensures db.Valid() && db.origin == old(db.origin) && db.start == old(db.start)
    ensures db.worker.Operator? && db.worker.opc == OHalt(error)
    ensures db.reliable && LockHolds(old(db.Snapshot()), t, Approved) ==>
      var p := CreditPair(t, read.account, read.omnibus, read.amount);
      if PostCommits(old(db.Snapshot()), p) then
        && error == None
        && db.rows == old(db.rows)[t := old(db.rows)[t].(state := FundsPosted)]
        && db.ledger == old(db.ledger) + Entries(p, |old(db.ledger)|)
      else
        error == Some(ConstraintViolation) && db.rows == old(db.rows) && db.ledger == old(db.ledger)
  {
    var r := db.PostDoubleEntry(read.omnibus, read.account, read.amount, Free, t);
    if r != Done {
      return ErrorOf(r);
    }
    var _ := db.WriteEvent(t, Note("ledger_posted"));
    error := FundReviewed(db, t);
  }

  /** Approve what was read in Analyzing: Approved, the credit, FundsPosted. */
  method ApproveAction(db: Database, t: TransferId, read: Row) returns (error: Option<Error>)
    requires db.Valid() && db.worker.Operator? && db.worker.opc == OApprove
    requires db.worker.t == t && db.worker.read == read
    modifies db`rows, db`events, db`ledger, db`worker, db`choices
    ensures db.Valid() && db.origin == old(db.origin) && db.start == old(db.start)
    ensures db.worker.Operator? && db.worker.opc == OHalt(error)
    ensures db.reliable && !LockHolds(old(db.Snapshot()), t, Analyzing) ==>
      error == Some(OptimisticLock) && db.rows == old(db.rows) && db.ledger == old(db.ledger)
    ensures db.reliable && LockHolds(old(db.Snapshot()), t, Analyzing) ==>
      var p := CreditPair(t, read.account, read.omnibus, read.amount);
      if PostCommits(old(db.Snapshot()), p) then
        && error == None
        && db.rows == old(db.rows)[t := old(db.rows)[t].(state := FundsPosted)]
        && db.ledger == old(db.ledger) + Entries(p, |old(db.ledger)|)
      else
        && error == Some(ConstraintViolation)
        && db.rows == old(db.rows)[t := old(db.rows)[t].(state := Approved)]
        && db.ledger == old(db.ledger)
  {
    error := ApproveReviewed(db, t);
    if error == None {
      error := CreditApproved(db, t, read);
    }
  }

  /** The operator's reason, if one was given, becomes the error code. */
  method StoreReason(db: Database, t: TransferId, reason: Code)
    requires db.Valid() && db.worker.Operator? && db.worker.opc == (if reason != NoCode then ORejectCode else OReject)
    requires db.worker.t == t && db.worker.reason == reason
    modifies db`rows, db`worker, db`choices
    ensures db.Valid() && db.origin == old(db.origin) && db.start == old(db.start)
    ensures db.worker == old(db.worker).(opc := OReject)
    ensures reason == NoCode ==> db.rows == old(db.rows)
    ensures db.reliable && t < |old(db.rows)| && reason != NoCode ==>
      db.rows == old(db.rows)[t := old(db.rows)[t].(errorCode := Some(reason))]
  {
    if reason != NoCode {
      var _ := db.SetErrorCode(t, reason);
    }
  }

  method RejectAction(db: Database, t: TransferId, read: Row, reason: Code) returns (error: Option<Error>)
    requires db.Valid() && db.worker.Operator? && db.worker.opc == (if reason != NoCode then ORejectCode else OReject)
    requires db.worker.t == t && db.worker.read == read && db.worker.reason == reason
    modifies db`rows, db`events, db`worker, db`choices
    ensures db.Valid() && db.origin == old(db.origin) && db.start == old(db.start)
    ensures db.worker.Operator? && db.worker.opc == OHalt(error)
    ensures db.reliable && t < |old(db.rows)| && old(db.rows)[t].state == read.state && IsReviewable(read) ==>
      var row := old(db.rows)[t].(state := Rejected);
      error == None && db.rows == old(db.rows)[t := if reason != NoCode then row.(errorCode := Some(reason)) else row]
  {
    StoreReason(db, t, reason);
    error := RejectReviewed(db, t, if read.state == Validating then Validating else Analyzing);
  }

  /** What a reviewed row becomes before the action itself. */
  function Overridden(row: Row, override: Contribution): Row {
    if override != Unspecified then row.(contribution := override) else row
  }

  /** The action is logged and an override stored. */
  method Annotate(db: Database, t: TransferId, override: Contribution)
    requires db.Valid() && db.worker.Operator? && db.worker.opc == OAction && db.worker.t == t
    requires db.worker.override == override
    modifies db`rows, db`events, db`worker, db`choices
    ensures db.Valid() && db.origin == old(db.origin) && db.start == old(db.start)
    ensures db.worker == old(db.worker).(opc := OperatorBranch(old(db.worker)))
    ensures db.reliable && t < |old(db.rows)| ==> db.rows == old(db.rows)[t := Overridden(old(db.rows)[t], override)]
  {
    var _ := db.WriteEvent(t, Note("operator_action"));
    if override != Unspecified {
      var _ := db.SetContributionType(t, override);
    }
  }

  /** What an action makes of a reviewable row. */
  predicate ActedOn(
    before: Db, after: Db, t: TransferId, approve: bool, reason: Code, override: Contribution, error: Option<Error>)
    requires t < |before.rows|
  {
    var read := before.rows[t];
    var row, p := Overridden(read, override), CreditPair(t, read.account, read.omnibus, read.amount);
    if !approve then
      var gone := row.(state := Rejected);
      && error == None && after.ledger == before.ledger
      && after.rows == before.rows[t := if reason != NoCode then gone.(errorCode := Some(reason)) else gone]
    else if read.state == Validating then
      error == Some(OptimisticLock) && after.ledger == before.ledger && after.rows == before.rows[t := row]
    else if PostCommits(before, p) then
      && error == None
      && after.rows == before.rows[t := row.(state := FundsPosted)]
      && after.ledger == before.ledger + Entries(p, |before.ledger|)
    else
      && error == Some(ConstraintViolation)
      && after.rows == before.rows[t := row.(state := Approved)]
      && after.ledger == before.ledger
  }

  /** The action on a row that was found reviewable. */
  method ActOn(db: Database, t: TransferId, read: Row, approve: bool, reason: Code, override: Contribution)
    returns (error: Option<Error>)
    requires db.Valid() && db.worker.Operator? && db.worker.opc == OAction && db.worker.t == t && db.worker.read == read
    requires db.worker.approve == approve && db.worker.reason == reason && db.worker.override == override
    modifies db`rows, db`events, db`ledger, db`worker, db`choices
    ensures db.Valid() && db.origin == old(db.origin) && db.start == old(db.start)
    ensures db.worker.Operator? && db.worker.opc == OHalt(error)
    ensures db.reliable && t < |old(db.rows)| && old(db.rows)[t] == read && IsReviewable(read) ==>
      ActedOn(old(db.Snapshot()), db.Snapshot(), t, approve, reason, override, error)
  {
    Annotate(db, t, override);
    if approve {
      error := ApproveAction(db, t, read);
    } else {
      error := RejectAction(db, t, read, reason);
    }
  }

  /** PostAction makes exactly the calls of its process.  When nothing fails: rows it may not touch are
      left alone, a row in review is approved and credited or rejected, and a row still in Validating
      can be rejected but not approved. */
  method PostAction(
    db: Database, t: TransferId, approve: bool, reason: Code, override: Contribution, scope: Option<CorrespondentId>)
    returns (error: Option<Error>)
    requires db.Valid() && db.worker.Operator? && db.worker.opc == OLoad && db.worker.t == t
    requires db.worker.approve == approve && db.worker.reason == reason
    requires db.worker.override == override && db.worker.scope == scope
    modifies db`rows, db`events, db`ledger, db`worker, db`choices
    ensures db.Valid() && db.origin == old(db.origin) && db.start == old(db.start)
    ensures db.worker.Operator? && db.worker.opc == OHalt(error)
    ensures db.reliable ==>
      if t >= |old(db.rows)| || (scope.Some? && old(db.rows)[t].correspondent != scope.value) then
        error == Some(NotFound) && db.Snapshot() == old(db.Snapshot())
      else if old(db.rows)[t].state != Validating
              && !(old(db.rows)[t].state == Analyzing && old(db.rows)[t].reviewReason.Some?) then
        error == Some(NotReviewable) && db.Snapshot() == old(db.Snapshot())
      else
        ActedOn(old(db.Snapshot()), db.Snapshot(), t, approve, reason, override, error)
  {
    var r := db.GetByID(t);
    if !r.TheTransfer? {
      return Some(NotFound);
    }
    var read := r.row;
    if scope.Some? && read.correspondent != scope.value {
      return Some(NotFound);
    }
    if !IsReviewable(read) {
      return Some(NotReviewable);
    }
    error := ActOn(db, t, read, approve, reason, override);
  }

  /** The COLLECTIONS check. */
  method CheckCollections(db: Database, t: TransferId, account: AccountId)
    requires db.Valid() && db.worker.Return? && db.worker.rpc == RProcessed && db.worker.t == t
    requires db.worker.read.account == account
    modifies db`events, db`accounts, db`worker, db`choices
    ensures db.Valid() && db.origin == old(db.origin) && db.start == old(db.start)
    ensures db.worker.Return? && db.worker.rpc == RHalt(None)
    ensures db.reliable ==>
      db.accounts == if Balance(db.ledger, account) < 0 && account in old(db.accounts)
                     then old(db.accounts)[account := old(db.accounts)[account].(status := Collections)]
                     else old(db.accounts)
  {
    var _ := db.WriteEvent(t, Note("return_processed"));
    var r := db.GetBalance(account);
    if r.TheBalance? && r.balance < 0 {
      var _ := db.SetAccountStatus(account, Collections);
    }
  }

  /** The change to Returned and what follows it. */
  method Finish(db: Database, t: TransferId, read: Row) returns (error: Option<Error>)
    requires db.Valid() && db.worker.Return? && db.worker.rpc == RReturn && db.worker.t == t && db.worker.read == read
    requires read.state == FundsPosted || read.state == Completed
    modifies db`rows, db`events, db`accounts, db`worker, db`choices
    ensures db.Valid() && db.origin == old(db.origin) && db.start == old(db.start)
    ensures db.worker.Return? && db.worker.rpc == RHalt(error)
    ensures db.reliable && LockHolds(old(db.Snapshot()), t, read.state) ==>
      && error == None
      && db.rows == old(db.rows)[t := old(db.rows)[t].(state := Returned)]
      && db.accounts == if Balance(db.ledger, read.account) < 0 && read.account in old(db.accounts)
                        then old(db.accounts)[read.account := old(db.accounts)[read.account].(status := Collections)]
                        else old(db.accounts)
  {
    var r := db.UpdateState(t, read.state, Returned);
    if r != Done {
      return ErrorOf(r);
    }
    var _ := db.WriteEvent(t, StateChanged(read.state, Returned));
    CheckCollections(db, t, read.account);
    return None;
  }

  /** ProcessReturn makes exactly the calls of its process.  When nothing fails, the row is Returned
      afterwards exactly when it was already, or when it was FundsPosted or Completed, the fee terms
      were found, and both postings were accepted; a reversal accepted without its fee stays, and an
      account left negative goes to COLLECTIONS. */
  method ProcessReturn(db: Database, t: TransferId, terms: Option<(int, AccountId)>) returns (error: Option<Error>)
    requires db.Valid() && db.worker.Return? && db.worker.rpc == RLoad && db.worker.t == t
    modifies db`rows, db`events, db`ledger, db`accounts, db`worker, db`choices
    ensures db.Valid() && db.origin == old(db.origin) && db.start == old(db.start)
    ensures db.worker.Return? && db.worker.rpc == RHalt(error)
    ensures db.reliable ==>
      if t >= |old(db.rows)| then
        error == Some(NotFound) && db.Snapshot() == old(db.Snapshot())
      else
        var row := old(db.rows)[t];
        if row.state == Returned then
          error == None && db.Snapshot() == old(db.Snapshot())
        else if row.state != FundsPosted && row.state != Completed then
          error == Some(InvalidReturnState) && db.Snapshot() == old(db.Snapshot())
        else
          var reversal := ReversalPair(t, row);
          var reversed := old(db.ledger) + Entries(reversal, |old(db.ledger)|);
          if terms == None || !PostCommits(old(db.Snapshot()), reversal) then
            error.Some? && db.rows == old(db.rows) && db.ledger == old(db.ledger)
          else
            var feePair := FeePair(t, row, terms.value.1, terms.value.0);
            if !PostCommits(old(db.Snapshot()).(ledger := reversed), feePair) then
              error.Some? && db.rows == old(db.rows) && db.ledger == reversed
            else
              && error == None
              && db.rows == old(db.rows)[t := row.(state := Returned)]
              && db.ledger == reversed + Entries(feePair, |reversed|)
              && db.accounts ==
                 if Balance(db.ledger, row.account) < 0 && row.account in old(db.accounts)
                 then old(db.accounts)[row.account := old(db.accounts)[row.account].(status := Collections)]
                 else old(db.accounts)
  {
    var r := db.GetByID(t);
    if !r.TheTransfer? {
      return ErrorOf(r);
    }
    var read := r.row;
    if read.state == Returned {
      return None;
    }
    if read.state != FundsPosted && read.state != Completed {
      return Some(InvalidReturnState);
    }
    error := Reverse(db, t, read, terms);
    if error.Some? {
      return;
    }
    error := Finish(db, t, read);
  }

  /** The two postings of a return. */
  method Reverse(db: Database, t: TransferId, read: Row, terms: Option<(int, AccountId)>) returns (error: Option<Error>)
    requires db.Valid() && db.worker.Return? && db.worker.rpc == RReceived && db.worker.t == t && db.worker.read == read
    modifies db`events, db`ledger, db`worker, db`choices
    ensures db.Valid() && db.origin == old(db.origin) && db.start == old(db.start)
    ensures error.Some? ==> db.worker.Return? && db.worker.rpc == RHalt(error)
    ensures error == None ==>
      db.worker.Return? && db.worker.rpc == RReturn && db.worker.t == t && db.worker.read == read
    ensures db.reliable ==>
      var reversal := ReversalPair(t, read);
      var reversed := old(db.ledger) + Entries(reversal, |old(db.ledger)|);
      if terms == None || !PostCommits(old(db.Snapshot()), reversal) then
        error.Some? && db.ledger == old(db.ledger)
      else
        var feePair := FeePair(t, read, terms.value.1, terms.value.0);
        if PostCommits(old(db.Snapshot()).(ledger := reversed), feePair) then
          error == None && db.ledger == reversed + Entries(feePair, |reversed|)
        else
          error.Some? && db.ledger == reversed
  {
    var _ := db.WriteEvent(t, Note("return_received"));
    var r := db.GetFeeTerms(terms);
    if !r.TheFee? {
      return ErrorOf(r);
    }
    var fee, feeAccount := r.fee, r.feeAccount;
    r := db.PostDoubleEntry(read.account, read.omnibus, read.amount, ReversalMemo, t);
    if r != Done {
      return ErrorOf(r);
    }
    r := db.PostDoubleEntry(read.account, feeAccount, fee, ReturnedCheckFee, t);
    return ErrorOf(r);
  }
}
