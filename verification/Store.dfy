/** The database as the handlers see it: an object whose methods are single statements, each of which
    may be refused, or may take effect and lose its reply.

    Ghost state ties every execution to the interleaved system: `worker` is the process this execution
    plays.  A method may only be called when it is that process's next call, and it moves the process
    on by the reply; so a handler written as a method makes exactly the calls of its process. */
module Store {
  import opened States
  import opened Tables
  import opened Ledger
  import opened Funding
  import opened Operations
  import opened Handlers
  import opened Listings

  /** What the environment decided in one turn. */
  datatype Choice = Choice(answer: Answer, fault: Fault)

  /** A process alone: the turns of one handler with nothing in between. */
  function RunAlone(db: Db, p: Proc, choices: seq<Choice>): (Db, Proc)
    decreases |choices|, 0
  {
    if choices == [] then (db, p) else LastTurn(db, p, choices)
  }

  function LastTurn(db: Db, p: Proc, choices: seq<Choice>): (Db, Proc)
    requires choices != []
    decreases |choices| - 1, 1
  {
    var (db1, p1) := RunAlone(db, p, choices[..|choices| - 1]);
    var c := choices[|choices| - 1];
    var (db2, r) := Execute(db1, NextCall(p1), c.answer, c.fault);
    (db2, Resume(p1, r))
  }

  lemma {:induction false} RunAloneAppend(
    db: Db, p: Proc, choices: seq<Choice>, c: Choice, db1: Db, p1: Proc, db2: Db, r: Reply)
    requires RunAlone(db, p, choices) == (db1, p1)
    requires Execute(db1, NextCall(p1), c.answer, c.fault) == (db2, r)
    ensures RunAlone(db, p, choices + [c]) == (db2, Resume(p1, r))
  {
    assert (choices + [c])[..|choices|] == choices;
  }

  /** The balanced pair that PostDoubleEntry builds for a memo, if the memo is known. */
  function PairFor(debit: AccountId, credit: AccountId, amount: int, memo: Memo, t: TransferId): Option<Pair> {
    match MemoToEntryType(memo)
    case Some(kind) => Some(Pair(t, kind, debit, credit, amount))
    case None => None
  }

  /** What SetSettlementBatch writes. */
  function Settled(row: Row, b: BatchId, settledAt: Option<int>): Row {
    if settledAt.Some? then row.(batch := Some(b), settledAt := settledAt) else row.(batch := Some(b))
  }

  class Database {
    var rows: seq<Row>
    var ledger: seq<Entry>
    var events: seq<Event>
    var batches: seq<Batch>
    var accounts: map<AccountId, Account>
    const omnibusOf: map<CorrespondentId, AccountId>
    const reliable: bool

    ghost var worker: Proc
    ghost var origin: Db
    ghost var start: Proc
    ghost var choices: seq<Choice>

    function Snapshot(): Db
      reads this
    {
      Db(rows, ledger, events, batches, accounts, omnibusOf)
    }

    /** What has happened since `origin` is a run of `start` alone, and `worker` is where it stands. */
    ghost predicate Valid()
      reads this
    {
      && RunAlone(origin, start, choices) == (Snapshot(), worker)
      && (reliable ==> forall i :: 0 <= i < |choices| ==> choices[i].fault == NoFault)
    }

    constructor (db: Db, reliable: bool, ghost p: Proc)
      ensures Valid() && Snapshot() == db == origin && worker == start == p && this.reliable == reliable
    {
      rows, ledger, events, batches, accounts := db.rows, db.ledger, db.events, db.batches, db.accounts;
      omnibusOf, this.reliable := db.omnibusOf, reliable;
      worker, start, origin, choices := p, p, db, [];
    }

    /** The next handler starts. */
    ghost method Begin(p: Proc)
      modifies `worker, `start, `origin, `choices
      ensures Valid() && worker == start == p && origin == Snapshot()
    {
      worker, start, origin, choices := p, p, Snapshot(), [];
    }

    /** A turn has been taken. */
    ghost method Record(before: Db, answer: Answer, fault: Fault, r: Reply)
      requires RunAlone(origin, start, choices) == (before, worker)
      requires reliable ==> fault == NoFault && forall i :: 0 <= i < |choices| ==> choices[i].fault == NoFault
      requires Execute(before, NextCall(worker), answer, fault) == (Snapshot(), r)
      modifies `worker, `choices
      ensures Valid() && worker == Resume(old(worker), r)
    {
      RunAloneAppend(origin, start, choices, Choice(answer, fault), before, worker, Snapshot(), r);
      choices := choices + [Choice(answer, fault)];
      worker := Resume(worker, r);
    }

    /** Whether the database answers is not ours to decide. */
    method Meet() returns (fault: Fault)
      ensures reliable ==> fault == NoFault
    {
      fault := *;
      if reliable {
        fault := NoFault;
      }
    }

    /** Where a turn leaves this execution: the process moved on by the reply. */
    twostate predicate Turned(r: Reply)
      reads this
    {
      Valid() && worker == Resume(old(worker), r) && origin == old(origin) && start == old(start)
    }

    method LookUpAccount(account: AccountId, config: RulesConfig) returns (r: Reply)
      requires Valid() && NextCall(worker) == Call.LookUpAccount(account)
      modifies `worker, `choices
      ensures Turned(r)
      ensures r.TheAccount? ==>
        && account in accounts && accounts[account].correspondent == Some(r.correspondent)
        && OmnibusOf(r.correspondent) == Some(r.omnibus)
        && r.accountType == accounts[account].accountType && r.status == accounts[account].status && r.config == config
      ensures r.TheAccount? || r.Failed?
      ensures reliable ==> (r.TheAccount? <==>
        account in accounts && accounts[account].correspondent.Some?
        && accounts[account].correspondent.value in omnibusOf)
    {
      var fault := Meet();
      if fault != NoFault {
        r := Failed(Unavailable);
      } else if account in accounts && accounts[account].correspondent.Some?
                && accounts[account].correspondent.value in omnibusOf {
        var a := accounts[account];
        r := TheAccount(a.accountType, a.status, a.correspondent.value, omnibusOf[a.correspondent.value], config);
      } else {
        r := Failed(NotFound);
      }
      Record(Snapshot(), Config(config), fault, r);
    }

    method Create(account: AccountId, omnibus: AccountId, correspondent: CorrespondentId, amount: int, now: int)
      returns (r: Reply)
      requires Valid() && NextCall(worker) == CreateTransfer(account, omnibus, correspondent, amount)
      modifies `rows, `worker, `choices
      ensures Turned(r)
      ensures old(rows) <= rows
      ensures r.Created? || r.Failed?
      ensures r.Created? ==>
        && r.t == |old(rows)|
        && rows == old(rows) + [NewRow(account, omnibus, correspondent, amount, now)]
      ensures reliable ==> (r.Created? <==> ValidAmount(amount) && account in accounts && omnibus in accounts)
      ensures reliable && !r.Created? ==> rows == old(rows)
    {
      ghost var before := Snapshot();
      var fault := Meet();
      r := Failed(Unavailable);
      if fault != Refused {
        if ValidAmount(amount) && account in accounts && omnibus in accounts {
          r := if fault == NoFault then Created(|rows|) else r;
          rows := rows + [NewRow(account, omnibus, correspondent, amount, now)];
        } else if fault == NoFault {
          r := Failed(ConstraintViolation);
        }
      }
      Record(before, Clock(now), fault, r);
    }

    method GetByID(t: TransferId) returns (r: Reply)
      requires Valid() && NextCall(worker) == GetTransfer(t)
      modifies `worker, `choices
      ensures Turned(r)
      ensures r.TheTransfer? ==> t < |rows| && r.row == rows[t]
      ensures r.TheTransfer? || r.Failed?
      ensures reliable ==> (r.TheTransfer? <==> t < |rows|)
      ensures reliable && t >= |rows| ==> r == Failed(NotFound)
    {
      var fault := Meet();
      r := if fault != NoFault then Failed(Unavailable)
           else if t < |rows| then TheTransfer(rows[t]) else Failed(NotFound);
      Record(Snapshot(), NoAnswer, fault, r);
    }

    /** The optimistic lock. */
    method UpdateState(t: TransferId, from: State, to: State) returns (r: Reply)
      requires Valid() && NextCall(worker) == Call.UpdateState(t, from, to)
      modifies `rows, `worker, `choices
      ensures Turned(r)
      ensures r == Done ==>
        t < |old(rows)| && old(rows)[t].state == from && rows == old(rows)[t := old(rows)[t].(state := to)]
      ensures r == Done || r.Failed?
      ensures !reliable && rows != old(rows) ==>
        t < |old(rows)| && old(rows)[t].state == from && rows == old(rows)[t := old(rows)[t].(state := to)]
      ensures reliable ==> (r == Done <==> t < |old(rows)| && old(rows)[t].state == from)
      ensures reliable && r != Done ==> r == Failed(OptimisticLock) && rows == old(rows)
    {
      ghost var before := Snapshot();
      var fault := Meet();
      r := Failed(Unavailable);
      if fault != Refused {
        if t < |rows| && rows[t].state == from {
          rows := rows[t := rows[t].(state := to)];
          r := if fault == NoFault then Done else r;
        } else {
          r := if fault == NoFault then Failed(OptimisticLock) else r;
        }
      }
      Record(before, NoAnswer, fault, r);
    }

    method WriteEvent(t: TransferId, step: Step) returns (r: Reply)
      requires Valid() && NextCall(worker) == Call.WriteEvent(t, step)
      modifies `events, `worker, `choices
      ensures Turned(r)
      ensures r == Done || r.Failed?
      ensures reliable && t < |rows| ==> r == Done && events == old(events) + [Event(t, step)]
    {
      ghost var before := Snapshot();
      var fault := Meet();
      r := Failed(Unavailable);
      if fault != Refused {
        if t < |rows| {
          events := events + [Event(t, step)];
        }
        r := if fault == ReplyLost then r else if t < |rows| then Done else Failed(ConstraintViolation);
      }
      Record(before, NoAnswer, fault, r);
    }

    method SetReviewReason(t: TransferId, code: Code) returns (r: Reply)
      requires Valid() && NextCall(worker) == Call.SetReviewReason(t, code)
      modifies `rows, `worker, `choices
      ensures Turned(r)
      ensures reliable && t < |old(rows)| ==> rows == old(rows)[t := old(rows)[t].(reviewReason := Some(code))]
    {
      ghost var before := Snapshot();
      var fault := Meet();
      if fault != Refused && t < |rows| {
        rows := rows[t := rows[t].(reviewReason := Some(code))];
      }
      r := if fault == NoFault then Done else Failed(Unavailable);
      Record(before, NoAnswer, fault, r);
    }

    method SetErrorCode(t: TransferId, code: Code) returns (r: Reply)
      requires Valid() && NextCall(worker) == Call.SetErrorCode(t, code)
      modifies `rows, `worker, `choices
      ensures Turned(r)
      ensures reliable && t < |old(rows)| ==> rows == old(rows)[t := old(rows)[t].(errorCode := Some(code))]
    {
      ghost var before := Snapshot();
      var fault := Meet();
      if fault != Refused && t < |rows| {
        rows := rows[t := rows[t].(errorCode := Some(code))];
      }
      r := if fault == NoFault then Done else Failed(Unavailable);
      Record(before, NoAnswer, fault, r);
    }

    method SetContributionType(t: TransferId, contribution: Contribution) returns (r: Reply)
      requires Valid() && NextCall(worker) == SetContribution(t, contribution)
      modifies `rows, `worker, `choices
      ensures Turned(r)
      ensures reliable && t < |old(rows)| ==> rows == old(rows)[t := old(rows)[t].(contribution := contribution)]
    {
      ghost var before := Snapshot();
      var fault := Meet();
      if fault != Refused && t < |rows| {
        rows := rows[t := rows[t].(contribution := contribution)];
      }
      r := if fault == NoFault then Done else Failed(Unavailable);
      Record(before, NoAnswer, fault, r);
    }

    method SetVssResults(t: TransferId, micr: Option<Micr>) returns (r: Reply)
      requires Valid() && NextCall(worker) == Call.SetVssResults(t, micr)
      modifies `rows, `worker, `choices
      ensures Turned(r)
      ensures reliable && t < |old(rows)| ==> rows == old(rows)[t := old(rows)[t].(micr := micr)]
    {
      ghost var before := Snapshot();
      var fault := Meet();
      if fault != Refused && t < |rows| {
        rows := rows[t := rows[t].(micr := micr)];
      }
      r := if fault == NoFault then Done else Failed(Unavailable);
      Record(before, NoAnswer, fault, r);
    }

    /** One transaction over ledger_entries: every row, or none. */
    method InsertEntries(es: seq<Entry>) returns (ok: bool)
      modifies `ledger
      ensures ok <==> Commits(|rows|, accounts.Keys, old(ledger), es)
      ensures ledger == old(ledger) + if ok then es else []
    {
      var saved := ledger;
      var i := 0;
      assert ledger == saved + es[..0];
      while i < |es|
        invariant 0 <= i <= |es|
        invariant saved == old(ledger) && ledger == saved + es[..i]
        invariant forall k :: 0 <= k < i ==> Accepted(|rows|, accounts.Keys, saved + es[..k], es[k])
      {
        var e := es[i];
        if !(ValidAmount(e.amount) && e.transfer < |rows| && e.account in accounts && KeyFree(ledger, e)) {
          ledger := saved;
          return false;
        }
        ledger := ledger + [e];
        assert saved + es[..i + 1] == (saved + es[..i]) + [e];
        i := i + 1;
      }
      assert es[..|es|] == es;
      return true;
    }

    /** PostDoubleEntry: the entry type from the memo, two entries, one transaction. */
    method PostDoubleEntry(debit: AccountId, credit: AccountId, amount: int, memo: Memo, t: TransferId)
      returns (r: Reply)
      requires Valid()
      requires PairFor(debit, credit, amount, memo, t).Some? ==>
        NextCall(worker) == Post(PairFor(debit, credit, amount, memo, t).value)
      modifies `ledger, `worker, `choices
      ensures PairFor(debit, credit, amount, memo, t) == None ==>
        r == Failed(UnknownMemo) && Snapshot() == old(Snapshot()) && worker == old(worker) && Valid()
      ensures PairFor(debit, credit, amount, memo, t).Some? ==>
        var p := PairFor(debit, credit, amount, memo, t).value;
        && Turned(r)
        && (r == Done || r.Failed?)
        && (r == Done ==> ledger == old(ledger) + Entries(p, |old(ledger)|))
        && (reliable ==> (r == Done <==> PostCommits(old(Snapshot()), p)))
        && (reliable && r != Done ==> r == Failed(ConstraintViolation) && ledger == old(ledger))
      ensures origin == old(origin) && start == old(start)
    {
      ghost var before := Snapshot();
      var entryType := MemoToEntryType(memo);
      if entryType == None {
        return Failed(UnknownMemo);
      }
      var movement := |ledger|;
      var entries := [
        Entry(movement, t, debit, Debit, amount, entryType.value),
        Entry(movement, t, credit, Credit, amount, entryType.value)];
      var fault := Meet();
      r := Failed(Unavailable);
      if fault != Refused {
        ghost var p := PairFor(debit, credit, amount, memo, t).value;
        assert entries == Entries(p, |before.ledger|);
        var ok := InsertEntries(entries);
        assert ok <==> PostCommits(before, p);
        assert Snapshot() == Perform(before, Post(p), NoAnswer).0;
        r := if fault == ReplyLost then r else if ok then Done else Failed(ConstraintViolation);
      }
      Record(before, NoAnswer, fault, r);
    }

    method GetBalance(account: AccountId) returns (r: Reply)
      requires Valid() && NextCall(worker) == Call.GetBalance(account)
      modifies `worker, `choices
      ensures Turned(r)
      ensures reliable ==> r == TheBalance(Balance(ledger, account))
    {
      var fault := Meet();
      r := if fault == NoFault then TheBalance(Balance(ledger, account)) else Failed(Unavailable);
      Record(Snapshot(), NoAnswer, fault, r);
    }

    method SetAccountStatus(account: AccountId, status: AccountStatus) returns (r: Reply)
      requires Valid() && NextCall(worker) == Call.SetAccountStatus(account, status)
      modifies `accounts, `worker, `choices
      ensures Turned(r)
      ensures reliable && account in old(accounts) ==>
        accounts == old(accounts)[account := old(accounts)[account].(status := status)]
      ensures account !in old(accounts) ==> accounts == old(accounts)
    {
      ghost var before := Snapshot();
      var fault := Meet();
      if fault != Refused && account in accounts {
        accounts := accounts[account := accounts[account].(status := status)];
      }
      r := if fault == NoFault then Done else Failed(Unavailable);
      Record(before, NoAnswer, fault, r);
    }

    /** The vendor's answer, if it gives one. */
    method AskVendor(answer: Option<VssAnswer>) returns (r: Reply)
      requires Valid() && NextCall(worker) == Call.AskVendor
      modifies `worker, `choices
      ensures Turned(r)
      ensures reliable ==> r == if answer.Some? then VendorSays(answer.value) else Failed(Unavailable)
    {
      var fault := Meet();
      r := if fault == NoFault && answer.Some? then VendorSays(answer.value) else Failed(Unavailable);
      Record(Snapshot(), if answer.Some? then Vendor(answer.value) else NoAnswer, fault, r);
    }

    /** The funding engine, which reads the omnibus account. */
    method AskFunding(req: Request, correspondent: CorrespondentId, dup: Duplicates) returns (r: Reply)
      requires Valid() && NextCall(worker) == Call.AskFunding(req, correspondent)
      modifies `worker, `choices
      ensures Turned(r)
      ensures reliable ==>
        var e := EvaluationOf(ENGINE_RULES, req, dup, OmnibusOf(correspondent));
        r == if e.Decided? then FundingSays(e.decision) else Failed(Unavailable)
    {
      var fault := Meet();
      var e := Evaluate(ENGINE_RULES, req, dup, OmnibusOf(correspondent));
      r := if fault == NoFault && e.Decided? then FundingSays(e.decision) else Failed(Unavailable);
      Record(Snapshot(), DuplicateCheck(dup), fault, r);
    }

    function OmnibusOf(correspondent: CorrespondentId): Option<AccountId> {
      if correspondent in omnibusOf then Some(omnibusOf[correspondent]) else None
    }

    /** The fee and the fee account, as configured at this moment. */
    method GetFeeTerms(terms: Option<(int, AccountId)>) returns (r: Reply)
      requires Valid() && NextCall(worker) == Call.GetFeeTerms
      modifies `worker, `choices
      ensures Turned(r)
      ensures r.TheFee? ==> terms == Some((r.fee, r.feeAccount))
      ensures r.TheFee? || r.Failed?
      ensures reliable ==> (r.TheFee? <==> terms.Some?)
    {
      var fault := Meet();
      r := if fault == NoFault && terms.Some? then TheFee(terms.value.0, terms.value.1) else Failed(Unavailable);
      Record(Snapshot(), if terms.Some? then FeeTerms(terms.value.0, terms.value.1) else NoAnswer, fault, r);
    }

    method GetBatchStatus(b: BatchId) returns (r: Reply)
      requires Valid() && NextCall(worker) == Call.GetBatchStatus(b)
      modifies `worker, `choices
      ensures Turned(r)
      ensures r.TheBatch? ==> b < |batches| && r.batchStatus == batches[b].status
      ensures r.TheBatch? || r.Failed?
      ensures reliable ==> (r.TheBatch? <==> b < |batches|)
      ensures reliable && b >= |batches| ==> r == Failed(NotFound)
    {
      var fault := Meet();
      r := if fault != NoFault then Failed(Unavailable)
           else if b < |batches| then TheBatch(batches[b].status) else Failed(NotFound);
      Record(Snapshot(), NoAnswer, fault, r);
    }

    /** transferIDsForBatch. */
    method TransferIDsForBatch(b: BatchId) returns (r: Reply)
      requires Valid() && NextCall(worker) == GetLinked(b)
      modifies `worker, `choices
      ensures Turned(r)
      ensures r.Linked? ==> IsLinkedListing(rows, b, r.ids)
      ensures r.Linked? || r.Failed?
      ensures reliable ==> r.Linked?
    {
      var fault := Meet();
      var ids := ListLinked(rows, b);
      r := if fault == NoFault then Linked(ids) else Failed(Unavailable);
      Record(Snapshot(), Listing(ids), fault, r);
    }

    method UpdateBatchStatus(b: BatchId, status: BatchStatus) returns (r: Reply)
      requires Valid() && NextCall(worker) == SetBatchStatus(b, status)
      modifies `batches, `worker, `choices
      ensures Turned(r)
      ensures r == Done || r.Failed?
      ensures |batches| == |old(batches)|
      ensures reliable ==> r == Done
      ensures reliable && b < |old(batches)| ==> batches == old(batches)[b := old(batches)[b].(status := status)]
    {
      ghost var before := Snapshot();
      var fault := Meet();
      if fault != Refused && b < |batches| {
        batches := batches[b := batches[b].(status := status)];
      }
      r := if fault == NoFault then Done else Failed(Unavailable);
      Record(before, NoAnswer, fault, r);
    }

    method SetSettlementBatch(t: TransferId, b: BatchId, settledAt: Option<int>) returns (r: Reply)
      requires Valid() && NextCall(worker) == Call.SetSettlementBatch(t, b, settledAt)
      modifies `rows, `worker, `choices
      ensures Turned(r)
      ensures reliable && t < |old(rows)| && b < |batches| ==>
        rows == old(rows)[t := Settled(old(rows)[t], b, settledAt)]
      ensures rows == old(rows) || (t < |old(rows)| && rows == old(rows)[t := Settled(old(rows)[t], b, settledAt)])
    {
      ghost var before := Snapshot();
      var fault := Meet();
      r := Failed(Unavailable);
      if fault != Refused {
        if t < |rows| && b < |batches| {
          rows := rows[t := Settled(rows[t], b, settledAt)];
        }
        r := if fault == ReplyLost then r
             else if t < |rows| && b >= |batches| then Failed(ConstraintViolation) else Done;
      }
      Record(before, NoAnswer, fault, r);
    }

    // ---- the statements of a settlement trigger, which is no process of the system ----

    /** ListFundsPostedBefore. */
    method ListFundsPostedBefore(cutoff: int) returns (listing: Option<seq<Transfer>>)
      ensures listing.Some? ==> IsDueListing(rows, cutoff, listing.value)
      ensures reliable ==> listing.Some?
    {
      var fault := Meet();
      var ts := ListDue(rows, cutoff);
      listing := if fault == NoFault then Some(ts) else None;
    }

    /** CreateBatch: the new batch is the last of the table. */
    method CreateBatch(
      correspondent: CorrespondentId, cutoffDate: string, fileRef: string, recordCount: nat, totalAmount: int)
      returns (b: Option<BatchId>)
      modifies `batches
      ensures var batch := Batch(correspondent, cutoffDate, Pending, fileRef, recordCount, totalAmount);
        && (batches == old(batches) || batches == old(batches) + [batch])
        && (b.Some? ==> b.value == |old(batches)| && batches == old(batches) + [batch])
      ensures reliable ==> (b.Some? <==> FitsBatch(recordCount, totalAmount))
    {
      var fault := Meet();
      b := None;
      if fault != Refused && FitsBatch(recordCount, totalAmount) {
        b := if fault == NoFault then Some(|batches|) else None;
        batches := batches + [Batch(correspondent, cutoffDate, Pending, fileRef, recordCount, totalAmount)];
      }
    }

    /** SetSettlementBatch without a settlement time: the row is linked. */
    method Link(t: TransferId, b: BatchId)
      requires b < |batches|
      modifies `rows
      ensures rows == old(rows) || (t < |old(rows)| && rows == old(rows)[t := Settled(old(rows)[t], b, None)])
      ensures reliable && t < |old(rows)| ==> rows == old(rows)[t := Settled(old(rows)[t], b, None)]
    {
      var fault := Meet();
      if fault != Refused && t < |rows| {
        rows := rows[t := Settled(rows[t], b, None)];
      }
    }

    /** UpdateBatchStatus to SUBMITTED. */
    method MarkBatchSubmitted(b: BatchId)
      modifies `batches
      ensures batches == old(batches)
        || (b < |old(batches)| && batches == old(batches)[b := old(batches)[b].(status := Submitted)])
      ensures reliable && b < |old(batches)| ==> batches == old(batches)[b := old(batches)[b].(status := Submitted)]
    {
      var fault := Meet();
      if fault != Refused && b < |batches| {
        batches := batches[b := batches[b].(status := Submitted)];
      }
    }
  }
}
