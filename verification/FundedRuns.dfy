/** Runs, without any fault, that go on from a funded deposit: an acknowledgement overtakes its return, it is
    listed for settlement a second time, and the second listing takes it away from its first batch. */
module FundedRuns {
  import opened States
  import opened Tables
  import opened Ledger
  import opened Operations
  import opened Handlers
  import opened System
  import opened Invariant
  import opened Accounting
  import opened History
  import opened Returns
  import opened Listings
  import opened BatchLinks
  import opened Races
  import opened Scenarios

  predicate Faultless(actions: seq<Action>) {
    forall i :: 0 <= i < |actions| && actions[i].Turn? ==> actions[i].fault == NoFault
  }

  predicate OpensNone(actions: seq<Action>) {
    forall i :: 0 <= i < |actions| ==> !actions[i].OpenBatch?
  }

  lemma {:induction false} FundedWithoutFault()
    ensures Faultless(FUNDED) && OpensNone(FUNDED)
  {
    assert Faultless(CREATING) && OpensNone(CREATING);
    assert Faultless(OPENING) && OpensNone(OPENING);
    assert Faultless(REVIEWED) && OpensNone(REVIEWED);
  }

  lemma {:induction false} BatchesWhenPerformed(db: Db, call: Call, answer: Answer)
    ensures |Perform(db, call, answer).0.batches| == |db.batches|
  {
  }

  lemma {:induction false} BatchesAfterAction(s: System, a: Action)
    requires !a.OpenBatch?
    ensures |Apply(s, a).db.batches| == |s.db.batches|
  {
    if a.Turn? && a.pid < |s.procs| {
      BatchesWhenPerformed(s.db, NextCall(s.procs[a.pid]), a.answer);
    }
  }

  lemma {:induction false} NoneOpened(s: System, actions: seq<Action>)
    requires OpensNone(actions)
    ensures |Run(s, actions).db.batches| == |s.db.batches|
  {
    if actions != [] {
      NoneOpened(s, actions[..|actions| - 1]);
      RunLast(s, actions);
      BatchesAfterAction(Run(s, actions[..|actions| - 1]), actions[|actions| - 1]);
    }
  }

  /** One row, and it is FundsPosted. */
  predicate OneFunded(s: System) {
    |s.db.rows| == 1 && s.db.rows[0].state == FundsPosted
  }

  /** The funded deposit, unreversed, and no batch yet. */
  lemma {:induction false} FundedDeposit()
    ensures var s' := Run(Beginning(Active), FUNDED);
      && Initial(Beginning(Active)) && OneFunded(s') && |s'.db.batches| == 0
      && !HasEntries(s'.db.ledger, 0, Reversal) && 1 in s'.db.accounts
  {
    ReviewedRun(Active);
    RunSplits(Beginning(Active), REVIEWED, [APPROVING, APPROVING]);
    FundingRun(Run(Beginning(Active), REVIEWED));
    FundedWithoutFault();
    NoneOpened(Beginning(Active), FUNDED);
    RunKeepsInv(Beginning(Active), []);
    RecordsThroughRun(Beginning(Active), FUNDED);
  }

  /** The deposit and the operator are the processes so far. */
  lemma {:induction false} FundedProcesses()
    ensures |Run(Beginning(Active), FUNDED).procs| == 2
  {
    ReviewedRun(Active);
    RunSplits(Beginning(Active), REVIEWED, [APPROVING, APPROVING]);
    var s := Run(Beginning(Active), REVIEWED);
    RunTwo(s, APPROVING, APPROVING, Apply(s, APPROVING), Apply(Apply(s, APPROVING), APPROVING));
  }

  // ---- listed and linked ----

  /** A trigger's batch of the one row. */
  function BatchOfOne(row: Row): Batch {
    Batch(row.correspondent, "2026-01-02", Pending, "settlement.json", 1, row.amount)
  }

  function Linking(row: Row, b: BatchId): seq<Action> {
    [OpenBatch(BatchOfOne(row)), LinkRow(0, b)]
  }

  lemma {:induction false} LinkingRun(s: System, row: Row)
    requires OneFunded(s)
    ensures var b := |s.db.batches|; var s' := Run(s, Linking(row, b));
      && s'.db.rows == [s.db.rows[0].(batch := Some(b))] && s'.procs == s.procs
      && s'.db.batches == s.db.batches + [BatchOfOne(row)]
  {
    var b := |s.db.batches|;
    var s1 := Apply(s, OpenBatch(BatchOfOne(row)));
    RunTwo(s, OpenBatch(BatchOfOne(row)), LinkRow(0, b), s1, Apply(s1, LinkRow(0, b)));
  }

  lemma {:induction false} ListingOfOne(rows: seq<Row>, cutoff: int)
    requires |rows| == 1 && IsDue(rows[0], cutoff)
    ensures IsDueListing(rows, cutoff, [Transfer(0, rows[0])]) && Has([Transfer(0, rows[0])], 0)
  {
    assert [Transfer(0, rows[0])][0].id == 0;
  }

  /** Sent twice: the deposit is listed and linked to batch 0; the next trigger for the same cutoff lists it
      again, as a row that is in batch 0, and takes it to batch 1; what is then linked to batch 0, which has
      recorded one check, is nothing. */
  lemma {:induction false} ListedTwice() returns (row: Row, cutoff: int, ts: seq<Transfer>, us: seq<Transfer>)
    ensures Initial(Beginning(Active))
    ensures var s1 := Run(Beginning(Active), FUNDED);
      s1.db.rows == [row] && IsDueListing(s1.db.rows, cutoff, ts) && Has(ts, 0)
    ensures var s2 := Run(Beginning(Active), FUNDED + Linking(row, 0));
      && |s2.db.rows| == 1 && s2.db.rows[0].batch == Some(0)
      && IsDueListing(s2.db.rows, cutoff, us) && Has(us, 0)
    ensures var s3 := Run(Beginning(Active), FUNDED + Linking(row, 0) + Linking(row, 1));
      && |s3.db.batches| == 2 && s3.db.batches[0].recordCount == 1
      && IsLinkedListing(s3.db.rows, 0, []) && IsLinkedListing(s3.db.rows, 1, [0])
  {
    var s1 := Run(Beginning(Active), FUNDED);
    FundedDeposit();
    row := s1.db.rows[0];
    RunSplits(Beginning(Active), FUNDED, Linking(row, 0));
    LinkingRun(s1, row);
    var s2 := Run(s1, Linking(row, 0));
    RunSplits(Beginning(Active), FUNDED + Linking(row, 0), Linking(row, 1));
    LinkingRun(s2, row);
    cutoff := row.submittedAt + 1;
    ts, us := [Transfer(0, row)], [Transfer(0, s2.db.rows[0])];
    ListingOfOne(s1.db.rows, cutoff);
    ListingOfOne(s2.db.rows, cutoff);
  }

  // ---- overtaken ----

  /** An acknowledgement of the batch, as far as its first update. */
  function Acknowledging(pid: nat, b: BatchId): seq<Action> {
    [Begin(Acknowledge(ALoad, b, 0, [], 0, {})), Turn(pid, NoAnswer, NoFault), Turn(pid, Listing([0]), NoFault),
     Turn(pid, NoAnswer, NoFault), Turn(pid, NoAnswer, NoFault)]
  }

  /** A turn without fault. */
  lemma {:induction false} PlainTurnOf(s: System, pid: nat, answer: Answer)
    requires pid < |s.procs|
    ensures var (db, r) := Perform(s.db, NextCall(s.procs[pid]), answer);
      var s' := Apply(s, Turn(pid, answer, NoFault));
      s'.db == db && s'.procs == s.procs[pid := Resume(s.procs[pid], r)]
  {
  }

  /** The acknowledgement reads the status and the list, and marks the batch. */
  lemma {:induction false} AcknowledgementReads(db: Db, p: Proc)
    requires p.Acknowledge? && p.apc == ALoad && p.b < |db.batches| && db.batches[p.b].status == Pending
    requires |db.rows| == 1 && db.rows[0].batch == Some(p.b)
    ensures var (db1, r1) := Perform(db, NextCall(p), NoAnswer);
      var p1 := Resume(p, r1);
      var (db2, r2) := Perform(db1, NextCall(p1), Listing([0]));
      db1 == db && p1 == p.(apc := AList(Pending)) && db2 == db && Resume(p1, r2) == p.(apc := AStatus, ids := [0])
  {
  }

  lemma {:induction false} AcknowledgementCompletes(db: Db, p: Proc)
    requires p.Acknowledge? && p.apc == AStatus && p.ids == [0] && |db.rows| == 1 && db.rows[0].state == FundsPosted
    ensures var (db1, r1) := Perform(db, NextCall(p), NoAnswer);
      var p1 := Resume(p, r1);
      var db2 := Perform(db1, NextCall(p1), NoAnswer).0;
      |db2.rows| == 1 && db2.rows[0].state == Completed
  {
  }

  lemma {:induction false} AcknowledgingRun(s: System, b: BatchId)
    requires OneFunded(s) && s.db.rows[0].batch == Some(b)
    requires b < |s.db.batches| && s.db.batches[b].status == Pending
    ensures var s' := Run(s, Acknowledging(|s.procs|, b));
      && |s'.db.rows| == 1 && s'.db.rows[0].state == Completed
      && |s'.procs| == |s.procs| + 1 && s'.procs[..|s.procs|] == s.procs
  {
    var n, run := |s.procs|, Acknowledging(|s.procs|, b);
    RunFive(s, run[0], run[1], run[2], run[3], run[4]);
    var s1 := Apply(s, run[0]);
    AcknowledgementReads(s.db, s1.procs[n]);
    PlainTurnOf(s1, n, NoAnswer);
    var s2 := Apply(s1, run[1]);
    PlainTurnOf(s2, n, Listing([0]));
    var s3 := Apply(s2, run[2]);
    AcknowledgementCompletes(s.db, s3.procs[n]);
    PlainTurnOf(s3, n, NoAnswer);
    PlainTurnOf(Apply(s3, run[3]), n, NoAnswer);
  }

  /** A return, as far as its last update. */
  function Returning(pid: nat, t: TransferId, row: Row, fee: int, feeAccount: AccountId): seq<Action> {
    HalfReturn(pid, t, row, fee, feeAccount) + [Turn(pid, NoAnswer, NoFault)]
  }

  /** An unreversed posted transfer whose fee can be posted: the return gets to its last update. */
  lemma {:induction false} ReturningRun(s: System, t: TransferId, fee: int, feeAccount: AccountId)
    requires Inv(s) && t < |s.db.rows| && IsPosted(s.db.rows[t].state) && !HasEntries(s.db.ledger, t, Reversal)
    requires ValidAmount(fee) && feeAccount in s.db.accounts
    ensures var pid, row := |s.procs|, s.db.rows[t]; var s' := Run(s, Returning(pid, t, row, fee, feeAccount));
      && s'.db.rows == s.db.rows && |s'.procs| == |s.procs| + 1
      && s'.procs[pid] == Return(RReturn, t, row, fee, feeAccount)
  {
    var pid, row := |s.procs|, s.db.rows[t];
    var half := HalfReturn(pid, t, row, fee, feeAccount);
    RunFive(s, half[0], half[1], half[2], half[3], half[4]);
    ReturnStarts(s, pid, t, fee, feeAccount, Return(RLoad, t, row, 0, 0));
    ReturnPostingsIn(s, t, feeAccount, fee);
    var s4 := Apply(Apply(Apply(Apply(s, half[0]), half[1]), half[2]), half[3]);
    ReversalTurn(s4, pid);
    RunOneMore(s, half, Turn(pid, NoAnswer, NoFault));
    FeeTurn(Run(s, half), pid);
  }

  lemma {:induction false} FeeTurn(s: System, pid: nat)
    requires pid < |s.procs| && s.procs[pid].Return? && s.procs[pid].rpc == RFee
    requires PostCommits(s.db, NextCall(s.procs[pid]).pair)
    ensures var s' := Apply(s, Turn(pid, NoAnswer, NoFault));
      s'.db.rows == s.db.rows && s'.procs == s.procs[pid := s.procs[pid].(rpc := RReturn)]
  {
    PlainTurnOf(s, pid, NoAnswer);
  }

  /** The bank returns the check while the batch of its deposit is being acknowledged: the return reads the
      row and posts the reversal and the fee, the acknowledgement completes the row, and the return comes too
      late to move it. */
  function Overtaking(row: Row): seq<Action> {
    FUNDED + Returning(2, 0, row, 30, 1) + Linking(row, 0) + Acknowledging(3, 0)
  }

  lemma {:induction false} RunInLegs(s: System, a: seq<Action>, b: seq<Action>, c: seq<Action>, d: seq<Action>)
    ensures Run(s, a + b + c + d) == Run(Run(Run(Run(s, a), b), c), d)
  {
    RunSplits(s, a, b);
    RunSplits(s, a + b, c);
    RunSplits(s, a + b + c, d);
  }

  lemma {:induction false} OvertakingLegs(s: System)
    requires Inv(s) && OneFunded(s) && |s.db.batches| == 0 && |s.procs| == 2
    requires !HasEntries(s.db.ledger, 0, Reversal) && 1 in s.db.accounts
    ensures var row := s.db.rows[0];
      var s' := Run(Run(Run(s, Returning(2, 0, row, 30, 1)), Linking(row, 0)), Acknowledging(3, 0));
      && |s'.db.rows| == 1 && s'.db.rows[0].state == Completed
      && 2 < |s'.procs| && s'.procs[2] == Return(RReturn, 0, row, 30, 1)
  {
    var row := s.db.rows[0];
    ReturningRun(s, 0, 30, 1);
    NoneOpened(s, Returning(2, 0, row, 30, 1));
    var s2 := Run(s, Returning(2, 0, row, 30, 1));
    LinkingRun(s2, row);
    var s3 := Run(s2, Linking(row, 0));
    AcknowledgingRun(s3, 0);
    assert s3.procs[..3][2] == s3.procs[2];
  }

  lemma {:induction false} OvertakingRun(row: Row)
    requires Run(Beginning(Active), FUNDED).db.rows == [row]
    ensures var s' := Run(Beginning(Active), Overtaking(row));
      && |s'.db.rows| == 1 && s'.db.rows[0].state == Completed
      && 2 < |s'.procs| && s'.procs[2] == Return(RReturn, 0, row, 30, 1) && row.state == FundsPosted
  {
    FundedDeposit();
    FundedProcesses();
    RunKeepsInv(Beginning(Active), FUNDED);
    OvertakingLegs(Run(Beginning(Active), FUNDED));
    RunInLegs(Beginning(Active), FUNDED, Returning(2, 0, row, 30, 1), Linking(row, 0), Acknowledging(3, 0));
  }

  /** Without a single fault: the row is Completed with the reversal and the fee posted, and stays so
      whatever happens next; in particular no further notification of the return completes it. */
  lemma {:induction false} AcknowledgementOvertakesReturn(more: seq<Action>) returns (run: seq<Action>)
    ensures Initial(Beginning(Active)) && Faultless(run)
    ensures var s', end := Run(Beginning(Active), run), Run(Beginning(Active), run + more);
      && 2 < |s'.procs| && s'.procs[2].Return? && s'.procs[2].t == 0
      && s'.procs[2].rpc == RHalt(Some(OptimisticLock)) && s'.procs[2].read.state == FundsPosted
      && 0 < |s'.db.rows| && 0 < |end.db.rows|
      && s'.db.rows[0].state == Completed && end.db.rows[0].state == Completed
      && HasEntries(end.db.ledger, 0, Reversal) && HasEntries(end.db.ledger, 0, Fee)
  {
    FundedDeposit();
    var row := Run(Beginning(Active), FUNDED).db.rows[0];
    run := Overtaking(row) + [Turn(2, NoAnswer, NoFault)];
    OvertakingRun(row);
    OvertakingWithoutFault(row);
    LateReturn(Beginning(Active), Overtaking(row), row, more);
  }

  lemma {:induction false} LateReturn(s: System, first: seq<Action>, row: Row, more: seq<Action>)
    requires Initial(s) && 2 < |Run(s, first).procs| && Run(s, first).procs[2] == Return(RReturn, 0, row, 30, 1)
    requires |Run(s, first).db.rows| == 1 && Run(s, first).db.rows[0].state == Completed && row.state == FundsPosted
    ensures var run := first + [Turn(2, NoAnswer, NoFault)];
      var s', end := Run(s, run), Run(s, run + more);
      && 2 < |s'.procs| && s'.procs[2] == Return(RHalt(Some(OptimisticLock)), 0, row, 30, 1)
      && 0 < |s'.db.rows| && 0 < |end.db.rows|
      && s'.db.rows[0].state == Completed && end.db.rows[0].state == Completed
      && HasEntries(end.db.ledger, 0, Reversal) && HasEntries(end.db.ledger, 0, Fee)
  {
    LastUpdateExactly(s, first, 2, NoAnswer, more);
    LastUpdateExactly(s, first, 2, NoAnswer, []);
    var run := first + [Turn(2, NoAnswer, NoFault)];
    assert run + [] == run;
  }

  lemma {:induction false} OvertakingWithoutFault(row: Row)
    ensures Faultless(Overtaking(row))
  {
    FundedWithoutFault();
    assert Faultless(Returning(2, 0, row, 30, 1)) && Faultless(Linking(row, 0)) && Faultless(Acknowledging(3, 0));
  }
}
