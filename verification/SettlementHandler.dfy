/** The handler of POST /settlement/trigger (cmd/api/handlers/settlement.go:29-84): trigger with a clock
    set one day ahead, then submit and acknowledge each batch. */
module SettlementHandler {
  import opened States
  import opened Tables
  import opened Operations
  import opened Handlers
  import opened Listings
  import opened Grouping
  import opened Cutoff
  import opened Store
  import opened System
  import opened History
  import opened Refinement
  import opened Settlement
  import opened Stamps
  import opened Completion
  import opened Submission

  /** The database is one the system reaches from s by the actions. */
  ghost predicate Reached(s: System, actions: seq<Action>, db: Db) {
    Run(s, actions).db == db
  }

  lemma {:induction false} ReachedBySteps(s: System, actions: seq<Action>, db: Db, steps: seq<Action>, db': Db)
    requires Reached(s, actions, db) && Follows(db, steps, db')
    ensures Reached(s, actions + steps, db')
  {
    ReplayIsARun(Run(s, actions), steps);
    RunSplits(s, actions, steps);
  }

  lemma {:induction false} ReachedByExecution(db: Database, s: System, before: seq<Action>) returns (after: seq<Action>)
    requires db.Valid() && IsStart(db.start) && Reached(s, before, db.origin)
    ensures before <= after && Reached(s, after, db.Snapshot())
  {
    after := ExecutionIsARun(db, s, before);
  }

  /** Submit one batch: mark it, read its file, ask the bank, process the acknowledgement. */
  method SubmitBatch(
    engine: Engine, b: BatchId, fileRef: string, ack: Option<int>, ghost s: System, ghost before: seq<Action>)
    returns (done: bool, ghost after: seq<Action>)
    requires Reached(s, before, engine.db.Snapshot())
    modifies engine.db`rows, engine.db`events, engine.db`batches, engine.db`worker, engine.db`start, engine.db`origin,
      engine.db`choices
    ensures before <= after && Reached(s, after, engine.db.Snapshot())
    ensures |engine.db.batches| == |old(engine.db.batches)|
    ensures done ==> ack.Some?
    ensures ack == None || fileRef !in engine.disk ==> engine.db.rows == old(engine.db.rows)
    ensures ack.Some? ==> OnlyCompleted(old(engine.db.rows), engine.db.rows, b, ack.value)
    ensures engine.db.reliable && b < |old(engine.db.batches)| && fileRef in engine.disk ==>
      && engine.db.batches == old(engine.db.batches)[b := old(engine.db.batches)[b].(
           status := if ack.Some? then Acknowledged else Submitted)]
      && (ack.Some? ==> done && AllCompleted(old(engine.db.rows), engine.db.rows, b, ack.value))
  {
    var db := engine.db;
    done, after := false, before;
    ghost var db0 := db.Snapshot();
    db.MarkBatchSubmitted(b);
    if db.Snapshot() != db0 {
      MarkedFollows(db0, b, db.Snapshot());
      ReachedBySteps(s, before, db0, [MarkSubmitted(b)], db.Snapshot());
      after := before + [MarkSubmitted(b)];
    }
    if fileRef !in engine.disk {
      return;
    }
    var fault := db.Meet();
    if fault != NoFault || ack == None {
      return;
    }
    db.Begin(Acknowledge(ALoad, b, ack.value, [], 0, {}));
    var error := AcknowledgeBatch(db, b, ack.value);
    done := error == None;
    after := ReachedByExecution(db, s, after);
  }

  lemma {:induction false} MarkedFollows(db: Db, b: BatchId, db': Db)
    requires b < |db.batches| && db' == db.(batches := db.batches[b := db.batches[b].(status := Submitted)])
    ensures Follows(db, [MarkSubmitted(b)], db')
  {
    ReplayOne(db, [], MarkSubmitted(b));
    assert [] + [MarkSubmitted(b)] == [MarkSubmitted(b)];
  }

  /** The batches made go by their own identifiers, from `first` on.  In the report only those of acknowledged
      batches are replaced, by what the bank gave back; when `sure`, all of those are. */
  ghost predicate IsReport(
    report: seq<Summary>, bs: seq<Summary>, first: nat, bank: nat -> Option<int>, bankId: nat -> BatchId, sure: bool)
  {
    && |report| <= |bs|
    && forall i: nat :: i < |report| ==>
         && bs[i].batch == first + i
         && (report[i] == bs[i] || (bank(i).Some? && report[i] == bs[i].(batch := bankId(i))))
         && (sure ==> report[i].batch == if bank(i).Some? then bankId(i) else first + i)
  }

  /** The trigger, with a clock one day ahead. */
  method TriggerTomorrow(engine: Engine, z: Zone, now: int, ghost s: System, ghost before: seq<Action>)
    returns (result: Option<TriggerResult>, ghost ts: seq<Transfer>, ghost after: seq<Action>)
    requires Reached(s, before, engine.db.Snapshot())
    requires forall t: TransferId :: t < |engine.db.rows| ==> |engine.db.rows[t].correspondent| >= 8
    modifies engine`disk, engine.db`rows, engine.db`batches
    ensures before <= after && Reached(s, after, engine.db.Snapshot())
    ensures var day := LocalDate(z, now + DAY); var cutoff := CutoffForDate(z, day);
      && KeepsOtherDays(old(engine.disk), engine.disk, Stamp(day))
      && (engine.db.reliable || result.Some? ==> IsDueListing(old(engine.db.rows), cutoff, ts))
      && Outcome(
           engine.db.reliable, old(engine.db.rows), engine.db.rows, ts, Stamp(day), cutoff, |old(engine.db.batches)|,
           result, engine.db.batches, engine.disk)
  {
    ghost var db0 := engine.db.Snapshot();
    ghost var steps;
    result, ts, steps := engine.Trigger(z, now + DAY);
    ReachedBySteps(s, before, db0, steps, engine.db.Snapshot());
    after := before + steps;
  }

  /** The handler.  Its effect is a run of the interleaved system, so all that holds in every reachable
      state holds after it; whatever fails, no transfer leaves FundsPosted but for Completed; and when
      nothing fails, exactly the rows of acknowledged batches are completed.  `bs` are the batches as
      the trigger made them. */
  method TriggerSettlement(
    engine: Engine, z: Zone, now: int, bank: nat -> Option<int>, bankId: nat -> BatchId,
    ghost s: System, ghost before: seq<Action>)
    returns (
      result: Option<TriggerResult>, ghost ts: seq<Transfer>, ghost bs: seq<Summary>, ghost after: seq<Action>)
    requires Reached(s, before, engine.db.Snapshot())
    requires forall t: TransferId :: t < |engine.db.rows| ==> |engine.db.rows[t].correspondent| >= 8
    requires LinksExist(engine.db.rows, |engine.db.batches|)
    modifies engine`disk, engine.db`rows, engine.db`events, engine.db`batches, engine.db`worker, engine.db`start,
      engine.db`origin, engine.db`choices
    ensures before <= after && Reached(s, after, engine.db.Snapshot())
    ensures KeptOrCompleted(old(engine.db.rows), engine.db.rows)
    ensures result.Some? ==>
      && |result.value.batches| == |bs| && IsReport(
           result.value.batches, bs, |old(engine.db.batches)|, bank, bankId, engine.db.reliable)
      && result.value.batchCount == |bs| && result.value.totalChecks == |ts| && result.value.totalAmount == Sum(ts)
    ensures KeepsOtherDays(old(engine.disk), engine.disk, Stamp(LocalDate(z, now + DAY)))
    ensures engine.db.reliable ==>
      IsDueListing(old(engine.db.rows), CutoffForDate(z, LocalDate(z, now + DAY)), ts) && (result.Some? <==> AllFit(ts))
    ensures result.Some? ==>
      SentFits(
        engine.db.reliable, old(engine.db.rows), engine.db.rows, engine.disk, ts, Stamp(LocalDate(z, now + DAY)),
        |old(engine.db.batches)|, bs, bank)
    ensures result.Some? && engine.db.reliable ==>
      var day := LocalDate(z, now + DAY); var cutoff := CutoffForDate(z, day);
      var first := |old(engine.db.batches)|;
      && IsDueListing(old(engine.db.rows), cutoff, ts) && NamesOf(bs) == Correspondents(ts)
      && RowsSettled(old(engine.db.rows), engine.db.rows, cutoff, first, bs, bank)
      && |engine.db.batches| == first + |bs| && StatusesSet(engine.db.batches, first, |bs|, bank)
  {
    ghost var rows0, first := engine.db.rows, |engine.db.batches|;
    result, ts, after := TriggerTomorrow(engine, z, now, s, before);
    bs := [];
    ghost var day := LocalDate(z, now + DAY);
    if result == None {
      LinkedAreKept(rows0, engine.db.rows, CutoffForDate(z, day));
      return;
    }
    bs := result.value.batches;
    var report;
    report, after := Submit(
      engine, result.value, ts, CutoffForDate(z, day), Stamp(day), bank, bankId, first, rows0, s, after);
    result := Some(report);
  }

  /** Submission of what a trigger has made, and the report of it. */
  method Submit(
    engine: Engine, r: TriggerResult, ghost ts: seq<Transfer>, ghost cutoff: int, ghost stamp: string,
    bank: nat -> Option<int>, bankId: nat -> BatchId, ghost first: nat, ghost rows0: seq<Row>, ghost s: System,
    ghost before: seq<Action>)
    returns (report: TriggerResult, ghost after: seq<Action>)
    requires Reached(s, before, engine.db.Snapshot()) && IsDueListing(rows0, cutoff, ts) && LinksExist(rows0, first)
    requires Outcome(
      engine.db.reliable, rows0, engine.db.rows, ts, stamp, cutoff, first, Some(r), engine.db.batches, engine.disk)
    modifies engine.db`rows, engine.db`events, engine.db`batches, engine.db`worker, engine.db`start, engine.db`origin,
      engine.db`choices
    ensures before <= after && Reached(s, after, engine.db.Snapshot()) && KeptOrCompleted(rows0, engine.db.rows)
    ensures report == r.(batches := report.batches)
    ensures |report.batches| == |r.batches|
    ensures IsReport(report.batches, r.batches, first, bank, bankId, engine.db.reliable)
    ensures SentFits(engine.db.reliable, rows0, engine.db.rows, engine.disk, ts, stamp, first, r.batches, bank)
    ensures engine.db.reliable ==> RowsSettled(rows0, engine.db.rows, cutoff, first, r.batches, bank)
    ensures |engine.db.batches| == first + |r.batches|
    ensures engine.db.reliable ==> StatusesSet(engine.db.batches, first, |r.batches|, bank)
  {
    ghost var rows1, batches1 := engine.db.rows, engine.db.batches;
    LinkedAreKept(rows0, rows1, cutoff);
    BatchesAreFiled(ts, stamp, cutoff, first, r, batches1, engine.disk);
    var reported;
    reported, after := SubmitAll(engine, r.batches, bank, bankId, first, rows0, s, before);
    report := r.(batches := reported);
    AllSubmitted(
      engine.db.reliable, rows0, rows1, engine.db.rows, batches1, engine.disk, cutoff, ts, stamp, first, r, bank);
  }

  lemma {:induction false} BatchesAreFiled(
    ts: seq<Transfer>, stamp: string, cutoff: int, first: nat, r: TriggerResult, batches: seq<Batch>,
    disk: map<string, SettlementFile>)
    requires Complete(ts, stamp, cutoff, first, r, batches, disk)
    ensures |batches| == first + |r.batches|
    ensures forall i :: 0 <= i < |r.batches| ==> r.batches[i].batch == first + i && r.batches[i].fileRef in disk
  {
    assert forall i :: 0 <= i < |r.batches| ==>
      Summarizes(r.batches[i], r.batches[i].correspondent, stamp, Of(ts, {r.batches[i].correspondent}), first + i);
  }

  /** Sent at most once exactly when acknowledged: after a trigger in which nothing failed, a transfer it
      sent is in the next listing for the same or a later cutoff exactly when the bank did not
      acknowledge its batch; then it is listed although it is linked to a submitted batch. */
  lemma {:induction false} UnacknowledgedAreSentAgain(
    rows0: seq<Row>, rows: seq<Row>, cutoff: int, first: nat, bs: seq<Summary>, bank: nat -> Option<int>,
    t: TransferId, i: nat, later: int, us: seq<Transfer>)
    requires RowsSettled(rows0, rows, cutoff, first, bs, bank)
    requires t < |rows0| && IsDue(rows0[t], cutoff) && i < |bs| && rows0[t].correspondent == bs[i].correspondent
    requires cutoff <= later && IsDueListing(rows, later, us)
    ensures Has(us, t) <==> bank(i) == None
    ensures Has(us, t) ==> rows[t].batch == Some(first + i)
  {
    assert Has(us, t) || !IsDue(rows[t], later);
    if Has(us, t) {
      var k :| 0 <= k < |us| && us[k].id == t;
      assert rows[t] == us[k].row;
    }
  }

  /** The batches are as they were filed, and every completed row has been sent exactly when no acknowledged
      batch has its file overwritten; whatever fails, at least if none has. */
  ghost predicate SentFits(
    reliable: bool, rows0: seq<Row>, rows: seq<Row>, disk: map<string, SettlementFile>, ts: seq<Transfer>,
    stamp: string, first: nat, bs: seq<Summary>, bank: nat -> Option<int>)
  {
    && Filed(disk, ts, stamp, bs)
    && (AcknowledgedDiffer(bs, bank) ==> CompletedWereSent(rows0, rows, disk, first, bs))
    && (reliable && CompletedWereSent(rows0, rows, disk, first, bs) ==> AcknowledgedDiffer(bs, bank))
  }

  /** What the trigger and the submissions have come to. */
  lemma {:induction false} AllSubmitted(
    reliable: bool, rows0: seq<Row>, rows1: seq<Row>, rows: seq<Row>, batches: seq<Batch>,
    disk: map<string, SettlementFile>, cutoff: int, ts: seq<Transfer>, stamp: string, first: nat, r: TriggerResult,
    bank: nat -> Option<int>)
    requires IsDueListing(rows0, cutoff, ts) && LinksExist(rows0, first)
    requires Outcome(reliable, rows0, rows1, ts, stamp, cutoff, first, Some(r), batches, disk)
    requires ByBank(rows1, rows, first, |r.batches|, bank)
    requires reliable ==> AcksDone(rows1, rows, first, |r.batches|, bank)
    ensures SentFits(reliable, rows0, rows, disk, ts, stamp, first, r.batches, bank)
    ensures reliable ==> RowsSettled(rows0, rows, cutoff, first, r.batches, bank)
  {
    var bs := r.batches;
    CompleteIsFiled(ts, stamp, cutoff, first, r, batches, disk);
    if reliable {
      AcksSettle(rows0, rows1, rows, cutoff, first, bs, bank);
      CompletedWereSentExactly(rows0, rows1, rows, disk, cutoff, ts, stamp, first, bs, bank);
    } else if AcknowledgedDiffer(bs, bank) {
      CompletedAreSent(rows0, rows1, rows, disk, cutoff, ts, stamp, first, bs, bank);
    }
  }

  lemma {:induction false} LinkedAreKept(rows0: seq<Row>, rows1: seq<Row>, cutoff: int)
    requires OnlyDueLinked(rows0, rows1, cutoff)
    ensures KeptOrCompleted(rows0, rows1)
  {
  }

  /** The loop over the new batches. */
  method SubmitAll(
    engine: Engine, bs: seq<Summary>, bank: nat -> Option<int>, bankId: nat -> BatchId, ghost first: nat,
    ghost rows0: seq<Row>, ghost s: System, ghost before: seq<Action>)
    returns (report: seq<Summary>, ghost after: seq<Action>)
    requires Reached(s, before, engine.db.Snapshot()) && KeptOrCompleted(rows0, engine.db.rows)
    requires |engine.db.batches| == first + |bs|
    requires forall i :: 0 <= i < |bs| ==> bs[i].batch == first + i && bs[i].fileRef in engine.disk
    modifies engine.db`rows, engine.db`events, engine.db`batches, engine.db`worker, engine.db`start, engine.db`origin,
      engine.db`choices
    ensures before <= after && Reached(s, after, engine.db.Snapshot()) && KeptOrCompleted(rows0, engine.db.rows)
    ensures ByBank(old(engine.db.rows), engine.db.rows, first, |bs|, bank)
    ensures |engine.db.batches| == first + |bs|
    ensures |report| == |bs| && IsReport(report, bs, first, bank, bankId, engine.db.reliable)
    ensures engine.db.reliable ==>
      SubmittedSoFar(old(engine.db.rows), engine.db.rows, engine.db.batches, first, |bs|, bank)
  {
    var db := engine.db;
    report, after := [], before;
    for i := 0 to |bs|
      invariant before <= after && Reached(s, after, db.Snapshot()) && KeptOrCompleted(rows0, db.rows)
      invariant ByBank(old(engine.db.rows), db.rows, first, i, bank)
      invariant |db.batches| == first + |bs|
      invariant |report| == i && IsReport(report, bs, first, bank, bankId, db.reliable)
      invariant db.reliable ==> SubmittedSoFar(old(engine.db.rows), db.rows, db.batches, first, i, bank)
    {
      var done;
      done, after := SubmitNth(engine, bs[i], i, bank, first, rows0, old(engine.db.rows), s, after);
      report := report + [if done then bs[i].(batch := bankId(i)) else bs[i]];
    }
  }

  /** The first n of the new batches have been dealt with. */
  ghost predicate SubmittedSoFar(
    rows1: seq<Row>, rows: seq<Row>, batches: seq<Batch>, first: nat, n: nat, bank: nat -> Option<int>) {
    AcksDone(rows1, rows, first, n, bank) && StatusesSet(batches, first, n, bank)
  }

  /** One turn of the loop. */
  method SubmitNth(
    engine: Engine, sum: Summary, n: nat, bank: nat -> Option<int>, ghost first: nat, ghost rows0: seq<Row>,
    ghost rows1: seq<Row>, ghost s: System, ghost before: seq<Action>)
    returns (done: bool, ghost after: seq<Action>)
    requires Reached(s, before, engine.db.Snapshot()) && KeptOrCompleted(rows0, engine.db.rows)
    requires ByBank(rows1, engine.db.rows, first, n, bank)
    requires sum.batch == first + n < |engine.db.batches| && sum.fileRef in engine.disk
    requires engine.db.reliable ==> SubmittedSoFar(rows1, engine.db.rows, engine.db.batches, first, n, bank)
    modifies engine.db`rows, engine.db`events, engine.db`batches, engine.db`worker, engine.db`start, engine.db`origin,
      engine.db`choices
    ensures before <= after && Reached(s, after, engine.db.Snapshot()) && KeptOrCompleted(rows0, engine.db.rows)
    ensures ByBank(rows1, engine.db.rows, first, n + 1, bank)
    ensures |engine.db.batches| == |old(engine.db.batches)|
    ensures (done ==> bank(n).Some?) && (engine.db.reliable ==> (done <==> bank(n).Some?))
    ensures engine.db.reliable ==> SubmittedSoFar(rows1, engine.db.rows, engine.db.batches, first, n + 1, bank)
  {
    var db := engine.db;
    ghost var rows, batches := db.rows, db.batches;
    var ack := bank(n);
    done, after := SubmitBatch(engine, sum.batch, sum.fileRef, ack, s, before);
    if ack.Some? {
      KeptOn(rows0, rows, db.rows, first + n, ack.value);
    }
    ByBankStep(rows1, rows, db.rows, first, n, bank);
    if db.reliable {
      AcksStep(rows1, rows, db.rows, first, n, bank);
      StatusesStep(batches, db.batches, first, n, bank);
    }
  }
}
