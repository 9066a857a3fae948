/** AcknowledgeBatch as the source runs it (internal/settlement/engine.go:229-281). */
module Completion {
  import opened States
  import opened Tables
  import opened Operations
  import opened Handlers
  import opened Store

  /** A row completed by the acknowledgement of its batch. */
  function CompletedRow(row: Row, b: BatchId, at: int): Row {
    row.(state := Completed, batch := Some(b), settledAt := Some(at))
  }

  /** What an acknowledgement may do to a row, whatever fails on the way. */
  predicate MayBecome(row: Row, after: Row, b: BatchId, at: int) {
    || after == row
    || (row.state == FundsPosted && (after == row.(state := Completed) || after == CompletedRow(row, b, at)))
  }

  /** What it does when nothing fails. */
  predicate Becomes(row: Row, after: Row, b: BatchId, at: int) {
    after == if row.state == FundsPosted then CompletedRow(row, b, at) else row
  }

  /** One turn of the loop: a row that has left FundsPosted is skipped. */
  method CompleteOne(db: Database, ghost ids: seq<TransferId>, t: TransferId, b: BatchId, at: int, ghost next: nat)
    requires db.Valid() && db.worker.Acknowledge? && db.worker.apc == AComplete
    requires db.worker.b == b && db.worker.at == at && db.worker.ids == ids && db.worker.next == next
    requires next < |ids| && ids[next] == t && t < |db.rows| && db.rows[t].batch == Some(b)
    modifies db`rows, db`events, db`worker, db`choices
    ensures db.Valid() && db.origin == old(db.origin) && db.start == old(db.start)
    ensures db.worker.Acknowledge? && db.worker.b == b && db.worker.at == at && db.worker.ids == ids
    ensures db.worker.next == next + 1 && db.worker.apc == if next + 1 < |ids| then AComplete else AHalt(None)
    ensures |db.rows| == |old(db.rows)|
    ensures forall u: TransferId :: u < |db.rows| && u != t ==> db.rows[u] == old(db.rows)[u]
    ensures MayBecome(old(db.rows)[t], db.rows[t], b, at)
    ensures db.reliable && b < |db.batches| ==> Becomes(old(db.rows)[t], db.rows[t], b, at)
  {
    var r := db.UpdateState(t, FundsPosted, Completed);
    if r != Done {
      return;
    }
    var _ := db.WriteEvent(t, StateChanged(FundsPosted, Completed));
    var _ := db.WriteEvent(t, Note("settlement_completed"));
    var _ := db.SetSettlementBatch(t, b, Some(at));
  }

  /** Rows other than the linked ones are untouched; a linked row may only be completed. */
  ghost predicate OnlyCompleted(before: seq<Row>, after: seq<Row>, b: BatchId, at: int) {
    && |after| == |before|
    && forall t: TransferId :: t < |before| ==>
         after[t] == before[t] || (before[t].batch == Some(b) && MayBecome(before[t], after[t], b, at))
  }

  /** Every linked row still in FundsPosted is completed; no other row changes. */
  ghost predicate AllCompleted(before: seq<Row>, after: seq<Row>, b: BatchId, at: int) {
    && |after| == |before|
    && forall t: TransferId :: t < |before| ==>
         after[t] == if before[t].batch == Some(b) && before[t].state == FundsPosted
                     then CompletedRow(before[t], b, at) else before[t]
  }

  /** AcknowledgeBatch makes exactly the calls of its process.  Whatever fails, only FundsPosted rows of
      the batch are moved, and only to Completed.  When nothing fails all of them are; and a batch
      already acknowledged is left alone. */
  method AcknowledgeBatch(db: Database, b: BatchId, at: int) returns (error: Option<Error>)
    requires db.Valid() && db.worker.Acknowledge? && db.worker.apc == ALoad && db.worker.b == b && db.worker.at == at
    modifies db`rows, db`events, db`batches, db`worker, db`choices
    ensures db.Valid() && db.origin == old(db.origin) && db.start == old(db.start)
    ensures db.worker.Acknowledge? && db.worker.apc == AHalt(error)
    ensures OnlyCompleted(old(db.rows), db.rows, b, at)
    ensures |db.batches| == |old(db.batches)|
    ensures db.reliable ==>
      if b >= |old(db.batches)| then
        error == Some(NotFound) && db.Snapshot() == old(db.Snapshot())
      else if old(db.batches)[b].status == Acknowledged then
        error == None && db.Snapshot() == old(db.Snapshot())
      else
        && error == None
        && db.batches == old(db.batches)[b := old(db.batches)[b].(status := Acknowledged)]
        && AllCompleted(old(db.rows), db.rows, b, at)
  {
    var r := db.GetBatchStatus(b);
    if !r.TheBatch? {
      return ErrorOf(r);
    }
    var status := r.batchStatus;
    r := db.TransferIDsForBatch(b);
    if !r.Linked? {
      return ErrorOf(r);
    }
    var ids := r.ids;
    if status == Acknowledged {
      return None;
    }
    r := db.UpdateBatchStatus(b, Acknowledged);
    if r != Done {
      return ErrorOf(r);
    }
    CompleteAll(db, ids, b, at);
    return None;
  }

  /** The first i of the listed rows have been dealt with; when `sure`, none was missed. */
  ghost predicate DealtWith(
    before: seq<Row>, rows: seq<Row>, ids: seq<TransferId>, i: nat, b: BatchId, at: int, sure: bool)
    requires IsLinkedListing(before, b, ids) && i <= |ids|
  {
    && |rows| == |before|
    && (forall k :: i <= k < |ids| ==> rows[ids[k]] == before[ids[k]])
    && (forall k :: 0 <= k < i ==>
          MayBecome(before[ids[k]], rows[ids[k]], b, at) && (sure ==> Becomes(before[ids[k]], rows[ids[k]], b, at)))
    && (forall t: TransferId :: t < |rows| && t !in ids ==> rows[t] == before[t])
  }

  lemma {:induction false} DealtWithNext(
    before: seq<Row>, rows: seq<Row>, rows': seq<Row>, ids: seq<TransferId>, i: nat, b: BatchId, at: int, sure: bool)
    requires IsLinkedListing(before, b, ids) && i < |ids| && DealtWith(before, rows, ids, i, b, at, sure)
    requires |rows'| == |rows| && forall u: TransferId :: u < |rows| && u != ids[i] ==> rows'[u] == rows[u]
    requires MayBecome(rows[ids[i]], rows'[ids[i]], b, at)
    requires sure ==> Becomes(rows[ids[i]], rows'[ids[i]], b, at)
    ensures DealtWith(before, rows', ids, i + 1, b, at, sure)
  {
  }

  lemma {:induction false} AllDealtWith(
    before: seq<Row>, rows: seq<Row>, ids: seq<TransferId>, b: BatchId, at: int, sure: bool)
    requires IsLinkedListing(before, b, ids) && DealtWith(before, rows, ids, |ids|, b, at, sure)
    ensures OnlyCompleted(before, rows, b, at)
    ensures sure ==> AllCompleted(before, rows, b, at)
  {
    assert forall t: TransferId :: t < |rows| && t !in ids ==> before[t].batch != Some(b);
  }

  /** The loop over the linked transfers. */
  method CompleteAll(db: Database, ids: seq<TransferId>, b: BatchId, at: int)
    requires db.Valid() && db.worker.Acknowledge? && db.worker.b == b && db.worker.at == at && db.worker.ids == ids
    requires db.worker.next == 0 && db.worker.apc == if 0 < |ids| then AComplete else AHalt(None)
    requires IsLinkedListing(db.rows, b, ids)
    modifies db`rows, db`events, db`worker, db`choices
    ensures db.Valid() && db.origin == old(db.origin) && db.start == old(db.start)
    ensures db.worker.Acknowledge? && db.worker.apc == AHalt(None)
    ensures OnlyCompleted(old(db.rows), db.rows, b, at)
    ensures db.reliable && b < |db.batches| ==> AllCompleted(old(db.rows), db.rows, b, at)
  {
    ghost var sure := db.reliable && b < |db.batches|;
    for i := 0 to |ids|
      invariant db.Valid() && db.origin == old(db.origin) && db.start == old(db.start)
      invariant db.worker.Acknowledge? && db.worker.b == b && db.worker.at == at && db.worker.ids == ids
      invariant db.worker.next == i && db.worker.apc == if i < |ids| then AComplete else AHalt(None)
      invariant DealtWith(old(db.rows), db.rows, ids, i, b, at, sure)
    {
      ghost var rows := db.rows;
      CompleteOne(db, ids, ids[i], b, at, i);
      DealtWithNext(old(db.rows), rows, db.rows, ids, i, b, at, sure);
    }
    AllDealtWith(old(db.rows), db.rows, ids, b, at, sure);
  }
}
