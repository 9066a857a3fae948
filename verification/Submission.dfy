/** What becomes of the batches of a trigger once they are submitted (cmd/api/handlers/settlement.go:46-81):
    which rows the bank's acknowledgements complete, and whether the bank has been sent them. */
module Submission {
  import opened States
  import opened Tables
  import opened Operations
  import opened Listings
  import opened Grouping
  import opened Store
  import opened Settlement
  import opened Stamps
  import opened Completion

  /** A row after the first n of the new batches were submitted. */
  function AfterAcks(row: Row, first: nat, n: nat, bank: nat -> Option<int>): Row {
    if row.state == FundsPosted && row.batch.Some? && first <= row.batch.value < first + n
       && bank(row.batch.value - first).Some?
    then CompletedRow(row, row.batch.value, bank(row.batch.value - first).value) else row
  }

  ghost predicate AcksDone(rows1: seq<Row>, rows: seq<Row>, first: nat, n: nat, bank: nat -> Option<int>) {
    |rows| == |rows1| && forall t: TransferId :: t < |rows| ==> rows[t] == AfterAcks(rows1[t], first, n, bank)
  }

  lemma {:induction false} AcksStep(
    rows1: seq<Row>, rows: seq<Row>, rows': seq<Row>, first: nat, n: nat, bank: nat -> Option<int>)
    requires AcksDone(rows1, rows, first, n, bank)
    requires if bank(n).Some? then AllCompleted(rows, rows', first + n, bank(n).value) else rows' == rows
    ensures AcksDone(rows1, rows', first, n + 1, bank)
  {
    forall t: TransferId | t < |rows'| ensures rows'[t] == AfterAcks(rows1[t], first, n + 1, bank) {
      assert rows[t] == AfterAcks(rows1[t], first, n, bank);
    }
  }

  /** Whatever fails, a row keeps its origin, and only goes from FundsPosted to Completed. */
  ghost predicate KeptOrCompleted(before: seq<Row>, after: seq<Row>) {
    && |after| == |before|
    && forall t: TransferId :: t < |before| ==>
         && SameOrigin(before[t], after[t])
         && (after[t].state == before[t].state || (before[t].state == FundsPosted && after[t].state == Completed))
  }

  /** Whatever fails, only rows of the first n of the new batches are completed, of those the bank has
      acknowledged, and they stay in their batch. */
  ghost predicate ByBank(rows1: seq<Row>, rows: seq<Row>, first: nat, n: nat, bank: nat -> Option<int>) {
    && |rows| == |rows1|
    && forall t: TransferId :: t < |rows1| ==>
         && rows[t].batch == rows1[t].batch
         && (rows[t].state == rows1[t].state || IsAcknowledged(rows1[t], first, n, bank))
  }

  predicate IsAcknowledged(row: Row, first: nat, n: nat, bank: nat -> Option<int>) {
    row.batch.Some? && first <= row.batch.value < first + n && bank(row.batch.value - first).Some?
  }

  lemma {:induction false} ByBankStep(
    rows1: seq<Row>, rows: seq<Row>, rows': seq<Row>, first: nat, n: nat, bank: nat -> Option<int>)
    requires ByBank(rows1, rows, first, n, bank)
    requires if bank(n).Some? then OnlyCompleted(rows, rows', first + n, bank(n).value) else rows' == rows
    ensures ByBank(rows1, rows', first, n + 1, bank)
  {
    forall t: TransferId | t < |rows1|
      ensures rows'[t].batch == rows1[t].batch
      ensures rows'[t].state == rows1[t].state || IsAcknowledged(rows1[t], first, n + 1, bank)
    {
      assert rows[t].batch == rows1[t].batch;
    }
  }

  lemma {:induction false} KeptOn(rows0: seq<Row>, rows: seq<Row>, rows': seq<Row>, b: BatchId, at: int)
    requires KeptOrCompleted(rows0, rows) && OnlyCompleted(rows, rows', b, at)
    ensures KeptOrCompleted(rows0, rows')
  {
  }

  /** When nothing fails: a due row is in the batch of its correspondent, Completed if the bank
      acknowledged that batch and FundsPosted if not; no other row has changed. */
  ghost predicate RowsSettled(
    rows0: seq<Row>, rows: seq<Row>, cutoff: int, first: nat, bs: seq<Summary>, bank: nat -> Option<int>) {
    && |rows| == |rows0|
    && (forall t: TransferId, i: nat ::
          t < |rows0| && i < |bs| && IsDue(rows0[t], cutoff) && rows0[t].correspondent == bs[i].correspondent ==>
            rows[t] == if bank(i).Some? then CompletedRow(rows0[t], first + i, bank(i).value)
                       else Settled(rows0[t], first + i, None))
    && (forall t: TransferId :: t < |rows0| && !IsDue(rows0[t], cutoff) ==> rows[t] == rows0[t])
  }

  /** The foreign key from transfers to settlement_batches. */
  ghost predicate LinksExist(rows: seq<Row>, n: nat) {
    forall t: TransferId :: t < |rows| && rows[t].batch.Some? ==> rows[t].batch.value < n
  }

  lemma {:induction false} AcksSettle(
    rows0: seq<Row>, rows1: seq<Row>, rows: seq<Row>, cutoff: int, first: nat, bs: seq<Summary>,
    bank: nat -> Option<int>)
    requires RowsFit(rows0, rows1, cutoff, first, bs) && AcksDone(rows1, rows, first, |bs|, bank)
    requires LinksExist(rows0, first)
    ensures RowsSettled(rows0, rows, cutoff, first, bs, bank)
  {
  }

  ghost predicate StatusesSet(batches: seq<Batch>, first: nat, n: nat, bank: nat -> Option<int>) {
    && first + n <= |batches|
    && forall i: nat :: i < n ==> batches[first + i].status == if bank(i).Some? then Acknowledged else Submitted
  }

  lemma {:induction false} StatusesStep(
    batches: seq<Batch>, batches': seq<Batch>, first: nat, n: nat, bank: nat -> Option<int>)
    requires StatusesSet(batches, first, n, bank) && first + n < |batches|
    requires batches' == batches[first + n := batches[first + n].(
               status := if bank(n).Some? then Acknowledged else Submitted)]
    ensures StatusesSet(batches', first, n + 1, bank)
  {
  }

  // ---- what the bank has been sent ----

  /** The batches and the files as the trigger has left them. */
  ghost predicate Filed(disk: map<string, SettlementFile>, ts: seq<Transfer>, stamp: string, bs: seq<Summary>) {
    && FilesFit(disk, ts, stamp, bs) && Apart(bs) && NamesOf(bs) == Correspondents(ts)
    && forall i :: 0 <= i < |bs| ==>
         |bs[i].correspondent| >= 8 && bs[i].fileRef == FileName(bs[i].correspondent, stamp)
  }

  lemma {:induction false} CompleteIsFiled(
    ts: seq<Transfer>, stamp: string, cutoff: int, first: nat, r: TriggerResult, batches: seq<Batch>,
    disk: map<string, SettlementFile>)
    requires Complete(ts, stamp, cutoff, first, r, batches, disk)
    ensures Filed(disk, ts, stamp, r.batches)
  {
    var bs := r.batches;
    assert forall i :: 0 <= i < |bs| ==>
      Summarizes(bs[i], bs[i].correspondent, stamp, Of(ts, {bs[i].correspondent}), first + i);
  }

  /** The transfer is a check of the file. */
  predicate HasCheck(file: SettlementFile, t: TransferId) {
    exists k :: 0 <= k < |file.checks| && file.checks[k].transfer == t
  }

  /** A row in one of the new batches: it is a check of the file that is read for the batch. */
  ghost predicate IsSent(disk: map<string, SettlementFile>, first: nat, bs: seq<Summary>, row: Row, t: TransferId) {
    && row.batch.Some? && first <= row.batch.value < first + |bs|
    && bs[row.batch.value - first].fileRef in disk
    && HasCheck(disk[bs[row.batch.value - first].fileRef], t)
  }

  /** Every row that was completed has been sent. */
  ghost predicate CompletedWereSent(
    rows0: seq<Row>, rows: seq<Row>, disk: map<string, SettlementFile>, first: nat, bs: seq<Summary>)
  {
    && |rows| == |rows0|
    && forall t: TransferId :: t < |rows0| && rows0[t].state != Completed && rows[t].state == Completed ==>
         IsSent(disk, first, bs, rows[t], t)
  }

  /** No later batch of a correspondent with the same eight characters comes after an acknowledged one. */
  ghost predicate AcknowledgedDiffer(bs: seq<Summary>, bank: nat -> Option<int>)
    requires forall i :: 0 <= i < |bs| ==> |bs[i].correspondent| >= 8
  {
    forall i: nat, j: nat :: i < j < |bs| && bank(i).Some? ==> bs[i].correspondent[..8] != bs[j].correspondent[..8]
  }

  lemma {:induction false} ChecksAreTheGroup(
    file: SettlementFile, rows0: seq<Row>, cutoff: int, ts: seq<Transfer>, c: CorrespondentId, stamp: string,
    t: TransferId)
    requires IsDueListing(rows0, cutoff, ts) && t < |rows0| && IsFileOf(file, c, stamp, Of(ts, {c}))
    ensures HasCheck(file, t) <==> IsDue(rows0[t], cutoff) && rows0[t].correspondent == c
  {
    var g := Of(ts, {c});
    GroupRows(rows0, cutoff, ts, c, t);
    if Has(g, t) {
      var k :| 0 <= k < |g| && g[k].id == t;
      assert IsCheckOf(file.checks[k], g[k]);
    }
    if HasCheck(file, t) {
      var k :| 0 <= k < |file.checks| && file.checks[k].transfer == t;
      assert IsCheckOf(file.checks[k], g[k]);
    }
  }

  lemma {:induction false} NamesDiffer(bs: seq<Summary>, stamp: string, i: nat, j: nat)
    requires i < |bs| && j < |bs|
    requires forall k :: 0 <= k < |bs| ==>
      |bs[k].correspondent| >= 8 && bs[k].fileRef == FileName(bs[k].correspondent, stamp)
    ensures bs[i].fileRef == bs[j].fileRef <==> bs[i].correspondent[..8] == bs[j].correspondent[..8]
  {
    NamesShowEightCharacters(bs[i].correspondent, bs[j].correspondent, stamp);
  }

  /** A file that no later batch overwrites has its checks. */
  lemma {:induction false} OwnFileHasChecks(
    disk: map<string, SettlementFile>, rows0: seq<Row>, cutoff: int, ts: seq<Transfer>, stamp: string,
    bs: seq<Summary>, i: nat, t: TransferId)
    requires IsDueListing(rows0, cutoff, ts) && Filed(disk, ts, stamp, bs) && i < |bs|
    requires forall j: nat :: i < j < |bs| ==> bs[i].correspondent[..8] != bs[j].correspondent[..8]
    requires t < |rows0| && IsDue(rows0[t], cutoff) && rows0[t].correspondent == bs[i].correspondent
    ensures bs[i].fileRef in disk && HasCheck(disk[bs[i].fileRef], t)
  {
    forall j: nat | i < j < |bs| ensures bs[j].fileRef != bs[i].fileRef {
      NamesDiffer(bs, stamp, j, i);
    }
    assert KeepsItsFile(bs, i) && ReadsBack(disk, ts, stamp, bs, i);
    ChecksAreTheGroup(disk[bs[i].fileRef], rows0, cutoff, ts, bs[i].correspondent, stamp, t);
  }

  /** Whatever fails: when no acknowledged batch has its file overwritten, every completed row was sent. */
  lemma {:induction false} CompletedAreSent(
    rows0: seq<Row>, rows1: seq<Row>, rows: seq<Row>, disk: map<string, SettlementFile>, cutoff: int,
    ts: seq<Transfer>, stamp: string, first: nat, bs: seq<Summary>, bank: nat -> Option<int>)
    requires IsDueListing(rows0, cutoff, ts) && Filed(disk, ts, stamp, bs) && AcknowledgedDiffer(bs, bank)
    requires OnlyDueLinked(rows0, rows1, cutoff) && LinksFit(rows0, rows1, cutoff, first, bs)
    requires LinksExist(rows0, first)
    requires ByBank(rows1, rows, first, |bs|, bank)
    ensures CompletedWereSent(rows0, rows, disk, first, bs)
  {
    forall t: TransferId | t < |rows0| && rows0[t].state != Completed && rows[t].state == Completed
      ensures IsSent(disk, first, bs, rows[t], t)
    {
      CompletedIsLinked(rows0, rows1, rows, cutoff, first, bs, bank, t);
      OwnFileHasChecks(disk, rows0, cutoff, ts, stamp, bs, rows[t].batch.value - first, t);
    }
  }

  lemma {:induction false} CompletedIsLinked(
    rows0: seq<Row>, rows1: seq<Row>, rows: seq<Row>, cutoff: int, first: nat, bs: seq<Summary>,
    bank: nat -> Option<int>, t: TransferId)
    requires OnlyDueLinked(rows0, rows1, cutoff) && LinksFit(rows0, rows1, cutoff, first, bs)
    requires LinksExist(rows0, first)
    requires ByBank(rows1, rows, first, |bs|, bank)
    requires t < |rows0| && rows0[t].state != Completed && rows[t].state == Completed
    ensures IsAcknowledged(rows[t], first, |bs|, bank) && InItsBatch(rows0[t], rows[t], cutoff, first, bs)
  {
    assert rows1[t].state == rows0[t].state;
  }

  /** The batch that was the last to write the file. */
  lemma {:induction false} LastWriter(bs: seq<Summary>, i: nat) returns (m: nat)
    requires i < |bs|
    ensures i <= m < |bs| && bs[m].fileRef == bs[i].fileRef && KeepsItsFile(bs, m)
    ensures m == i ==> KeepsItsFile(bs, i)
    decreases |bs| - i
  {
    m := i;
    if !KeepsItsFile(bs, i) {
      var j: nat :| i < j < |bs| && bs[j].fileRef == bs[i].fileRef;
      m := LastWriter(bs, j);
    }
  }

  /** When nothing fails: if an acknowledged batch has its file overwritten, its rows are completed although
      the bank has never been sent them. */
  lemma {:induction false} CompletedUnsent(
    rows0: seq<Row>, rows: seq<Row>, disk: map<string, SettlementFile>, cutoff: int, ts: seq<Transfer>,
    stamp: string, first: nat, bs: seq<Summary>, bank: nat -> Option<int>)
    returns (t: TransferId)
    requires IsDueListing(rows0, cutoff, ts) && Filed(disk, ts, stamp, bs) && !AcknowledgedDiffer(bs, bank)
    requires RowsSettled(rows0, rows, cutoff, first, bs, bank)
    ensures t < |rows0| && rows0[t].state == FundsPosted && rows[t].state == Completed
    ensures !IsSent(disk, first, bs, rows[t], t)
  {
    var i: nat, j: nat :| i < j < |bs| && bank(i).Some? && bs[i].correspondent[..8] == bs[j].correspondent[..8];
    NamesDiffer(bs, stamp, i, j);
    var m := LastWriter(bs, i);
    assert !KeepsItsFile(bs, i);
    ApartMeans(bs, i, m);
    assert ReadsBack(disk, ts, stamp, bs, m);
    t := SomeOfGroup(rows0, cutoff, ts, bs, i);
    ChecksAreTheGroup(disk[bs[m].fileRef], rows0, cutoff, ts, bs[m].correspondent, stamp, t);
  }

  lemma {:induction false} SomeOfGroup(rows0: seq<Row>, cutoff: int, ts: seq<Transfer>, bs: seq<Summary>, i: nat)
    returns (t: TransferId)
    requires IsDueListing(rows0, cutoff, ts) && NamesOf(bs) == Correspondents(ts) && i < |bs|
    ensures t < |rows0| && IsDue(rows0[t], cutoff) && rows0[t].correspondent == bs[i].correspondent
  {
    var c := bs[i].correspondent;
    NamesAre(bs, c);
    GroupIsInhabited(ts, c);
    t := Of(ts, {c})[0].id;
    GroupMembers(ts, {c}, Of(ts, {c})[0]);
  }

  /** The bank has been sent every row that the handler completes exactly when no acknowledged batch is
      followed by one of a correspondent with the same eight characters; and so, if the bank acknowledges
      everything, exactly when the correspondents differ in their first eight characters. */
  lemma {:induction false} CompletedWereSentExactly(
    rows0: seq<Row>, rows1: seq<Row>, rows: seq<Row>, disk: map<string, SettlementFile>, cutoff: int,
    ts: seq<Transfer>, stamp: string, first: nat, bs: seq<Summary>, bank: nat -> Option<int>)
    requires IsDueListing(rows0, cutoff, ts) && Filed(disk, ts, stamp, bs)
    requires OnlyDueLinked(rows0, rows1, cutoff) && LinksFit(rows0, rows1, cutoff, first, bs)
    requires LinksExist(rows0, first)
    requires ByBank(rows1, rows, first, |bs|, bank) && RowsSettled(rows0, rows, cutoff, first, bs, bank)
    ensures CompletedWereSent(rows0, rows, disk, first, bs) <==> AcknowledgedDiffer(bs, bank)
    ensures (forall i: nat :: i < |bs| ==> bank(i).Some?) ==> (AcknowledgedDiffer(bs, bank) <==> PrefixesDiffer(bs))
  {
    if AcknowledgedDiffer(bs, bank) {
      CompletedAreSent(rows0, rows1, rows, disk, cutoff, ts, stamp, first, bs, bank);
    } else {
      var t := CompletedUnsent(rows0, rows, disk, cutoff, ts, stamp, first, bs, bank);
    }
  }
}
