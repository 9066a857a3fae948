/** Settlement (internal/settlement/engine.go, cmd/api/handlers/settlement.go): a trigger lists the due
    transfers, writes one file and one batch per correspondent and links the transfers; the bank's
    acknowledgement completes them. */
module Settlement {
  import opened States
  import opened Tables
  import opened Operations
  import opened Listings
  import opened Grouping
  import opened Subsequences
  import opened Calendar
  import opened Cutoff
  import opened Stamps
  import opened Store
  import opened System

  datatype Check = Check(transfer: TransferId, micr: Micr, amount: int)

  datatype SettlementFile = SettlementFile(
    correspondent: CorrespondentId,
    cutoffDate: string,
    checks: seq<Check>,
    totalAmount: int,
    recordCount: nat)

  datatype Summary = Summary(
    batch: BatchId, correspondent: CorrespondentId, recordCount: nat, totalAmount: int, fileRef: string)

  datatype TriggerResult = TriggerResult(
    batchCount: nat, totalChecks: nat, totalAmount: int, cutoff: int, batches: seq<Summary>)

  /** The check is that of the transfer: its amount, and its MICR data or blanks. */
  predicate IsCheckOf(check: Check, t: Transfer) {
    && check.transfer == t.id && check.amount == t.row.amount
    && check.micr.routing == (if t.row.micr.Some? then t.row.micr.value.routing else "")
    && check.micr.account == (if t.row.micr.Some? then t.row.micr.value.account else "")
    && check.micr.checkNumber == (if t.row.micr.Some? then t.row.micr.value.checkNumber else "")
  }

  predicate IsFileOf(file: SettlementFile, c: CorrespondentId, stamp: string, g: seq<Transfer>) {
    && file.correspondent == c && file.cutoffDate == stamp
    && |file.checks| == |g| && (forall i :: 0 <= i < |g| ==> IsCheckOf(file.checks[i], g[i]))
    && file.totalAmount == Sum(g) && file.recordCount == |g|
  }

  method BuildSettlementFile(c: CorrespondentId, stamp: string, g: seq<Transfer>) returns (file: SettlementFile)
    ensures IsFileOf(file, c, stamp, g)
    ensures forall i :: 0 <= i < |g| ==>
      && file.checks[i].transfer == g[i].id && file.checks[i].amount == g[i].row.amount
      && file.checks[i].micr == if g[i].row.micr.Some? then g[i].row.micr.value else Micr("", "", "")
  {
    var checks, total := [], 0;
    for i := 0 to |g|
      invariant |checks| == i && forall k :: 0 <= k < i ==> IsCheckOf(checks[k], g[k])
      invariant total == Sum(g[..i])
    {
      assert g[..i + 1][..i] == g[..i];
      var row, micr := g[i].row, Micr("", "", "");
      if row.micr.Some? {
        micr := row.micr.value;
      }
      checks := checks + [Check(g[i].id, micr, row.amount)];
      total := total + row.amount;
    }
    assert g[..|g|] == g;
    return SettlementFile(c, stamp, checks, total, |checks|);
  }

  /** The total of a group. */
  method TotalOf(g: seq<Transfer>) returns (total: int)
    ensures total == Sum(g)
  {
    total := 0;
    for i := 0 to |g|
      invariant total == Sum(g[..i])
    {
      assert g[..i + 1][..i] == g[..i];
      total := total + g[i].row.amount;
    }
    assert g[..|g|] == g;
  }

  /** Files of other days are as they were. */
  ghost predicate KeepsOtherDays(disk: map<string, SettlementFile>, disk': map<string, SettlementFile>, stamp: string) {
    forall name :: name in disk && !HasStamp(name, stamp) ==> name in disk' && disk'[name] == disk[name]
  }

  lemma {:induction false} OneFileWritten(
    disk: map<string, SettlementFile>, c: CorrespondentId, stamp: string, file: SettlementFile)
    requires |c| >= 8
    ensures KeepsOtherDays(disk, disk[FileName(c, stamp) := file], stamp)
  {
    NameReadsBack(c, stamp);
  }

  lemma {:induction false} HasAppend(g: seq<Transfer>, x: Transfer, t: TransferId)
    ensures Has(g + [x], t) <==> Has(g, t) || x.id == t
  {
    assert (g + [x])[|g|] == x;
    if Has(g, t) {
      var k :| 0 <= k < |g| && g[k].id == t;
      assert (g + [x])[k].id == t;
    }
  }

  /** The rows of g are linked to batch b, the others are as before. */
  ghost predicate LinkedTo(before: seq<Row>, after: seq<Row>, g: seq<Transfer>, b: BatchId) {
    && |after| == |before|
    && forall t: TransferId :: t < |before| ==> after[t] == if Has(g, t) then Settled(before[t], b, None) else before[t]
  }

  /** At most rows of g are linked, and only to b. */
  ghost predicate LinkedAtMost(before: seq<Row>, after: seq<Row>, g: seq<Transfer>, b: BatchId) {
    && |after| == |before|
    && forall t: TransferId :: t < |before| ==>
         after[t] == before[t] || (Has(g, t) && after[t] == Settled(before[t], b, None))
  }

  /** The rows a trigger has read were FundsPosted. */
  ghost predicate MayLinkAll(rows: seq<Row>, g: seq<Transfer>) {
    forall k :: 0 <= k < |g| ==> g[k].id < |rows| && OncePosted(rows[g[k].id].state)
  }

  /** The effect of a statement of a trigger on the database. */
  function SettlementStep(db: Db, a: Action): Db {
    match a
    case OpenBatch(batch) => db.(batches := db.batches + [batch.(status := Pending)])
    case LinkRow(t, b) =>
      if t < |db.rows| && b < |db.batches| && OncePosted(db.rows[t].state)
      then db.(rows := db.rows[t := db.rows[t].(batch := Some(b))]) else db
    case MarkSubmitted(b) =>
      if b < |db.batches| then db.(batches := db.batches[b := db.batches[b].(status := Submitted)]) else db
    case Begin(_) => db
    case Turn(_, _, _) => db
  }

  function Replay(db: Db, steps: seq<Action>): Db {
    if steps == [] then db else SettlementStep(Replay(db, steps[..|steps| - 1]), steps[|steps| - 1])
  }

  lemma {:induction false} ReplayOne(db: Db, steps: seq<Action>, a: Action)
    ensures Replay(db, steps + [a]) == SettlementStep(Replay(db, steps), a)
  {
    assert (steps + [a])[..|steps|] == steps;
  }

  lemma {:induction false} ReplaySplits(db: Db, steps: seq<Action>, more: seq<Action>)
    ensures Replay(db, steps + more) == Replay(Replay(db, steps), more)
  {
    if more == [] {
      assert steps + more == steps;
    } else {
      ReplaySplits(db, steps, more[..|more| - 1]);
      assert (steps + more)[..|steps + more| - 1] == steps + more[..|more| - 1];
    }
  }

  predicate AreSettlement(steps: seq<Action>) {
    forall i :: 0 <= i < |steps| ==> steps[i].OpenBatch? || steps[i].LinkRow? || steps[i].MarkSubmitted?
  }

  /** The database is what the steps of a trigger make of db. */
  predicate Follows(db: Db, steps: seq<Action>, db': Db) {
    AreSettlement(steps) && db' == Replay(db, steps)
  }

  lemma {:induction false} FollowsOn(db: Db, steps: seq<Action>, more: seq<Action>)
    requires AreSettlement(steps) && AreSettlement(more)
    ensures Follows(db, steps + more, Replay(Replay(db, steps), more))
  {
    ReplaySplits(db, steps, more);
  }

  /** What a trigger does is a run of the interleaved system. */
  lemma {:induction false} ReplayIsARun(s: System, steps: seq<Action>)
    requires AreSettlement(steps)
    ensures Run(s, steps).db == Replay(s.db, steps)
  {
    if steps != [] {
      ReplayIsARun(s, steps[..|steps| - 1]);
    }
  }

  lemma {:induction false} OneMoreLinked(g: seq<Transfer>, i: nat, t: TransferId)
    requires i < |g|
    ensures Has(g[..i + 1], t) <==> Has(g[..i], t) || g[i].id == t
  {
    assert g[..i + 1] == g[..i] + [g[i]];
    HasAppend(g[..i], g[i], t);
  }

  lemma {:induction false} LinkOne(
    before: seq<Row>, rows: seq<Row>, rows': seq<Row>, g: seq<Transfer>, i: nat, b: BatchId)
    requires i < |g| && g[i].id < |rows| && LinkedAtMost(before, rows, g[..i], b)
    requires rows' == rows || rows' == rows[g[i].id := Settled(rows[g[i].id], b, None)]
    ensures LinkedAtMost(before, rows', g[..i + 1], b)
    ensures LinkedTo(before, rows, g[..i], b) && rows' == rows[g[i].id := Settled(rows[g[i].id], b, None)] ==>
      LinkedTo(before, rows', g[..i + 1], b)
  {
    forall t: TransferId | t < |rows| ensures Has(g[..i + 1], t) <==> Has(g[..i], t) || g[i].id == t {
      OneMoreLinked(g, i, t);
    }
  }

  /** Link the transfers of a group, one statement each. */
  method LinkAll(db: Database, g: seq<Transfer>, b: BatchId) returns (ghost steps: seq<Action>)
    requires b < |db.batches| && MayLinkAll(db.rows, g)
    modifies db`rows
    ensures Follows(old(db.Snapshot()), steps, db.Snapshot())
    ensures LinkedAtMost(old(db.rows), db.rows, g, b)
    ensures db.reliable ==> LinkedTo(old(db.rows), db.rows, g, b)
  {
    steps := [];
    for i := 0 to |g|
      invariant Follows(old(db.Snapshot()), steps, db.Snapshot())
      invariant LinkedAtMost(old(db.rows), db.rows, g[..i], b)
      invariant db.reliable ==> LinkedTo(old(db.rows), db.rows, g[..i], b)
    {
      ghost var rows, db0 := db.rows, db.Snapshot();
      var t := g[i].id;
      db.Link(t, b);
      LinkOne(old(db.rows), rows, db.rows, g, i, b);
      if db.rows != rows {
        assert OncePosted(old(db.rows)[t].state);
        LinkFollows(db0, t, b, db.Snapshot());
        FollowsOn(old(db.Snapshot()), steps, [LinkRow(t, b)]);
        steps := steps + [LinkRow(t, b)];
      }
    }
    assert g[..|g|] == g;
  }

  lemma {:induction false} LinkFollows(db: Db, t: TransferId, b: BatchId, db': Db)
    requires t < |db.rows| && b < |db.batches| && OncePosted(db.rows[t].state)
    requires db' == db.(rows := db.rows[t := Settled(db.rows[t], b, None)])
    ensures Follows(db, [LinkRow(t, b)], db')
  {
    ReplayOne(db, [], LinkRow(t, b));
    assert [] + [LinkRow(t, b)] == [LinkRow(t, b)];
  }

  /** The summary and the batch of a group. */
  predicate Summarizes(sum: Summary, c: CorrespondentId, stamp: string, g: seq<Transfer>, b: BatchId) {
    && |c| >= 8
    && sum == Summary(b, c, |g|, Sum(g), FileName(c, stamp))
  }

  function BatchFor(sum: Summary, stamp: string): Batch {
    Batch(sum.correspondent, stamp, Pending, sum.fileRef, sum.recordCount, sum.totalAmount)
  }

  /** The correspondents summed up so far. */
  function NamesOf(bs: seq<Summary>): set<CorrespondentId> {
    if bs == [] then {} else NamesOf(bs[..|bs| - 1]) + {bs[|bs| - 1].correspondent}
  }

  predicate Apart(bs: seq<Summary>) {
    bs == [] || (Apart(bs[..|bs| - 1]) && bs[|bs| - 1].correspondent !in NamesOf(bs[..|bs| - 1]))
  }

  lemma {:induction false} NamesAppend(bs: seq<Summary>, x: Summary)
    ensures NamesOf(bs + [x]) == NamesOf(bs) + {x.correspondent}
    ensures Apart(bs + [x]) <==> Apart(bs) && x.correspondent !in NamesOf(bs)
  {
    assert (bs + [x])[..|bs|] == bs;
  }

  lemma {:induction false} NamesAre(bs: seq<Summary>, c: CorrespondentId)
    ensures c in NamesOf(bs) <==> exists i :: 0 <= i < |bs| && bs[i].correspondent == c
  {
    if bs != [] {
      var init := bs[..|bs| - 1];
      NamesAre(init, c);
      if c in NamesOf(init) {
        var i :| 0 <= i < |init| && init[i].correspondent == c;
        assert bs[i].correspondent == c;
      }
      assert bs[|bs| - 1].correspondent in NamesOf(bs);
      assert forall i :: 0 <= i < |init| ==> bs[i] == init[i];
    }
  }

  lemma {:induction false} ApartMeans(bs: seq<Summary>, i: nat, j: nat)
    requires Apart(bs) && i < j < |bs|
    ensures bs[i].correspondent != bs[j].correspondent
  {
    var init := bs[..|bs| - 1];
    if j < |init| {
      ApartMeans(init, i, j);
    } else {
      NamesAre(init, bs[i].correspondent);
      assert init[i] == bs[i];
    }
  }

  /** One batch per correspondent, in the order visited, each recording its whole group. */
  ghost predicate BatchesFit(ts: seq<Transfer>, stamp: string, first: nat, bs: seq<Summary>, batches: seq<Batch>) {
    && |batches| == first + |bs|
    && (forall i :: 0 <= i < |bs| ==>
          && Summarizes(bs[i], bs[i].correspondent, stamp, Of(ts, {bs[i].correspondent}), first + i)
          && batches[first + i] == BatchFor(bs[i], stamp))
    && Apart(bs)
  }

  /** Due rows of the visited correspondents are linked to their batch; all other rows are as before. */
  ghost predicate RowsFit(rows0: seq<Row>, rows: seq<Row>, cutoff: int, first: nat, bs: seq<Summary>) {
    && |rows| == |rows0|
    && (forall t: TransferId, i: nat ::
          t < |rows0| && i < |bs| && IsDue(rows0[t], cutoff) && rows0[t].correspondent == bs[i].correspondent ==>
            rows[t] == Settled(rows0[t], first + i, None))
    && (forall t: TransferId :: t < |rows0| && !(IsDue(rows0[t], cutoff) && rows0[t].correspondent in NamesOf(bs)) ==>
          rows[t] == rows0[t])
  }

  /** Whatever fails, only the batch of due rows may change. */
  ghost predicate OnlyDueLinked(rows0: seq<Row>, rows: seq<Row>, cutoff: int) {
    && |rows| == |rows0|
    && forall t: TransferId :: t < |rows0| ==>
         rows[t] == rows0[t] || (IsDue(rows0[t], cutoff) && rows[t] == rows0[t].(batch := rows[t].batch))
  }

  /** Whatever fails: a row that has been linked was due and is in the batch of its correspondent. */
  ghost predicate LinksFit(rows0: seq<Row>, rows: seq<Row>, cutoff: int, first: nat, bs: seq<Summary>) {
    && |rows| == |rows0|
    && forall t: TransferId :: t < |rows0| ==>
         rows[t].batch == rows0[t].batch || InItsBatch(rows0[t], rows[t], cutoff, first, bs)
  }

  predicate InItsBatch(row0: Row, row: Row, cutoff: int, first: nat, bs: seq<Summary>) {
    && IsDue(row0, cutoff) && row.batch.Some? && first <= row.batch.value < first + |bs|
    && bs[row.batch.value - first].correspondent == row0.correspondent
  }

  lemma {:induction false} LinksFitAppend(
    rows0: seq<Row>, rows: seq<Row>, rows': seq<Row>, cutoff: int, ts: seq<Transfer>, first: nat,
    bs: seq<Summary>, x: Summary)
    requires IsDueListing(rows0, cutoff, ts) && LinksFit(rows0, rows, cutoff, first, bs)
    requires LinkedAtMost(rows, rows', Of(ts, {x.correspondent}), first + |bs|)
    ensures LinksFit(rows0, rows', cutoff, first, bs + [x])
  {
    forall t: TransferId | t < |rows0|
      ensures rows'[t].batch == rows0[t].batch || InItsBatch(rows0[t], rows'[t], cutoff, first, bs + [x])
    {
      GroupRows(rows0, cutoff, ts, x.correspondent, t);
    }
  }

  /** No later batch writes the file of the ith. */
  predicate KeepsItsFile(bs: seq<Summary>, i: nat) {
    i < |bs| && forall j :: i < j < |bs| ==> bs[j].fileRef != bs[i].fileRef
  }

  /** Reading the file reference of the ith batch gives exactly its checks and total. */
  ghost predicate ReadsBack(
    disk: map<string, SettlementFile>, ts: seq<Transfer>, stamp: string, bs: seq<Summary>, i: nat) {
    && i < |bs| && bs[i].fileRef in disk
    && IsFileOf(disk[bs[i].fileRef], bs[i].correspondent, stamp, Of(ts, {bs[i].correspondent}))
  }

  ghost predicate FilesFit(disk: map<string, SettlementFile>, ts: seq<Transfer>, stamp: string, bs: seq<Summary>) {
    && (forall i :: 0 <= i < |bs| ==> bs[i].fileRef in disk)
    && (forall i: nat :: KeepsItsFile(bs, i) ==> ReadsBack(disk, ts, stamp, bs, i))
  }

  lemma {:induction false} FilesFitAppend(
    disk: map<string, SettlementFile>, disk': map<string, SettlementFile>, ts: seq<Transfer>, stamp: string,
    bs: seq<Summary>, x: Summary)
    requires FilesFit(disk, ts, stamp, bs)
    requires x.fileRef in disk' && disk' == disk[x.fileRef := disk'[x.fileRef]]
    requires IsFileOf(disk'[x.fileRef], x.correspondent, stamp, Of(ts, {x.correspondent}))
    ensures FilesFit(disk', ts, stamp, bs + [x])
  {
    var cs := bs + [x];
    forall i: nat | KeepsItsFile(cs, i) ensures ReadsBack(disk', ts, stamp, cs, i) {
      if i < |bs| {
        assert cs[|bs|] == x;
        assert forall j :: i < j < |bs| ==> cs[j] == bs[j];
        assert KeepsItsFile(bs, i);
        assert ReadsBack(disk, ts, stamp, bs, i);
      }
    }
  }

  /** The rows of a group are the due rows of its correspondent. */
  lemma {:induction false} GroupRows(rows: seq<Row>, cutoff: int, ts: seq<Transfer>, c: CorrespondentId, t: TransferId)
    requires IsDueListing(rows, cutoff, ts) && t < |rows|
    ensures Has(Of(ts, {c}), t) <==> IsDue(rows[t], cutoff) && rows[t].correspondent == c
  {
    var g, x := Of(ts, {c}), Transfer(t, rows[t]);
    GroupMembers(ts, {c}, x);
    if IsDue(rows[t], cutoff) {
      assert Has(ts, t);
      assert x in ts;
    }
    if Has(g, t) {
      var k :| 0 <= k < |g| && g[k].id == t;
      GroupMembers(ts, {c}, g[k]);
    }
    if x in g {
      MembersAreHad(g, x);
    }
  }

  lemma {:induction false} MembersAreHad(g: seq<Transfer>, x: Transfer)
    requires x in g
    ensures Has(g, x.id)
  {
    var k :| 0 <= k < |g| && g[k] == x;
    assert g[k].id == x.id;
  }

  lemma {:induction false} RowsFitAppend(
    rows0: seq<Row>, rows: seq<Row>, rows': seq<Row>, cutoff: int, ts: seq<Transfer>, first: nat,
    bs: seq<Summary>, x: Summary)
    requires IsDueListing(rows0, cutoff, ts) && RowsFit(rows0, rows, cutoff, first, bs)
    requires x.correspondent !in NamesOf(bs)
    requires LinkedTo(rows, rows', Of(ts, {x.correspondent}), first + |bs|)
    ensures RowsFit(rows0, rows', cutoff, first, bs + [x])
  {
    var cs := bs + [x];
    NamesAppend(bs, x);
    forall t: TransferId | t < |rows0|
      ensures IsDue(rows0[t], cutoff) ==> forall i: nat :: i < |cs| && rows0[t].correspondent == cs[i].correspondent ==>
                rows'[t] == Settled(rows0[t], first + i, None)
      ensures !(IsDue(rows0[t], cutoff) && rows0[t].correspondent in NamesOf(cs)) ==> rows'[t] == rows0[t]
    {
      GroupRows(rows0, cutoff, ts, x.correspondent, t);
      forall i: nat | i < |cs| && IsDue(rows0[t], cutoff) && rows0[t].correspondent == cs[i].correspondent
        ensures rows'[t] == Settled(rows0[t], first + i, None)
      {
        if i < |bs| {
          NamesAre(bs, rows0[t].correspondent);
        }
      }
    }
  }

  lemma {:induction false} GroupMayBeLinked(
    rows0: seq<Row>, rows: seq<Row>, cutoff: int, ts: seq<Transfer>, c: CorrespondentId)
    requires IsDueListing(rows0, cutoff, ts) && OnlyDueLinked(rows0, rows, cutoff)
    ensures MayLinkAll(rows, Of(ts, {c}))
  {
    var g := Of(ts, {c});
    forall k | 0 <= k < |g| ensures g[k].id < |rows| && OncePosted(rows[g[k].id].state) {
      GroupMembers(ts, {c}, g[k]);
    }
  }

  lemma {:induction false} LinkingStaysDue(
    rows0: seq<Row>, rows: seq<Row>, rows': seq<Row>, cutoff: int, ts: seq<Transfer>, c: CorrespondentId, b: BatchId)
    requires IsDueListing(rows0, cutoff, ts) && OnlyDueLinked(rows0, rows, cutoff)
    requires LinkedAtMost(rows, rows', Of(ts, {c}), b)
    ensures OnlyDueLinked(rows0, rows', cutoff)
  {
    forall t: TransferId | t < |rows0|
      ensures rows'[t] == rows0[t] || (IsDue(rows0[t], cutoff) && rows'[t] == rows0[t].(batch := rows'[t].batch))
    {
      GroupRows(rows0, cutoff, ts, c, t);
    }
  }

  /** What the loop over the groups has done so far. */
  ghost predicate Visited(
    ts: seq<Transfer>, stamp: string, first: nat, bs: seq<Summary>, batches: seq<Batch>,
    disk: map<string, SettlementFile>)
  {
    && BatchesFit(ts, stamp, first, bs, batches)
    && FilesFit(disk, ts, stamp, bs)
  }

  lemma {:induction false} VisitedAppend(
    ts: seq<Transfer>, stamp: string, first: nat, bs: seq<Summary>, batches: seq<Batch>,
    disk: map<string, SettlementFile>, x: Summary, disk': map<string, SettlementFile>)
    requires Visited(ts, stamp, first, bs, batches, disk)
    requires x.correspondent !in NamesOf(bs)
    requires Summarizes(x, x.correspondent, stamp, Of(ts, {x.correspondent}), |batches|)
    requires x.fileRef in disk' && disk' == disk[x.fileRef := disk'[x.fileRef]]
    requires IsFileOf(disk'[x.fileRef], x.correspondent, stamp, Of(ts, {x.correspondent}))
    ensures Visited(ts, stamp, first, bs + [x], batches + [BatchFor(x, stamp)], disk')
  {
    FilesFitAppend(disk, disk', ts, stamp, bs, x);
    NamesAppend(bs, x);
  }

  /** The count and the total of a group must fit their columns. */
  predicate FitsColumns(ts: seq<Transfer>, c: CorrespondentId) {
    FitsBatch(|Of(ts, {c})|, Sum(Of(ts, {c})))
  }

  predicate AllFit(ts: seq<Transfer>) {
    forall c :: c in Correspondents(ts) ==> FitsColumns(ts, c)
  }

  function CountAll(bs: seq<Summary>): nat {
    if bs == [] then 0 else CountAll(bs[..|bs| - 1]) + bs[|bs| - 1].recordCount
  }

  function AmountAll(bs: seq<Summary>): int {
    if bs == [] then 0 else AmountAll(bs[..|bs| - 1]) + bs[|bs| - 1].totalAmount
  }

  lemma {:induction false} TalliesAppend(bs: seq<Summary>, x: Summary)
    ensures CountAll(bs + [x]) == CountAll(bs) + x.recordCount && AmountAll(bs + [x]) == AmountAll(bs) + x.totalAmount
  {
    assert (bs + [x])[..|bs|] == bs;
  }

  /** The batches together record the listed transfers of the correspondents visited. */
  lemma {:induction false} TalliesAddUp(
    ts: seq<Transfer>, stamp: string, first: nat, bs: seq<Summary>, batches: seq<Batch>)
    requires BatchesFit(ts, stamp, first, bs, batches)
    ensures CountAll(bs) == |Of(ts, NamesOf(bs))| && AmountAll(bs) == Sum(Of(ts, NamesOf(bs)))
  {
    if bs == [] {
      NoGroups(ts);
    } else {
      var init, last := bs[..|bs| - 1], bs[|bs| - 1];
      TalliesAddUp(ts, stamp, first, init, batches[..first + |init|]);
      GroupsAddUp(ts, NamesOf(init), last.correspondent);
    }
  }

  /** The summaries follow the order in which the correspondents are visited. */
  predicate InOrderOf(order: seq<CorrespondentId>, bs: seq<Summary>) {
    |bs| <= |order| && forall i :: 0 <= i < |bs| ==> bs[i].correspondent == order[i]
  }

  function Members(order: seq<CorrespondentId>): set<CorrespondentId> {
    if order == [] then {} else Members(order[..|order| - 1]) + {order[|order| - 1]}
  }

  predicate NoneTwice(order: seq<CorrespondentId>) {
    order == [] || (NoneTwice(order[..|order| - 1]) && order[|order| - 1] !in Members(order[..|order| - 1]))
  }

  predicate IsIteration(order: seq<CorrespondentId>, cs: set<CorrespondentId>) {
    Members(order) == cs && NoneTwice(order)
  }

  lemma {:induction false} MembersAre(order: seq<CorrespondentId>, c: CorrespondentId)
    ensures c in Members(order) <==> exists i :: 0 <= i < |order| && order[i] == c
  {
    if order != [] {
      var init := order[..|order| - 1];
      MembersAre(init, c);
      assert order == init + [order[|order| - 1]];
    }
  }

  lemma {:induction false} NamesAreMembers(order: seq<CorrespondentId>, bs: seq<Summary>)
    requires InOrderOf(order, bs)
    ensures NamesOf(bs) == Members(order[..|bs|])
  {
    if bs != [] {
      NamesAreMembers(order, bs[..|bs| - 1]);
      assert order[..|bs|][..|bs| - 1] == order[..|bs| - 1];
    }
  }

  lemma {:induction false} NextIsUnnamed(order: seq<CorrespondentId>, bs: seq<Summary>)
    requires NoneTwice(order) && InOrderOf(order, bs) && |bs| < |order|
    ensures order[|bs|] in Members(order) && order[|bs|] !in NamesOf(bs)
  {
    NextIsNew(order, |bs|);
    NamesAreMembers(order, bs);
  }

  lemma {:induction false} NextIsNew(order: seq<CorrespondentId>, k: nat)
    requires NoneTwice(order) && k < |order|
    ensures order[k] !in Members(order[..k]) && order[k] in Members(order)
  {
    if k < |order| - 1 {
      NextIsNew(order[..|order| - 1], k);
      assert order[..|order| - 1][..k] == order[..k];
    }
  }

  /** The order in which a map is iterated: any. */
  method IterationOrder(cs: set<CorrespondentId>) returns (order: seq<CorrespondentId>)
    ensures IsIteration(order, cs)
  {
    order := [];
    var todo := cs;
    while todo != {}
      invariant NoneTwice(order) && forall c :: c in cs <==> c in Members(order) || c in todo
      invariant forall c :: c in todo ==> c !in Members(order)
      decreases |todo|
    {
      var c :| c in todo;
      assert (order + [c])[..|order|] == order;
      order, todo := order + [c], todo - {c};
    }
  }

  /** What a trigger leaves behind and reports when it succeeds. */
  ghost predicate Complete(
    ts: seq<Transfer>, stamp: string, cutoff: int, first: nat, r: TriggerResult, batches: seq<Batch>,
    disk: map<string, SettlementFile>)
  {
    && Visited(ts, stamp, first, r.batches, batches, disk) && NamesOf(r.batches) == Correspondents(ts)
    && r.batchCount == |r.batches| && r.totalChecks == |ts| && r.totalAmount == Sum(ts) && r.cutoff == cutoff
  }

  /** The outcome of a trigger: when nothing fails it succeeds exactly when every count and total fits its
      column. */
  ghost predicate Outcome(
    reliable: bool, rows0: seq<Row>, rows: seq<Row>, ts: seq<Transfer>, stamp: string, cutoff: int, first: nat,
    result: Option<TriggerResult>, batches: seq<Batch>, disk: map<string, SettlementFile>)
  {
    && OnlyDueLinked(rows0, rows, cutoff)
    && (reliable ==> (result.Some? <==> AllFit(ts)))
    && (result.Some? ==>
          && Complete(ts, stamp, cutoff, first, result.value, batches, disk)
          && LinksFit(rows0, rows, cutoff, first, result.value.batches))
    && (result.Some? && reliable ==> RowsFit(rows0, rows, cutoff, first, result.value.batches))
  }

  /** The report with one more batch. */
  function WithBatch(r: TriggerResult, x: Summary): TriggerResult {
    TriggerResult(
      r.batchCount + 1, r.totalChecks + x.recordCount, r.totalAmount + x.totalAmount, r.cutoff, r.batches + [x])
  }

  /** The report, the batches and the files agree. */
  ghost predicate Booked(
    ts: seq<Transfer>, stamp: string, cutoff: int, first: nat, r: TriggerResult, batches: seq<Batch>,
    disk: map<string, SettlementFile>)
  {
    && Visited(ts, stamp, first, r.batches, batches, disk)
    && r.batchCount == |r.batches| && r.totalChecks == CountAll(r.batches) && r.totalAmount == AmountAll(r.batches)
    && r.cutoff == cutoff
  }

  lemma {:induction false} BookedStep(
    ts: seq<Transfer>, stamp: string, cutoff: int, first: nat, r: TriggerResult, batches: seq<Batch>,
    disk: map<string, SettlementFile>, disk': map<string, SettlementFile>, x: Summary)
    requires Booked(ts, stamp, cutoff, first, r, batches, disk) && x.correspondent !in NamesOf(r.batches)
    requires Summarizes(x, x.correspondent, stamp, Of(ts, {x.correspondent}), |batches|)
    requires x.fileRef in disk' && disk' == disk[x.fileRef := disk'[x.fileRef]]
    requires IsFileOf(disk'[x.fileRef], x.correspondent, stamp, Of(ts, {x.correspondent}))
    ensures Booked(ts, stamp, cutoff, first, WithBatch(r, x), batches + [BatchFor(x, stamp)], disk')
  {
    VisitedAppend(ts, stamp, first, r.batches, batches, disk, x, disk');
    TalliesAppend(r.batches, x);
  }

  lemma {:induction false} InOrderStep(order: seq<CorrespondentId>, bs: seq<Summary>, x: Summary)
    requires InOrderOf(order, bs) && |bs| < |order| && x.correspondent == order[|bs|]
    ensures InOrderOf(order, bs + [x])
  {
  }

  /** Where the loop over the groups stands. */
  ghost predicate Underway(
    reliable: bool, rows0: seq<Row>, rows: seq<Row>, ts: seq<Transfer>, stamp: string, cutoff: int, first: nat,
    order: seq<CorrespondentId>, r: TriggerResult, batches: seq<Batch>, disk: map<string, SettlementFile>)
  {
    && IsDueListing(rows0, cutoff, ts) && OnlyDueLinked(rows0, rows, cutoff)
    && IsIteration(order, Correspondents(ts)) && InOrderOf(order, r.batches)
    && LinksFit(rows0, rows, cutoff, first, r.batches)
    && Booked(ts, stamp, cutoff, first, r, batches, disk)
    && (reliable ==> FitsSoFar(rows0, rows, ts, cutoff, first, order, r.batches))
  }

  /** When nothing has failed, the rows are linked and the totals fit. */
  ghost predicate FitsSoFar(
    rows0: seq<Row>, rows: seq<Row>, ts: seq<Transfer>, cutoff: int, first: nat, order: seq<CorrespondentId>,
    bs: seq<Summary>)
    requires |bs| <= |order|
  {
    RowsFit(rows0, rows, cutoff, first, bs) && forall i :: 0 <= i < |bs| ==> FitsColumns(ts, order[i])
  }

  lemma {:induction false} FitsStep(
    rows0: seq<Row>, rows: seq<Row>, rows': seq<Row>, ts: seq<Transfer>, cutoff: int, first: nat,
    order: seq<CorrespondentId>, bs: seq<Summary>, x: Summary)
    requires |bs| < |order| && x.correspondent == order[|bs|] && x.correspondent !in NamesOf(bs)
    requires IsDueListing(rows0, cutoff, ts) && FitsSoFar(rows0, rows, ts, cutoff, first, order, bs)
    requires LinkedTo(rows, rows', Of(ts, {x.correspondent}), first + |bs|) && FitsColumns(ts, x.correspondent)
    ensures FitsSoFar(rows0, rows', ts, cutoff, first, order, bs + [x])
  {
    RowsFitAppend(rows0, rows, rows', cutoff, ts, first, bs, x);
  }

  /** One more batch. */
  lemma {:induction false} UnderwayStep(
    reliable: bool, rows0: seq<Row>, rows: seq<Row>, rows': seq<Row>, ts: seq<Transfer>, stamp: string, cutoff: int,
    first: nat, order: seq<CorrespondentId>, r: TriggerResult, batches: seq<Batch>,
    disk: map<string, SettlementFile>, disk': map<string, SettlementFile>, x: Summary)
    requires Underway(reliable, rows0, rows, ts, stamp, cutoff, first, order, r, batches, disk)
    requires |r.batches| < |order| && x.correspondent == order[|r.batches|]
    requires Summarizes(x, x.correspondent, stamp, Of(ts, {x.correspondent}), |batches|)
    requires x.fileRef in disk' && disk' == disk[x.fileRef := disk'[x.fileRef]]
    requires IsFileOf(disk'[x.fileRef], x.correspondent, stamp, Of(ts, {x.correspondent}))
    requires OnlyDueLinked(rows0, rows', cutoff)
    requires LinkedAtMost(rows, rows', Of(ts, {x.correspondent}), |batches|)
    requires reliable ==> FitsColumns(ts, x.correspondent)
    requires reliable ==> LinkedTo(rows, rows', Of(ts, {x.correspondent}), |batches|)
    ensures Underway(
      reliable, rows0, rows', ts, stamp, cutoff, first, order, WithBatch(r, x), batches + [BatchFor(x, stamp)], disk')
  {
    NextIsUnnamed(order, r.batches);
    BookedStep(ts, stamp, cutoff, first, r, batches, disk, disk', x);
    InOrderStep(order, r.batches, x);
    LinksFitAppend(rows0, rows, rows', cutoff, ts, first, r.batches, x);
    if reliable {
      FitsStep(rows0, rows, rows', ts, cutoff, first, order, r.batches, x);
    }
  }

  lemma {:induction false} UnderwayStays(
    reliable: bool, rows0: seq<Row>, rows: seq<Row>, rows': seq<Row>, ts: seq<Transfer>, stamp: string, cutoff: int,
    first: nat, order: seq<CorrespondentId>, r: TriggerResult, batches: seq<Batch>, disk: map<string, SettlementFile>,
    c: CorrespondentId, b: BatchId)
    requires Underway(reliable, rows0, rows, ts, stamp, cutoff, first, order, r, batches, disk)
    requires LinkedAtMost(rows, rows', Of(ts, {c}), b)
    ensures OnlyDueLinked(rows0, rows', cutoff)
  {
    LinkingStaysDue(rows0, rows, rows', cutoff, ts, c, b);
  }

  lemma {:induction false} Stopped(
    reliable: bool, rows0: seq<Row>, rows: seq<Row>, ts: seq<Transfer>, stamp: string, cutoff: int, first: nat,
    batches: seq<Batch>, disk: map<string, SettlementFile>, c: CorrespondentId)
    requires OnlyDueLinked(rows0, rows, cutoff)
    requires c in Correspondents(ts) && (reliable ==> !FitsColumns(ts, c))
    ensures Outcome(reliable, rows0, rows, ts, stamp, cutoff, first, None, batches, disk)
  {
  }

  lemma {:induction false} UnderwayBegins(
    reliable: bool, rows0: seq<Row>, rows: seq<Row>, ts: seq<Transfer>, stamp: string, cutoff: int, first: nat,
    order: seq<CorrespondentId>, r: TriggerResult, batches: seq<Batch>, disk: map<string, SettlementFile>)
    requires Underway(reliable, rows0, rows, ts, stamp, cutoff, first, order, r, batches, disk)
    requires |r.batches| < |order|
    ensures var c := order[|r.batches|]; c in Correspondents(ts) && MayLinkAll(rows, Of(ts, {c}))
  {
    NextIsUnnamed(order, r.batches);
    GroupMayBeLinked(rows0, rows, cutoff, ts, order[|r.batches|]);
  }

  lemma {:induction false} AllVisited(
    reliable: bool, rows0: seq<Row>, rows: seq<Row>, ts: seq<Transfer>, stamp: string, cutoff: int, first: nat,
    order: seq<CorrespondentId>, r: TriggerResult, batches: seq<Batch>, disk: map<string, SettlementFile>)
    requires Underway(reliable, rows0, rows, ts, stamp, cutoff, first, order, r, batches, disk)
    requires |r.batches| == |order|
    ensures Outcome(reliable, rows0, rows, ts, stamp, cutoff, first, Some(r), batches, disk)
  {
    NamesAreMembers(order, r.batches);
    assert order[..|r.batches|] == order;
    TalliesAddUp(ts, stamp, first, r.batches, batches);
    AllGroups(ts, NamesOf(r.batches));
    forall c | reliable && c in Correspondents(ts) ensures FitsColumns(ts, c) {
      MembersAre(order, c);
    }
  }

  lemma {:induction false} NothingDue(
    reliable: bool, rows: seq<Row>, stamp: string, cutoff: int, batches: seq<Batch>, disk: map<string, SettlementFile>)
    requires IsDueListing(rows, cutoff, [])
    ensures Outcome(
      reliable, rows, rows, [], stamp, cutoff, |batches|, Some(TriggerResult(0, 0, 0, cutoff, [])), batches, disk)
  {
    forall t: TransferId | t < |rows| ensures !IsDue(rows[t], cutoff) {
      assert !Has([], t);
    }
  }

  lemma {:induction false} NamesAreLong(rows: seq<Row>, cutoff: int, ts: seq<Transfer>, c: CorrespondentId)
    requires IsDueListing(rows, cutoff, ts) && c in Correspondents(ts)
    requires forall t: TransferId :: t < |rows| ==> |rows[t].correspondent| >= 8
    ensures |c| >= 8
  {
    CorrespondentsAre(ts, c);
  }

  // ---- what a completed trigger means ----

  /** Each listed transfer is in exactly one batch; batches keep the order of submission; and counts and
      amounts of the batches add up to the listing. */
  lemma {:induction false} TriggerPartitions(
    ts: seq<Transfer>, stamp: string, cutoff: int, first: nat, r: TriggerResult, batches: seq<Batch>,
    disk: map<string, SettlementFile>)
    requires Complete(ts, stamp, cutoff, first, r, batches, disk)
    ensures forall t :: t in ts ==>
      exists i :: 0 <= i < |r.batches| && t in Of(ts, {r.batches[i].correspondent})
    ensures forall t, i, j :: 0 <= i < j < |r.batches| ==>
      !(t in Of(ts, {r.batches[i].correspondent}) && t in Of(ts, {r.batches[j].correspondent}))
    ensures forall i :: 0 <= i < |r.batches| ==>
      Of(ts, {r.batches[i].correspondent}) != [] && IsSubsequence(Of(ts, {r.batches[i].correspondent}), ts)
    ensures CountAll(r.batches) == |ts| == r.totalChecks && AmountAll(r.batches) == Sum(ts) == r.totalAmount
  {
    var bs := r.batches;
    TalliesAddUp(ts, stamp, first, bs, batches);
    AllGroups(ts, NamesOf(bs));
    forall t | t in ts ensures exists i :: 0 <= i < |bs| && t in Of(ts, {bs[i].correspondent}) {
      InSomeBatch(ts, bs, t);
    }
    forall t, i, j | 0 <= i < j < |bs|
      ensures !(t in Of(ts, {bs[i].correspondent}) && t in Of(ts, {bs[j].correspondent}))
    {
      ApartMeans(bs, i, j);
      GroupMembers(ts, {bs[i].correspondent}, t);
      GroupMembers(ts, {bs[j].correspondent}, t);
    }
    forall i | 0 <= i < |bs|
      ensures Of(ts, {bs[i].correspondent}) != [] && IsSubsequence(Of(ts, {bs[i].correspondent}), ts)
    {
      NamesAre(bs, bs[i].correspondent);
      GroupIsInhabited(ts, bs[i].correspondent);
      GroupKeepsOrder(ts, {bs[i].correspondent});
    }
  }

  /** The checks of a settlement file are in the order in which the deposits were made. */
  lemma {:induction false} ChecksAreInOrder(
    rows: seq<Row>, cutoff: int, ts: seq<Transfer>, c: CorrespondentId, stamp: string, file: SettlementFile,
    i: nat, j: nat)
    requires IsDueListing(rows, cutoff, ts) && IsFileOf(file, c, stamp, Of(ts, {c})) && i < j < |file.checks|
    ensures file.checks[i].transfer < |rows| && file.checks[j].transfer < |rows|
    ensures rows[file.checks[i].transfer].submittedAt <= rows[file.checks[j].transfer].submittedAt
  {
    var g := Of(ts, {c});
    GroupsAreSorted(ts, {c});
    GroupMembers(ts, {c}, g[i]);
    GroupMembers(ts, {c}, g[j]);
    assert IsCheckOf(file.checks[i], g[i]) && IsCheckOf(file.checks[j], g[j]);
  }

  lemma {:induction false} InSomeBatch(ts: seq<Transfer>, bs: seq<Summary>, t: Transfer)
    requires t in ts && NamesOf(bs) == Correspondents(ts)
    ensures exists i :: 0 <= i < |bs| && t in Of(ts, {bs[i].correspondent})
  {
    var c := t.row.correspondent;
    CorrespondentsAre(ts, c);
    NamesAre(bs, c);
    var i :| 0 <= i < |bs| && bs[i].correspondent == c;
    GroupMembers(ts, {c}, t);
  }

  /** A trigger of one day leaves the files of all other days as they were. */
  lemma {:induction false} FilesOfOtherDaysStay(
    disk: map<string, SettlementFile>, disk': map<string, SettlementFile>, day: Date, c: CorrespondentId, other: Date)
    requires IsDate(day) && IsDate(other) && other != day && |c| >= 8
    requires KeepsOtherDays(disk, disk', Stamp(day)) && FileName(c, Stamp(other)) in disk
    ensures FileName(c, Stamp(other)) in disk' && disk'[FileName(c, Stamp(other))] == disk[FileName(c, Stamp(other))]
  {
    NameReadsBack(c, Stamp(other));
    if Stamp(other) == Stamp(day) {
      StampsIdentify(other, day);
    }
  }

  ghost predicate PrefixesDiffer(bs: seq<Summary>)
    requires forall i :: 0 <= i < |bs| ==> |bs[i].correspondent| >= 8
  {
    forall i, j :: 0 <= i < j < |bs| ==> bs[i].correspondent[..8] != bs[j].correspondent[..8]
  }

  /** Every batch's file reference leads to its own file exactly when the correspondents differ in their
      first eight characters. */
  lemma {:induction false} FilesReadBackExactly(
    ts: seq<Transfer>, stamp: string, cutoff: int, first: nat, r: TriggerResult, batches: seq<Batch>,
    disk: map<string, SettlementFile>)
    requires Complete(ts, stamp, cutoff, first, r, batches, disk)
    ensures forall i :: 0 <= i < |r.batches| ==> |r.batches[i].correspondent| >= 8
    ensures (forall i: nat :: i < |r.batches| ==> ReadsBack(disk, ts, stamp, r.batches, i))
      <==> PrefixesDiffer(r.batches)
  {
    var bs := r.batches;
    assert forall i :: 0 <= i < |bs| ==>
      Summarizes(bs[i], bs[i].correspondent, stamp, Of(ts, {bs[i].correspondent}), first + i);
    forall i, j | 0 <= i < j < |bs|
      ensures bs[i].fileRef == bs[j].fileRef <==> bs[i].correspondent[..8] == bs[j].correspondent[..8]
      ensures bs[i].correspondent != bs[j].correspondent
    {
      NamesShowEightCharacters(bs[i].correspondent, bs[j].correspondent, stamp);
      ApartMeans(bs, i, j);
    }
    if PrefixesDiffer(bs) {
      forall i: nat | i < |bs| ensures ReadsBack(disk, ts, stamp, bs, i) {
        assert KeepsItsFile(bs, i);
      }
    } else {
      var i, j :| 0 <= i < j < |bs| && bs[i].correspondent[..8] == bs[j].correspondent[..8];
      assert bs[i].fileRef == bs[j].fileRef;
      assert !(ReadsBack(disk, ts, stamp, bs, i) && ReadsBack(disk, ts, stamp, bs, j));
    }
  }

  /** On a business day a trigger lists exactly the posted transfers that belong to that day or an
      earlier one. */
  lemma {:induction false} TriggerListsWhatIsDue(z: Zone, day: Date, rows: seq<Row>, ts: seq<Transfer>, t: TransferId)
    requires IsZone(z) && IsDate(day) && IsBusinessDay(day)
    requires IsDueListing(rows, CutoffForDate(z, day), ts) && t < |rows|
    ensures Has(ts, t) <==>
      rows[t].state == FundsPosted && DayNumber(BatchCutoffDate(z, rows[t].submittedAt)) <= DayNumber(day)
  {
    DueByBusinessDay(z, day, rows[t].submittedAt);
    ListedAreDue(rows, CutoffForDate(z, day), ts, t);
  }

  lemma {:induction false} ListedAreDue(rows: seq<Row>, cutoff: int, ts: seq<Transfer>, t: TransferId)
    requires IsDueListing(rows, cutoff, ts) && t < |rows|
    ensures Has(ts, t) <==> IsDue(rows[t], cutoff)
  {
  }

  class Engine {
    const db: Database
    var disk: map<string, SettlementFile>

    constructor (db: Database)
      ensures this.db == db && disk == map[]
    {
      this.db, disk := db, map[];
    }

    /** One correspondent: the file, the batch, the links. */
    method SettleGroup(c: CorrespondentId, stamp: string, g: seq<Transfer>)
      returns (summary: Option<Summary>, ghost steps: seq<Action>)
      requires |c| >= 8
      requires MayLinkAll(db.rows, g)
      modifies db`rows, db`batches, `disk
      ensures Follows(old(db.Snapshot()), steps, db.Snapshot())
      ensures old(db.batches) <= db.batches && KeepsOtherDays(old(disk), disk, stamp)
      ensures LinkedAtMost(old(db.rows), db.rows, g, |old(db.batches)|)
      ensures db.reliable ==> (summary.Some? <==> FitsBatch(|g|, Sum(g)))
      ensures summary.Some? ==>
        && Summarizes(summary.value, c, stamp, g, |old(db.batches)|)
        && db.batches == old(db.batches) + [BatchFor(summary.value, stamp)]
        && FileName(c, stamp) in disk
        && disk == old(disk)[FileName(c, stamp) := disk[FileName(c, stamp)]]
        && IsFileOf(disk[FileName(c, stamp)], c, stamp, g)
        && (db.reliable ==> LinkedTo(old(db.rows), db.rows, g, |old(db.batches)|))
    {
      steps := [];
      var file := BuildSettlementFile(c, stamp, g);
      var fault := db.Meet();
      if fault != NoFault {
        return None, steps;
      }
      var name := FileName(c, stamp);
      OneFileWritten(disk, c, stamp, file);
      disk := disk[name := file];
      var total := TotalOf(g);
      ghost var batches := db.batches;
      var b := db.CreateBatch(c, stamp, name, |g|, total);
      if db.batches != batches {
        steps := [OpenBatch(Batch(c, stamp, Pending, name, |g|, total))];
        ReplayOne(old(db.Snapshot()), [], steps[0]);
      }
      if b == None {
        return None, steps;
      }
      ghost var links := LinkAll(db, g, b.value);
      FollowsOn(old(db.Snapshot()), steps, links);
      steps := steps + links;
      summary := Some(Summary(b.value, c, |g|, total, name));
    }

    /** Trigger: everything due at the cutoff of the day, whatever order the map is visited in. */
    method Trigger(z: Zone, now: int)
      returns (result: Option<TriggerResult>, ghost ts: seq<Transfer>, ghost steps: seq<Action>)
      requires forall t: TransferId :: t < |db.rows| ==> |db.rows[t].correspondent| >= 8
      modifies db`rows, db`batches, `disk
      ensures Follows(old(db.Snapshot()), steps, db.Snapshot())
      ensures old(db.batches) <= db.batches && KeepsOtherDays(old(disk), disk, Stamp(LocalDate(z, now)))
      ensures var day := LocalDate(z, now); var cutoff := CutoffForDate(z, day);
        && (db.reliable || result.Some? ==> IsDueListing(old(db.rows), cutoff, ts))
        && Outcome(
             db.reliable, old(db.rows), db.rows, ts, Stamp(day), cutoff, |old(db.batches)|, result, db.batches, disk)
    {
      var day := LocalDate(z, now);
      result, ts, steps := SettleDue(CutoffForDate(z, day), Stamp(day));
    }

    method SettleDue(cutoff: int, stamp: string)
      returns (result: Option<TriggerResult>, ghost ts: seq<Transfer>, ghost steps: seq<Action>)
      requires forall t: TransferId :: t < |db.rows| ==> |db.rows[t].correspondent| >= 8
      modifies db`rows, db`batches, `disk
      ensures Follows(old(db.Snapshot()), steps, db.Snapshot())
      ensures old(db.batches) <= db.batches && KeepsOtherDays(old(disk), disk, stamp)
      ensures db.reliable || result.Some? ==> IsDueListing(old(db.rows), cutoff, ts)
      ensures Outcome(
        db.reliable, old(db.rows), db.rows, ts, stamp, cutoff, |old(db.batches)|, result, db.batches, disk)
    {
      steps, ts := [], [];
      var listing := db.ListFundsPostedBefore(cutoff);
      if listing == None {
        return None, ts, steps;
      }
      var transfers := listing.value;
      ts := transfers;
      if |transfers| == 0 {
        NothingDue(db.reliable, db.rows, stamp, cutoff, db.batches, disk);
        return Some(TriggerResult(0, 0, 0, cutoff, [])), ts, steps;
      }
      var grouped := GroupByCorrespondent(transfers);
      var order := IterationOrder(grouped.Keys);
      forall i | 0 <= i < |order|
        ensures |order[i]| >= 8 && order[i] in grouped && grouped[order[i]] == Of(ts, {order[i]})
      {
        MembersAre(order, order[i]);
        NamesAreLong(db.rows, cutoff, ts, order[i]);
      }
      var fault := db.Meet();
      if fault != NoFault {
        return None, ts, steps;
      }
      result, steps := SettleGroups(grouped, transfers, order, stamp, cutoff);
    }

    /** One turn of the loop over the groups. */
    method Visit(
      order: seq<CorrespondentId>, g: seq<Transfer>, ghost ts: seq<Transfer>, stamp: string, cutoff: int,
      ghost rows0: seq<Row>, ghost first: nat, r: TriggerResult, ghost origin: Db, ghost before: seq<Action>)
      returns (result: Option<TriggerResult>, ghost steps: seq<Action>)
      requires Follows(origin, before, db.Snapshot())
      requires Underway(db.reliable, rows0, db.rows, ts, stamp, cutoff, first, order, r, db.batches, disk)
      requires |r.batches| < |order| && |order[|r.batches|]| >= 8 && g == Of(ts, {order[|r.batches|]})
      modifies db`rows, db`batches, `disk
      ensures Follows(origin, steps, db.Snapshot()) && old(db.batches) <= db.batches
      ensures KeepsOtherDays(old(disk), disk, stamp)
      ensures result == None ==>
        Outcome(db.reliable, rows0, db.rows, ts, stamp, cutoff, first, None, db.batches, disk)
      ensures result.Some? ==>
        && |result.value.batches| == |r.batches| + 1
        && Underway(db.reliable, rows0, db.rows, ts, stamp, cutoff, first, order, result.value, db.batches, disk)
    {
      ghost var rows, batches, disk0 := db.rows, db.batches, disk;
      var c := order[|r.batches|];
      UnderwayBegins(db.reliable, rows0, rows, ts, stamp, cutoff, first, order, r, batches, disk);
      var summary;
      summary, steps := SettleGroup(c, stamp, g);
      FollowsOn(origin, before, steps);
      steps := before + steps;
      UnderwayStays(
        db.reliable, rows0, rows, db.rows, ts, stamp, cutoff, first, order, r, batches, disk0, c, |batches|);
      if summary == None {
        Stopped(db.reliable, rows0, db.rows, ts, stamp, cutoff, first, db.batches, disk, c);
        return None, steps;
      }
      UnderwayStep(
        db.reliable, rows0, rows, db.rows, ts, stamp, cutoff, first, order, r, batches, disk0, disk, summary.value);
      result := Some(WithBatch(r, summary.value));
    }

    /** The loop over the groups. */
    method SettleGroups(
      grouped: map<CorrespondentId, seq<Transfer>>, ghost ts: seq<Transfer>, order: seq<CorrespondentId>,
      stamp: string, cutoff: int)
      returns (result: Option<TriggerResult>, ghost steps: seq<Action>)
      requires IsIteration(order, Correspondents(ts)) && IsDueListing(db.rows, cutoff, ts)
      requires forall i :: 0 <= i < |order| ==>
        |order[i]| >= 8 && order[i] in grouped && grouped[order[i]] == Of(ts, {order[i]})
      modifies db`rows, db`batches, `disk
      ensures Follows(old(db.Snapshot()), steps, db.Snapshot())
      ensures old(db.batches) <= db.batches && KeepsOtherDays(old(disk), disk, stamp)
      ensures Outcome(
        db.reliable, old(db.rows), db.rows, ts, stamp, cutoff, |old(db.batches)|, result, db.batches, disk)
    {
      steps := [];
      var r := TriggerResult(0, 0, 0, cutoff, []);
      ghost var first, rows0 := |db.batches|, db.rows;
      while |r.batches| < |order|
        invariant Follows(old(db.Snapshot()), steps, db.Snapshot()) && old(db.batches) <= db.batches
        invariant KeepsOtherDays(old(disk), disk, stamp)
        invariant Underway(db.reliable, rows0, db.rows, ts, stamp, cutoff, first, order, r, db.batches, disk)
      {
        var c := order[|r.batches|];
        result, steps := Visit(order, grouped[c], ts, stamp, cutoff, rows0, first, r, old(db.Snapshot()), steps);
        if result == None {
          return;
        }
        r := result.value;
      }
      AllVisited(db.reliable, rows0, db.rows, ts, stamp, cutoff, first, order, r, db.batches, disk);
      result := Some(r);
    }
  }
}
