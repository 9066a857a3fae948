/** Two correspondents that agree in eight characters: what becomes of their settlement file. */
module SharedNames {
  import opened States
  import opened Tables
  import opened Operations
  import opened Handlers
  import opened Listings
  import opened Grouping
  import opened Cutoff
  import opened Store
  import opened System
  import opened Settlement
  import opened Stamps
  import opened Submission
  import opened SettlementHandler

  const EAST := "1f0c77e2-east"
  const WEST := "1f0c77e2-west"

  function FundedRow(c: CorrespondentId, account: AccountId, at: int): Row {
    Row(account, 0, c, 100, at, FundsPosted, None, None, Unspecified, None, None, None)
  }

  /** One funded deposit of each, one after the other. */
  function TwoRows(at: int): seq<Row> {
    [FundedRow(EAST, 1, at), FundedRow(WEST, 2, at + 1)]
  }

  function TwoListed(at: int): seq<Transfer> {
    [Transfer(0, TwoRows(at)[0]), Transfer(1, TwoRows(at)[1])]
  }

  lemma {:induction false} NamesOfTheTwo()
    ensures |EAST| == |WEST| == 13 && EAST[..8] == WEST[..8] && EAST != WEST
  {
    assert EAST[9] == 'e' && WEST[9] == 'w';
  }

  lemma {:induction false} ListingOfTheTwo(at: int, cutoff: int)
    requires at + 1 < cutoff
    ensures IsDueListing(TwoRows(at), cutoff, TwoListed(at))
    ensures Correspondents(TwoListed(at)) == {EAST, WEST}
  {
    var ts := TwoListed(at);
    assert ts[0].id == 0 && ts[1].id == 1;
    assert ts[..1] == [ts[0]] && [ts[0]][..0] == [];
    assert Correspondents([ts[0]]) == {EAST};
  }

  lemma {:induction false} GroupsOfTheTwo(at: int)
    ensures Of(TwoListed(at), {EAST}) == [TwoListed(at)[0]] && Of(TwoListed(at), {WEST}) == [TwoListed(at)[1]]
    ensures Sum([TwoListed(at)[0]]) == 100 && Sum([TwoListed(at)[1]]) == 100 && Sum(TwoListed(at)) == 200
  {
    var ts := TwoListed(at);
    NamesOfTheTwo();
    assert ts[..1] == [ts[0]] && [ts[0]][..0] == [] && [ts[1]][..0] == [];
    assert Of([ts[0]], {EAST}) == [ts[0]] && Of([ts[0]], {WEST}) == [];
  }

  function SummaryOf(c: CorrespondentId, b: BatchId, stamp: string): Summary
    requires |c| >= 8
  {
    Summary(b, c, 1, 100, FileName(c, stamp))
  }

  function FileFor(t: Transfer, stamp: string): SettlementFile {
    SettlementFile(t.row.correspondent, stamp, [Check(t.id, Micr("", "", ""), t.row.amount)], 100, 1)
  }

  /** What a trigger that visits the two in this order leaves behind and reports. */
  function ReportOfTheTwo(at: int, cutoff: int, stamp: string): (TriggerResult, seq<Batch>, map<string, SettlementFile>)
  {
    NamesOfTheTwo();
    var x, y := SummaryOf(EAST, 0, stamp), SummaryOf(WEST, 1, stamp);
    (TriggerResult(2, 2, 200, cutoff, [x, y]), [BatchFor(x, stamp), BatchFor(y, stamp)],
     map[FileName(EAST, stamp) := FileFor(TwoListed(at)[1], stamp)])
  }

  lemma {:induction false} NamesOfBoth(x: Summary, y: Summary)
    requires x.correspondent != y.correspondent
    ensures NamesOf([x, y]) == {x.correspondent, y.correspondent} && Apart([x, y])
  {
    assert [x, y][..1] == [x] && [x][..0] == [];
    assert NamesOf([x]) == {x.correspondent} && Apart([x]);
  }

  /** Two batches with one file reference: the file is that of the later. */
  lemma {:induction false} LaterFileStays(
    ts: seq<Transfer>, stamp: string, x: Summary, y: Summary, file: SettlementFile)
    requires x.correspondent != y.correspondent && x.fileRef == y.fileRef
    requires Summarizes(x, x.correspondent, stamp, Of(ts, {x.correspondent}), 0)
    requires Summarizes(y, y.correspondent, stamp, Of(ts, {y.correspondent}), 1)
    requires IsFileOf(file, y.correspondent, stamp, Of(ts, {y.correspondent}))
    ensures var disk := map[y.fileRef := file];
      && Visited(ts, stamp, 0, [x, y], [BatchFor(x, stamp), BatchFor(y, stamp)], disk)
      && !ReadsBack(disk, ts, stamp, [x, y], 0) && ReadsBack(disk, ts, stamp, [x, y], 1)
  {
    var bs := [x, y];
    NamesOfBoth(x, y);
    assert bs[0] == x && bs[1] == y;
    assert !KeepsItsFile(bs, 0);
  }

  /** A complete outcome of a trigger whose first batch does not read back its own file: both batches refer to
      the file of the second. */
  lemma {:induction false} SharedFileIsOverwritten(at: int, cutoff: int, stamp: string)
    requires at + 1 < cutoff
    ensures IsDueListing(TwoRows(at), cutoff, TwoListed(at))
    ensures var (r, batches, disk) := ReportOfTheTwo(at, cutoff, stamp);
      && Complete(TwoListed(at), stamp, cutoff, 0, r, batches, disk)
      && !ReadsBack(disk, TwoListed(at), stamp, r.batches, 0) && ReadsBack(disk, TwoListed(at), stamp, r.batches, 1)
  {
    NamesOfTheTwo();
    var ts, x, y := TwoListed(at), SummaryOf(EAST, 0, stamp), SummaryOf(WEST, 1, stamp);
    ListingOfTheTwo(at, cutoff);
    GroupsOfTheTwo(at);
    NamesShowEightCharacters(EAST, WEST, stamp);
    LaterFileStays(ts, stamp, x, y, FileFor(ts[1], stamp));
    NamesOfBoth(x, y);
  }

  lemma {:induction false} TwiceListed(ts: seq<Transfer>)
    requires |ts| > 2 && forall k :: 0 <= k < |ts| ==> ts[k].id < 2
    ensures exists i, j :: 0 <= i < j < |ts| && ts[i].id == ts[j].id
  {
    if ts[0].id == ts[1].id {
    } else if ts[0].id == ts[2].id {
    } else {
      assert ts[1].id == ts[2].id;
    }
  }

  /** There is no other listing of the two. */
  lemma {:induction false} OnlyListing(at: int, cutoff: int, ts: seq<Transfer>)
    requires at + 1 < cutoff && IsDueListing(TwoRows(at), cutoff, ts)
    ensures ts == TwoListed(at)
  {
    var rows := TwoRows(at);
    assert IsDue(rows[0], cutoff) && IsDue(rows[1], cutoff);
    assert Has(ts, 0) && Has(ts, 1);
    var i :| 0 <= i < |ts| && ts[i].id == 0;
    var j :| 0 <= j < |ts| && ts[j].id == 1;
    if |ts| > 2 {
      TwiceListed(ts);
    }
    assert i == 0 && j == 1 && |ts| == 2;
  }

  lemma {:induction false} TheTwoFit(at: int, cutoff: int)
    requires at + 1 < cutoff
    ensures AllFit(TwoListed(at))
  {
    ListingOfTheTwo(at, cutoff);
    GroupsOfTheTwo(at);
  }

  /** Whatever the order of the visits, one of the two is followed by the other. */
  lemma {:induction false} TheTwoAreBatched(bs: seq<Summary>) returns (i: nat, j: nat)
    requires NamesOf(bs) == {EAST, WEST}
    ensures i < |bs| && j < |bs| && i != j && bs[i].correspondent == EAST && bs[j].correspondent == WEST
    ensures bs[i].correspondent[..8] == bs[j].correspondent[..8]
  {
    NamesOfTheTwo();
    NamesAre(bs, EAST);
    NamesAre(bs, WEST);
    i :| 0 <= i < |bs| && bs[i].correspondent == EAST;
    j :| 0 <= j < |bs| && bs[j].correspondent == WEST;
  }

  /** The bank of this run acknowledges everything. */
  function Always(at: int): nat -> Option<int> {
    n => Some(at)
  }

  lemma {:induction false} TheTwoAreCompleted(
    at: int, cutoff: int, rows: seq<Row>, bs: seq<Summary>, bank: nat -> Option<int>)
    requires at + 1 < cutoff && RowsSettled(TwoRows(at), rows, cutoff, 0, bs, bank) && NamesOf(bs) == {EAST, WEST}
    requires forall k: nat :: bank(k).Some?
    requires forall k :: 0 <= k < |bs| ==> |bs[k].correspondent| >= 8
    ensures |rows| == 2 && rows[0].state == Completed && rows[1].state == Completed && !AcknowledgedDiffer(bs, bank)
  {
    var i, j := TheTwoAreBatched(bs);
    var rows0 := TwoRows(at);
    assert IsDue(rows0[0], cutoff) && rows0[0].correspondent == bs[i].correspondent;
    assert IsDue(rows0[1], cutoff) && rows0[1].correspondent == bs[j].correspondent;
    if i < j {
      assert bank(i).Some?;
    } else {
      assert bank(j).Some?;
    }
  }

  /** The handler on a database with the two funded deposits, without any fault: both end up Completed, and
      the bank has never been sent one of them. */
  method CompletedWithoutBeingSent(z: Zone, now: int, at: int)
    returns (rows: seq<Row>, disk: map<string, SettlementFile>, ghost bs: seq<Summary>)
    requires at + 1 < CutoffForDate(z, LocalDate(z, now + DAY))
    ensures |rows| == 2 && rows[0].state == Completed && rows[1].state == Completed
    ensures Filed(disk, TwoListed(at), Stamp(LocalDate(z, now + DAY)), bs)
    ensures !CompletedWereSent(TwoRows(at), rows, disk, 0, bs)
  {
    var db0 := Db(TwoRows(at), [], [], [], map[], map[]);
    var db := new Database(db0, true, Acknowledge(ALoad, 0, 0, [], 0, {}));
    var engine := new Engine(db);
    bs := SettleTheTwo(engine, z, now, at, System(db0, [], [], [], []));
    return db.rows, engine.disk, bs;
  }

  method SettleTheTwo(engine: Engine, z: Zone, now: int, at: int, ghost s: System) returns (ghost bs: seq<Summary>)
    requires at + 1 < CutoffForDate(z, LocalDate(z, now + DAY))
    requires engine.db.reliable && engine.db.rows == TwoRows(at) && engine.db.batches == []
    requires Reached(s, [], engine.db.Snapshot())
    modifies engine`disk, engine.db`rows, engine.db`events, engine.db`batches, engine.db`worker, engine.db`start,
      engine.db`origin, engine.db`choices
    ensures var rows := engine.db.rows;
      && |rows| == 2 && rows[0].state == Completed && rows[1].state == Completed
      && Filed(engine.disk, TwoListed(at), Stamp(LocalDate(z, now + DAY)), bs)
      && !CompletedWereSent(TwoRows(at), rows, engine.disk, 0, bs)
  {
    ghost var cutoff := CutoffForDate(z, LocalDate(z, now + DAY));
    NamesOfTheTwo();
    ListingOfTheTwo(at, cutoff);
    TheTwoFit(at, cutoff);
    var result;
    ghost var ts, after;
    result, ts, bs, after := TriggerSettlement(engine, z, now, Always(now), n => n, s, []);
    OnlyListing(at, cutoff, ts);
    TheTwoAreCompleted(at, cutoff, engine.db.rows, bs, Always(now));
  }
}
