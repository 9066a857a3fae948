/** The ordered queries of settlement: transfers chosen by a condition, in order of submission
    (internal/store/settlement.go:29-61, 178-194).  Rows submitted at the same instant may come in any
    order; the methods promise no more than the query does. */
module Listings {
  import opened States
  import opened Tables
  import opened Operations

  /** A row as a query returned it. */
  datatype Transfer = Transfer(id: TransferId, row: Row)

  /** WHERE state = 'FundsPosted' AND submitted_at < cutoff. */
  predicate IsDue(row: Row, cutoff: int) {
    row.state == FundsPosted && row.submittedAt < cutoff
  }

  /** The transfer is among those listed. */
  predicate Has(ts: seq<Transfer>, t: TransferId) {
    exists k :: 0 <= k < |ts| && ts[k].id == t
  }

  /** A result of ListFundsPostedBefore. */
  ghost predicate IsDueListing(rows: seq<Row>, cutoff: int, ts: seq<Transfer>) {
    && (forall i :: 0 <= i < |ts| ==> ts[i].id < |rows| && rows[ts[i].id] == ts[i].row && IsDue(ts[i].row, cutoff))
    && (forall t: TransferId {:trigger Has(ts, t)} :: t < |rows| && IsDue(rows[t], cutoff) ==> Has(ts, t))
    && (forall i, j :: 0 <= i < j < |ts| ==> ts[i].id != ts[j].id)
    && (forall i, j :: 0 <= i < j < |ts| ==> ts[i].row.submittedAt <= ts[j].row.submittedAt)
  }

  /** The chosen ones among the first |wanted| rows, in order. */
  ghost predicate Lists(rows: seq<Row>, wanted: seq<bool>, ids: seq<TransferId>)
    requires |wanted| <= |rows|
  {
    && (forall i :: 0 <= i < |ids| ==> ids[i] < |wanted| && wanted[ids[i]])
    && (forall t: TransferId {:trigger t in ids} :: t < |wanted| && wanted[t] ==> t in ids)
    && (forall i, j :: 0 <= i < j < |ids| ==> ids[i] != ids[j])
    && (forall i, j :: 0 <= i < j < |ids| ==> rows[ids[i]].submittedAt <= rows[ids[j]].submittedAt)
  }

  function Insert(ids: seq<TransferId>, k: nat, t: TransferId): (js: seq<TransferId>)
    requires k <= |ids|
    ensures |js| == |ids| + 1
    ensures forall i :: 0 <= i < |js| ==> js[i] == if i < k then ids[i] else if i == k then t else ids[i - 1]
  {
    ids[..k] + [t] + ids[k..]
  }

  lemma {:induction false} InsertMembers(ids: seq<TransferId>, k: nat, t: TransferId, u: TransferId)
    requires k <= |ids|
    ensures u in Insert(ids, k, t) <==> u in ids || u == t
  {
    var js := Insert(ids, k, t);
    assert js[k] == t;
    if u in ids {
      var i :| 0 <= i < |ids| && ids[i] == u;
      assert js[if i < k then i else i + 1] == u;
    }
  }

  lemma {:induction false} InsertKeepsOrder(rows: seq<Row>, ids: seq<TransferId>, k: nat, t: TransferId, i: nat, j: nat)
    requires k <= |ids| && t < |rows| && forall l :: 0 <= l < |ids| ==> ids[l] < t
    requires forall l, m :: 0 <= l < m < |ids| ==>
      ids[l] != ids[m] && rows[ids[l]].submittedAt <= rows[ids[m]].submittedAt
    requires forall l :: 0 <= l < k ==> rows[ids[l]].submittedAt <= rows[t].submittedAt
    requires forall l :: k <= l < |ids| ==> rows[t].submittedAt <= rows[ids[l]].submittedAt
    requires i < j <= |ids|
    ensures var js := Insert(ids, k, t); js[i] != js[j] && rows[js[i]].submittedAt <= rows[js[j]].submittedAt
  {
  }

  lemma {:induction false} InsertionLists(rows: seq<Row>, wanted: seq<bool>, ids: seq<TransferId>, k: nat)
    requires |wanted| < |rows| && Lists(rows, wanted, ids) && k <= |ids|
    requires forall i :: 0 <= i < k ==> rows[ids[i]].submittedAt <= rows[|wanted|].submittedAt
    requires forall i :: k <= i < |ids| ==> rows[|wanted|].submittedAt <= rows[ids[i]].submittedAt
    ensures Lists(rows, wanted + [true], Insert(ids, k, |wanted|))
  {
    var t := |wanted|;
    var js := Insert(ids, k, t);
    forall u: TransferId | u < t + 1 && (wanted + [true])[u] ensures u in js {
      InsertMembers(ids, k, t, u);
      assert u < t ==> u in ids;
    }
    forall i | 0 <= i < |js| ensures js[i] < t + 1 && (wanted + [true])[js[i]] {
    }
    forall i, j | 0 <= i < j < |js| ensures js[i] != js[j] && rows[js[i]].submittedAt <= rows[js[j]].submittedAt {
      InsertKeepsOrder(rows, ids, k, t, i, j);
    }
  }

  method InOrder(rows: seq<Row>, wanted: seq<bool>) returns (ids: seq<TransferId>)
    requires |wanted| == |rows|
    ensures Lists(rows, wanted, ids)
  {
    ids := [];
    for t := 0 to |rows|
      invariant Lists(rows, wanted[..t], ids)
    {
      assert wanted[..t + 1] == wanted[..t] + [wanted[t]];
      if wanted[t] {
        var k := |ids|;
        while k > 0 && rows[t].submittedAt < rows[ids[k - 1]].submittedAt
          invariant 0 <= k <= |ids|
          invariant forall i :: k <= i < |ids| ==> rows[t].submittedAt <= rows[ids[i]].submittedAt
        {
          k := k - 1;
        }
        InsertionLists(rows, wanted[..t], ids, k);
        ids := Insert(ids, k, t);
      }
    }
    assert wanted[..|rows|] == wanted;
  }

  method ListDue(rows: seq<Row>, cutoff: int) returns (ts: seq<Transfer>)
    ensures IsDueListing(rows, cutoff, ts)
  {
    var wanted := seq(|rows|, i requires 0 <= i < |rows| => IsDue(rows[i], cutoff));
    var ids := InOrder(rows, wanted);
    ts := seq(|ids|, i requires 0 <= i < |ids| && ids[i] < |rows| => Transfer(ids[i], rows[ids[i]]));
    forall t: TransferId | t < |rows| && IsDue(rows[t], cutoff) ensures Has(ts, t) {
      assert t in ids;
      var i :| 0 <= i < |ids| && ids[i] == t;
      assert ts[i].id == t;
    }
  }

  method ListLinked(rows: seq<Row>, b: BatchId) returns (ids: seq<TransferId>)
    ensures IsLinkedListing(rows, b, ids)
  {
    var wanted := seq(|rows|, i requires 0 <= i < |rows| => rows[i].batch == Some(b));
    ids := InOrder(rows, wanted);
  }

  // ---- a query has one result, but for rows submitted at the same instant ----

  function IdsOf(ids: seq<TransferId>): set<TransferId> {
    set t | t in ids
  }

  lemma {:induction false} DistinctCount(ids: seq<TransferId>)
    requires forall i, j :: 0 <= i < j < |ids| ==> ids[i] != ids[j]
    ensures |IdsOf(ids)| == |ids|
  {
    if ids != [] {
      var init, last := ids[..|ids| - 1], ids[|ids| - 1];
      DistinctCount(init);
      assert IdsOf(ids) == IdsOf(init) + {last};
    }
  }

  lemma {:induction false} SubsetCount(a: set<TransferId>, b: set<TransferId>)
    requires a <= b
    ensures |a| <= |b|
  {
    assert b == a + (b - a);
  }

  /** More rows cannot come before the ith of a listing than before the ith of another. */
  lemma {:induction false} NotLater(rows: seq<Row>, wanted: seq<bool>, x: seq<TransferId>, y: seq<TransferId>, i: nat)
    requires |wanted| == |rows| && Lists(rows, wanted, x) && Lists(rows, wanted, y) && i < |x| && i < |y|
    ensures rows[x[i]].submittedAt <= rows[y[i]].submittedAt
  {
    if rows[x[i]].submittedAt > rows[y[i]].submittedAt {
      forall t | t in y[..i + 1] ensures t in x[..i] {
        var k :| 0 <= k < i + 1 && y[k] == t;
        assert t in x;
        var l :| 0 <= l < |x| && x[l] == t;
        assert rows[y[k]].submittedAt <= rows[y[i]].submittedAt;
        assert l < i;
        assert x[..i][l] == t;
      }
      DistinctCount(y[..i + 1]);
      DistinctCount(x[..i]);
      SubsetCount(IdsOf(y[..i + 1]), IdsOf(x[..i]));
    }
  }

  lemma {:induction false} ListsAgree(rows: seq<Row>, wanted: seq<bool>, x: seq<TransferId>, y: seq<TransferId>)
    requires |wanted| == |rows| && Lists(rows, wanted, x) && Lists(rows, wanted, y)
    ensures |x| == |y| && IdsOf(x) == IdsOf(y)
    ensures forall i :: 0 <= i < |x| ==> rows[x[i]].submittedAt == rows[y[i]].submittedAt
  {
    DistinctCount(x);
    DistinctCount(y);
    assert IdsOf(x) == IdsOf(y);
    forall i | 0 <= i < |x| ensures rows[x[i]].submittedAt == rows[y[i]].submittedAt {
      NotLater(rows, wanted, x, y, i);
      NotLater(rows, wanted, y, x, i);
    }
  }

  /** Two results of the linked query have the same transfers, submitted at the same times in turn. */
  lemma {:induction false} LinkedListingsAgree(rows: seq<Row>, b: BatchId, x: seq<TransferId>, y: seq<TransferId>)
    requires IsLinkedListing(rows, b, x) && IsLinkedListing(rows, b, y)
    ensures |x| == |y| && IdsOf(x) == IdsOf(y)
    ensures forall i :: 0 <= i < |x| ==> rows[x[i]].submittedAt == rows[y[i]].submittedAt
  {
    var wanted := seq(|rows|, i requires 0 <= i < |rows| => rows[i].batch == Some(b));
    ListsAgree(rows, wanted, x, y);
  }

  /** The transfers of a listing. */
  function Ids(ts: seq<Transfer>): seq<TransferId> {
    seq(|ts|, i requires 0 <= i < |ts| => ts[i].id)
  }

  lemma {:induction false} DueIsListed(rows: seq<Row>, cutoff: int, ts: seq<Transfer>, wanted: seq<bool>)
    requires IsDueListing(rows, cutoff, ts)
    requires |wanted| == |rows| && forall i :: 0 <= i < |rows| ==> wanted[i] == IsDue(rows[i], cutoff)
    ensures Lists(rows, wanted, Ids(ts))
  {
    forall t: TransferId | t < |rows| && wanted[t] ensures t in Ids(ts) {
      assert Has(ts, t);
      var k :| 0 <= k < |ts| && ts[k].id == t;
      assert Ids(ts)[k] == t;
    }
  }

  /** So have two results of the query for due rows. */
  lemma {:induction false} DueListingsAgree(rows: seq<Row>, cutoff: int, ts: seq<Transfer>, us: seq<Transfer>)
    requires IsDueListing(rows, cutoff, ts) && IsDueListing(rows, cutoff, us)
    ensures |ts| == |us| && IdsOf(Ids(ts)) == IdsOf(Ids(us))
    ensures forall i :: 0 <= i < |ts| ==> ts[i].row.submittedAt == us[i].row.submittedAt
  {
    var wanted := seq(|rows|, i requires 0 <= i < |rows| => IsDue(rows[i], cutoff));
    DueIsListed(rows, cutoff, ts, wanted);
    DueIsListed(rows, cutoff, us, wanted);
    ListsAgree(rows, wanted, Ids(ts), Ids(us));
    forall i | 0 <= i < |ts| ensures ts[i].row.submittedAt == us[i].row.submittedAt {
      assert Ids(ts)[i] == ts[i].id && Ids(us)[i] == us[i].id;
    }
  }
}
