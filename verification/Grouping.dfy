/** Grouping the listed transfers by correspondent (internal/settlement/engine.go:163-222).  The groups
    partition the listing, and whatever order they are visited in, counts and amounts add up. */
module Grouping {
  import opened Tables
  import opened Listings
  import opened Subsequences

  function Correspondents(ts: seq<Transfer>): set<CorrespondentId> {
    if ts == [] then {} else Correspondents(ts[..|ts| - 1]) + {ts[|ts| - 1].row.correspondent}
  }

  /** The transfers of the given correspondents, in the order of the listing. */
  function Of(ts: seq<Transfer>, cs: set<CorrespondentId>): seq<Transfer> {
    if ts == [] then []
    else Of(ts[..|ts| - 1], cs) + if ts[|ts| - 1].row.correspondent in cs then [ts[|ts| - 1]] else []
  }

  function Sum(ts: seq<Transfer>): int {
    if ts == [] then 0 else Sum(ts[..|ts| - 1]) + ts[|ts| - 1].row.amount
  }

  lemma {:induction false} SumAppend(ts: seq<Transfer>, t: Transfer)
    ensures Sum(ts + [t]) == Sum(ts) + t.row.amount
  {
    assert (ts + [t])[..|ts|] == ts;
  }

  lemma {:induction false} CorrespondentsAre(ts: seq<Transfer>, c: CorrespondentId)
    ensures c in Correspondents(ts) <==> exists t :: t in ts && t.row.correspondent == c
  {
    if ts != [] {
      var init, last := ts[..|ts| - 1], ts[|ts| - 1];
      CorrespondentsAre(init, c);
      assert ts == init + [last];
      assert last in ts;
    }
  }

  /** A transfer is in the groups of its own correspondent and in no other. */
  lemma {:induction false} GroupMembers(ts: seq<Transfer>, cs: set<CorrespondentId>, t: Transfer)
    ensures t in Of(ts, cs) <==> t in ts && t.row.correspondent in cs
  {
    if ts != [] {
      var init, last := ts[..|ts| - 1], ts[|ts| - 1];
      GroupMembers(init, cs, t);
      assert ts == init + [last];
    }
  }

  /** A group keeps the order of the listing: it is a subsequence of it. */
  lemma {:induction false} GroupKeepsOrder(ts: seq<Transfer>, cs: set<CorrespondentId>)
    ensures IsSubsequence(Of(ts, cs), ts)
  {
    if ts != [] {
      var init, last := ts[..|ts| - 1], ts[|ts| - 1];
      GroupKeepsOrder(init, cs);
      if last.row.correspondent in cs {
        assert Of(ts, cs)[..|Of(ts, cs)| - 1] == Of(init, cs);
      } else {
        assert Of(ts, cs) == Of(init, cs);
        SkipLast(Of(init, cs), ts);
      }
    }
  }

  /** In order of submission. */
  predicate Sorted(ts: seq<Transfer>) {
    forall i, j :: 0 <= i < j < |ts| ==> ts[i].row.submittedAt <= ts[j].row.submittedAt
  }

  /** The groups of a listing that is in order of submission are in that order too. */
  lemma {:induction false} GroupsAreSorted(ts: seq<Transfer>, cs: set<CorrespondentId>)
    requires Sorted(ts)
    ensures Sorted(Of(ts, cs))
  {
    if ts != [] {
      var init, last := ts[..|ts| - 1], ts[|ts| - 1];
      GroupsAreSorted(init, cs);
      forall i | 0 <= i < |Of(init, cs)| ensures Of(init, cs)[i].row.submittedAt <= last.row.submittedAt {
        GroupMembers(init, cs, Of(init, cs)[i]);
      }
    }
  }

  lemma {:induction false} GroupStep(ts: seq<Transfer>, cs: set<CorrespondentId>)
    requires ts != []
    ensures var init, last := ts[..|ts| - 1], ts[|ts| - 1];
      Sum(Of(ts, cs)) == Sum(Of(init, cs)) + if last.row.correspondent in cs then last.row.amount else 0
  {
    var init, last := ts[..|ts| - 1], ts[|ts| - 1];
    if last.row.correspondent in cs {
      SumAppend(Of(init, cs), last);
    } else {
      assert Of(ts, cs) == Of(init, cs);
    }
  }

  /** Two sets of correspondents without a common member: their groups add up. */
  lemma {:induction false} GroupsAddUp(ts: seq<Transfer>, done: set<CorrespondentId>, c: CorrespondentId)
    requires c !in done
    ensures |Of(ts, done + {c})| == |Of(ts, done)| + |Of(ts, {c})|
    ensures Sum(Of(ts, done + {c})) == Sum(Of(ts, done)) + Sum(Of(ts, {c}))
    ensures multiset(Of(ts, done + {c})) == multiset(Of(ts, done)) + multiset(Of(ts, {c}))
  {
    if ts != [] {
      var init, last := ts[..|ts| - 1], ts[|ts| - 1];
      GroupsAddUp(init, done, c);
      GroupStep(ts, done + {c});
      GroupStep(ts, done);
      GroupStep(ts, {c});
    }
  }

  lemma {:induction false} AllGroups(ts: seq<Transfer>, cs: set<CorrespondentId>)
    requires Correspondents(ts) <= cs
    ensures Of(ts, cs) == ts
  {
    if ts != [] {
      var init, last := ts[..|ts| - 1], ts[|ts| - 1];
      assert ts == init + [last];
      AllGroups(init, cs);
    }
  }

  lemma {:induction false} NoGroups(ts: seq<Transfer>)
    ensures Of(ts, {}) == []
  {
    if ts != [] {
      NoGroups(ts[..|ts| - 1]);
    }
  }

  /** A group of a correspondent in the listing is not empty. */
  lemma {:induction false} GroupIsInhabited(ts: seq<Transfer>, c: CorrespondentId)
    requires c in Correspondents(ts)
    ensures Of(ts, {c}) != []
  {
    CorrespondentsAre(ts, c);
    var t :| t in ts && t.row.correspondent == c;
    GroupMembers(ts, {c}, t);
  }

  /** The grouping loop. */
  method GroupByCorrespondent(ts: seq<Transfer>) returns (grouped: map<CorrespondentId, seq<Transfer>>)
    ensures grouped.Keys == Correspondents(ts)
    ensures forall c :: c in grouped ==> grouped[c] == Of(ts, {c})
  {
    grouped := map[];
    for i := 0 to |ts|
      invariant grouped.Keys == Correspondents(ts[..i])
      invariant forall c :: c in grouped ==> grouped[c] == Of(ts[..i], {c})
    {
      var t := ts[i];
      var c := t.row.correspondent;
      assert ts[..i + 1][..i] == ts[..i];
      if c !in grouped {
        NotListed(ts[..i], c);
      }
      grouped := grouped[c := (if c in grouped then grouped[c] else []) + [t]];
    }
    assert ts[..|ts|] == ts;
  }

  lemma {:induction false} NotListed(ts: seq<Transfer>, c: CorrespondentId)
    requires c !in Correspondents(ts)
    ensures Of(ts, {c}) == []
  {
    if ts != [] {
      NotListed(ts[..|ts| - 1], c);
    }
  }
}
