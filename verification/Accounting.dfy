/** What every reachable state of the interleaved system says about money, in terms of the ledger
    table alone. */
module Accounting {
  import opened States
  import opened Tables
  import opened Ledger
  import opened Operations
  import opened Handlers
  import opened System
  import opened Invariant

  /** Some entry of the type exists for the transfer. */
  ghost predicate HasEntries(l: seq<Entry>, t: TransferId, kind: EntryType) {
    exists i :: 0 <= i < |l| && l[i].transfer == t && l[i].entryType == kind
  }

  /** The amount moved for the transfer under one entry type: its CREDIT entries. */
  function Moved(l: seq<Entry>, t: TransferId, kind: EntryType): int {
    if l == [] then 0
    else
      var e := l[|l| - 1];
      Moved(l[..|l| - 1], t, kind)
      + if e.transfer == t && e.entryType == kind && e.side == Credit then e.amount else 0
  }

  function EntryCount(l: seq<Entry>, t: TransferId): nat {
    if l == [] then 0 else EntryCount(l[..|l| - 1], t) + if l[|l| - 1].transfer == t then 1 else 0
  }

  /** The net of the transfer's entries on one account. */
  function Net(l: seq<Entry>, t: TransferId, account: AccountId): int {
    if l == [] then 0
    else
      var e := l[|l| - 1];
      Net(l[..|l| - 1], t, account) + if e.transfer == t && e.account == account then Signed(e) else 0
  }

  function SumTo(n: nat, f: nat -> int): int {
    if n == 0 then 0 else SumTo(n - 1, f) + f(n - 1)
  }

  lemma {:induction false} SumsAgree(n: nat, f: nat -> int, g: nat -> int)
    requires forall i: nat :: i < n ==> f(i) == g(i)
    ensures SumTo(n, f) == SumTo(n, g)
  {
    if n > 0 {
      SumsAgree(n - 1, f, g);
    }
  }

  lemma {:induction false} SumBumped(n: nat, f: nat -> int, g: nat -> int, k: nat, delta: int)
    requires k < n && g(k) == f(k) + delta
    requires forall i: nat :: i < n && i != k ==> f(i) == g(i)
    ensures SumTo(n, g) == SumTo(n, f) + delta
  {
    if k == n - 1 {
      SumsAgree(n - 1, f, g);
    } else {
      SumBumped(n - 1, f, g, k, delta);
    }
  }

  /** The queries after one more entry. */
  lemma {:induction false} QueriesAppend(l: seq<Entry>, e: Entry, t: TransferId, kind: EntryType, account: AccountId)
    ensures Moved(l + [e], t, kind)
         == Moved(l, t, kind) + if e.transfer == t && e.entryType == kind && e.side == Credit then e.amount else 0
    ensures EntryCount(l + [e], t) == EntryCount(l, t) + if e.transfer == t then 1 else 0
    ensures Net(l + [e], t, account)
         == Net(l, t, account) + if e.transfer == t && e.account == account then Signed(e) else 0
  {
    assert (l + [e])[..|l|] == l;
  }

  /** The queries after one more pair. */
  lemma {:induction false} QueriesOfPair(
    l: seq<Entry>, p: Pair, movement: nat, t: TransferId, kind: EntryType, account: AccountId)
    ensures Moved(l + Entries(p, movement), t, kind)
         == Moved(l, t, kind) + if p.transfer == t && p.kind == kind then p.amount else 0
    ensures EntryCount(l + Entries(p, movement), t) == EntryCount(l, t) + if p.transfer == t then 2 else 0
    ensures Net(l + Entries(p, movement), t, account)
         == Net(l, t, account) + if p.transfer == t then Effect(p, account) else 0
  {
    var es := Entries(p, movement);
    assert l + es == (l + [es[0]]) + [es[1]];
    QueriesAppend(l, es[0], t, kind, account);
    QueriesAppend(l + [es[0]], es[1], t, kind, account);
  }

  /** A balance is the sum of the transfers' nets. */
  lemma {:induction false} BalanceIsSumOfNets(ps: seq<Pair>, n: nat, account: AccountId)
    requires forall i :: 0 <= i < |ps| ==> ps[i].transfer < n
    ensures Balance(Flatten(ps), account) == SumTo(n, (t: nat) => Net(Flatten(ps), t, account))
  {
    if ps == [] {
      SumsAgree(n, (t: nat) => Net(Flatten(ps), t, account), (t: nat) => 0);
      ZeroSum(n);
    } else {
      var qs, p := ps[..|ps| - 1], ps[|ps| - 1];
      BalanceIsSumOfNets(qs, n, account);
      BalanceOfPair(Flatten(qs), p, 2 * |qs|, account);
      forall t: nat ensures Net(Flatten(ps), t, account)
          == Net(Flatten(qs), t, account) + if p.transfer == t then Effect(p, account) else 0 {
        QueriesOfPair(Flatten(qs), p, 2 * |qs|, t, p.kind, account);
      }
      SumBumped(
        n, (t: nat) => Net(Flatten(qs), t, account), (t: nat) => Net(Flatten(ps), t, account),
        p.transfer, Effect(p, account));
    }
  }

  lemma {:induction false} ZeroSum(n: nat)
    ensures SumTo(n, (t: nat) => 0) == 0
  {
    if n > 0 {
      ZeroSum(n - 1);
      SumsAgree(n - 1, (t: nat) => 0, (t: nat) => 0);
    }
  }

  lemma {:induction false} EntriesMeanPosted(ps: seq<Pair>, t: TransferId, kind: EntryType)
    ensures HasEntries(Flatten(ps), t, kind) <==> Posted(ps, t, kind)
  {
    if Posted(ps, t, kind) {
      var i :| 0 <= i < |ps| && ps[i].transfer == t && ps[i].kind == kind;
      FlattenAt(ps, i);
      assert Flatten(ps)[2 * i].transfer == t;
    }
    if HasEntries(Flatten(ps), t, kind) {
      var k :| 0 <= k < |Flatten(ps)| && Flatten(ps)[k].transfer == t && Flatten(ps)[k].entryType == kind;
      FlattenFrom(ps, k);
    }
  }

  /** A list of committed pairs that fit their rows, with one pair per transfer and type. */
  ghost predicate PairsFit(rows: seq<Row>, ps: seq<Pair>) {
    && (forall i :: 0 <= i < |ps| ==> PairFits(rows, ps[i]) && ValidAmount(ps[i].amount))
    && UniquePairs(ps)
  }

  lemma {:induction false} PrefixFits(rows: seq<Row>, ps: seq<Pair>)
    requires ps != [] && PairsFit(rows, ps)
    ensures PairsFit(rows, ps[..|ps| - 1])
  {
    var qs := ps[..|ps| - 1];
    assert forall i :: 0 <= i < |qs| ==> qs[i] == ps[i];
  }

  /** What the pairs of one transfer amount to. */
  lemma {:induction false} PairsOfTransfer(rows: seq<Row>, ps: seq<Pair>, t: TransferId, kind: EntryType)
    requires t < |rows| && PairsFit(rows, ps)
    ensures Moved(Flatten(ps), t, kind) >= 0
    ensures Moved(Flatten(ps), t, kind) > 0 <==> Posted(ps, t, kind)
    ensures kind != Fee && Posted(ps, t, kind) ==> Moved(Flatten(ps), t, kind) == rows[t].amount
    ensures EntryCount(Flatten(ps), t) == 2 * Count(Posted(ps, t, ProvisionalCredit))
        + 2 * Count(Posted(ps, t, Reversal)) + 2 * Count(Posted(ps, t, Fee))
  {
    if ps != [] {
      var qs, p := ps[..|ps| - 1], ps[|ps| - 1];
      PrefixFits(rows, ps);
      PairsOfTransfer(rows, qs, t, kind);
      QueriesOfPair(Flatten(qs), p, 2 * |qs|, t, kind, 0);
      assert ps == qs + [p];
      PostedAppend(qs, p, t, kind);
      PostedAppend(qs, p, t, ProvisionalCredit);
      PostedAppend(qs, p, t, Reversal);
      PostedAppend(qs, p, t, Fee);
      assert forall i :: 0 <= i < |qs| ==> qs[i] == ps[i];
      assert !Posted(qs, p.transfer, p.kind);
    }
  }

  function Count(b: bool): nat {
    if b then 1 else 0
  }

  /** The FEE credits of the transfer on the account. */
  function FeesOf(l: seq<Entry>, t: TransferId, account: AccountId): int {
    if l == [] then 0
    else
      var e := l[|l| - 1];
      FeesOf(l[..|l| - 1], t, account)
      + if e.transfer == t && e.entryType == Fee && e.side == Credit && e.account == account then e.amount else 0
  }

  /** The FEE credits on the account: the fees posted to it. */
  function FeesTo(l: seq<Entry>, account: AccountId): int {
    if l == [] then 0
    else
      var e := l[|l| - 1];
      FeesTo(l[..|l| - 1], account)
      + if e.entryType == Fee && e.side == Credit && e.account == account then e.amount else 0
  }

  lemma {:induction false} FeesAppend(l: seq<Entry>, e: Entry, t: TransferId, account: AccountId)
    ensures FeesOf(l + [e], t, account) == FeesOf(l, t, account)
      + if e.transfer == t && e.entryType == Fee && e.side == Credit && e.account == account then e.amount else 0
    ensures FeesTo(l + [e], account) == FeesTo(l, account)
      + if e.entryType == Fee && e.side == Credit && e.account == account then e.amount else 0
  {
    assert (l + [e])[..|l|] == l;
  }

  lemma {:induction false} FeesOfPair(l: seq<Entry>, p: Pair, movement: nat, t: TransferId, account: AccountId)
    ensures var fee := if p.kind == Fee && p.credit == account then p.amount else 0;
      && FeesOf(l + Entries(p, movement), t, account) == FeesOf(l, t, account) + (if p.transfer == t then fee else 0)
      && FeesTo(l + Entries(p, movement), account) == FeesTo(l, account) + fee
  {
    var es := Entries(p, movement);
    assert l + es == (l + [es[0]]) + [es[1]];
    FeesAppend(l, es[0], t, account);
    FeesAppend(l + [es[0]], es[1], t, account);
  }

  /** The fees posted to an account are those of all transfers together. */
  lemma {:induction false} FeesAddUp(ps: seq<Pair>, n: nat, account: AccountId)
    requires forall i :: 0 <= i < |ps| ==> ps[i].transfer < n
    ensures FeesTo(Flatten(ps), account) == SumTo(n, (t: nat) => FeesOf(Flatten(ps), t, account))
  {
    var fees := (t: nat) => FeesOf(Flatten(ps), t, account);
    if ps == [] {
      SumsAgree(n, fees, (t: nat) => 0);
      ZeroSum(n);
    } else {
      var qs, p := ps[..|ps| - 1], ps[|ps| - 1];
      var fee := if p.kind == Fee && p.credit == account then p.amount else 0;
      FeesAddUp(qs, n, account);
      FeesOfPair(Flatten(qs), p, 2 * |qs|, p.transfer, account);
      forall t: nat ensures fees(t) == FeesOf(Flatten(qs), t, account) + if p.transfer == t then fee else 0 {
        FeesOfPair(Flatten(qs), p, 2 * |qs|, t, account);
      }
      SumBumped(n, (t: nat) => FeesOf(Flatten(qs), t, account), fees, p.transfer, fee);
    }
  }

  /** What a transfer's pairs do to an account, in whatever roles it has: as the investor's, as the
      omnibus account, and as an account fees are credited to. */
  lemma {:induction false} NetByRoles(rows: seq<Row>, ps: seq<Pair>, t: TransferId, account: AccountId)
    requires t < |rows| && PairsFit(rows, ps)
    ensures var l := Flatten(ps);
      Net(l, t, account) == FeesOf(l, t, account)
        + (if rows[t].account == account
           then Moved(l, t, ProvisionalCredit) - Moved(l, t, Reversal) - Moved(l, t, Fee) else 0)
        + (if rows[t].omnibus == account then Moved(l, t, Reversal) - Moved(l, t, ProvisionalCredit) else 0)
  {
    if ps != [] {
      var qs, p := ps[..|ps| - 1], ps[|ps| - 1];
      PrefixFits(rows, ps);
      NetByRoles(rows, qs, t, account);
      QueriesOfPair(Flatten(qs), p, 2 * |qs|, t, ProvisionalCredit, account);
      QueriesOfPair(Flatten(qs), p, 2 * |qs|, t, Reversal, account);
      QueriesOfPair(Flatten(qs), p, 2 * |qs|, t, Fee, account);
      FeesOfPair(Flatten(qs), p, 2 * |qs|, t, account);
      assert PairFits(rows, p);
    }
  }

  lemma {:induction false} NoFeesElsewhere(
    l: seq<Entry>, feeAccounts: set<AccountId>, t: TransferId, account: AccountId)
    requires FeesGoTo(l, feeAccounts) && account !in feeAccounts
    ensures FeesOf(l, t, account) == 0
  {
    if l != [] {
      NoFeesElsewhere(l[..|l| - 1], feeAccounts, t, account);
    }
  }

  /** Every FEE credit in the ledger went to one of the fee accounts. */
  ghost predicate FeesGoTo(l: seq<Entry>, feeAccounts: set<AccountId>) {
    forall i :: 0 <= i < |l| && l[i].entryType == Fee && l[i].side == Credit ==> l[i].account in feeAccounts
  }

  // ---- every reachable state ----

  lemma {:induction false} ReachableTables(s: System, actions: seq<Action>)
    requires Initial(s)
    ensures var s' := Run(s, actions);
      TablesOk(s') && PairsFit(s'.db.rows, s'.posted)
      && forall i :: 0 <= i < |s'.posted| ==> s'.posted[i].transfer < |s'.db.rows|
  {
    RunKeepsInv(s, actions);
    var s' := Run(s, actions);
    forall i | 0 <= i < |s'.posted| ensures s'.posted[i].transfer < |s'.db.rows| {
      assert PairFits(s'.db.rows, s'.posted[i]);
    }
  }

  /** In every interleaving, with faults anywhere: a transfer's state and the entries it has. */
  lemma {:induction false} StateAndEntries(s: System, actions: seq<Action>, t: TransferId)
    requires Initial(s) && t < |Run(s, actions).db.rows|
    ensures var db := Run(s, actions).db;
      var credit, reversal, fee :=
        HasEntries(db.ledger, t, ProvisionalCredit), HasEntries(db.ledger, t, Reversal), HasEntries(db.ledger, t, Fee);
      match db.rows[t].state
      case Requested => !credit && !reversal && !fee
      case Validating => !credit && !reversal && !fee
      case Analyzing => !credit && !reversal && !fee
      case Rejected => !credit && !reversal && !fee
      case Approved => !reversal && !fee
      case FundsPosted => credit && (fee ==> reversal)
      case Completed => credit && (fee ==> reversal)
      case Returned => credit && reversal && fee
  {
    ReachableTables(s, actions);
    var s' := Run(s, actions);
    assert Shape(s'.db.rows[t].state, s'.posted, t);
    EntriesMeanPosted(s'.posted, t, ProvisionalCredit);
    EntriesMeanPosted(s'.posted, t, Reversal);
    EntriesMeanPosted(s'.posted, t, Fee);
  }

  /** However often a return is notified: at most one pair per transfer and type, six entries at
      most, and exactly six for a returned transfer, whose investor is left paying the fee. */
  lemma {:induction false} EntriesPerTransfer(
    s: System, actions: seq<Action>, t: TransferId, feeAccounts: set<AccountId>)
    requires Initial(s) && t < |Run(s, actions).db.rows|
    ensures var db := Run(s, actions).db; var row := db.rows[t];
      && EntryCount(db.ledger, t) == 2 * Count(HasEntries(db.ledger, t, ProvisionalCredit))
           + 2 * Count(HasEntries(db.ledger, t, Reversal)) + 2 * Count(HasEntries(db.ledger, t, Fee))
      && EntryCount(db.ledger, t) <= 6
      && (row.state == Returned ==> EntryCount(db.ledger, t) == 6)
      && (row.state == Returned && row.account != row.omnibus
          && FeesGoTo(db.ledger, feeAccounts) && row.account !in feeAccounts ==>
            Net(db.ledger, t, row.account) == -Moved(db.ledger, t, Fee) < 0)
  {
    ReachableTables(s, actions);
    var s' := Run(s, actions);
    var row, ps := s'.db.rows[t], s'.posted;
    assert Shape(row.state, ps, t);
    EntriesMeanPosted(ps, t, ProvisionalCredit);
    EntriesMeanPosted(ps, t, Reversal);
    EntriesMeanPosted(ps, t, Fee);
    PairsOfTransfer(s'.db.rows, ps, t, ProvisionalCredit);
    PairsOfTransfer(s'.db.rows, ps, t, Reversal);
    PairsOfTransfer(s'.db.rows, ps, t, Fee);
    if FeesGoTo(s'.db.ledger, feeAccounts) && row.account !in feeAccounts {
      NoFeesElsewhere(s'.db.ledger, feeAccounts, t, row.account);
    }
    NetByRoles(s'.db.rows, ps, t, row.account);
  }

  /** What one transfer contributes to an account that is its investor's, and to one that is its
      omnibus account. */
  function InvestorShare(db: Db, t: TransferId, account: AccountId): int {
    if t < |db.rows| && db.rows[t].account == account
    then Moved(db.ledger, t, ProvisionalCredit) - Moved(db.ledger, t, Reversal) - Moved(db.ledger, t, Fee) else 0
  }

  ghost function OmnibusShare(db: Db, t: TransferId, account: AccountId): int {
    if t < |db.rows| && db.rows[t].omnibus == account
       && HasEntries(db.ledger, t, ProvisionalCredit) && !HasEntries(db.ledger, t, Reversal)
    then -db.rows[t].amount else 0
  }

  lemma {:induction false} SharesAreNets(s: System, t: TransferId, account: AccountId)
    requires TablesOk(s) && PairsFit(s.db.rows, s.posted) && t < |s.db.rows|
    ensures Net(s.db.ledger, t, account)
      == InvestorShare(s.db, t, account) + OmnibusShare(s.db, t, account) + FeesOf(s.db.ledger, t, account)
  {
    var rows, ps := s.db.rows, s.posted;
    NetByRoles(rows, ps, t, account);
    PairsOfTransfer(rows, ps, t, ProvisionalCredit);
    PairsOfTransfer(rows, ps, t, Reversal);
    EntriesMeanPosted(ps, t, ProvisionalCredit);
    EntriesMeanPosted(ps, t, Reversal);
    assert Shape(rows[t].state, ps, t);
  }

  lemma {:induction false} SumOfThree(n: nat, f: nat -> int, g: nat -> int, h: nat -> int, k: nat -> int)
    requires forall t: nat :: t < n ==> f(t) == g(t) + h(t) + k(t)
    ensures SumTo(n, f) == SumTo(n, g) + SumTo(n, h) + SumTo(n, k)
  {
    if n > 0 {
      SumOfThree(n - 1, f, g, h, k);
    }
  }

  /** Exact accounting in every reachable state, in the middle of handlers too, and for every account
      whatever roles it plays: what its transfers credited less what they reversed and charged, less the
      unreversed credits it is the omnibus account of, plus the fees posted to it. */
  lemma {:induction false} ExactBalances(s: System, actions: seq<Action>, account: AccountId)
    requires Initial(s)
    ensures var db := Run(s, actions).db;
      Balance(db.ledger, account)
      == SumTo(|db.rows|, (t: nat) => InvestorShare(db, t, account))
         + SumTo(|db.rows|, (t: nat) => OmnibusShare(db, t, account))
         + FeesTo(db.ledger, account)
  {
    ReachableTables(s, actions);
    BalancesFromTables(Run(s, actions), account);
  }

  lemma {:induction false} BalancesFromTables(s: System, account: AccountId)
    requires TablesOk(s) && PairsFit(s.db.rows, s.posted)
    requires forall i :: 0 <= i < |s.posted| ==> s.posted[i].transfer < |s.db.rows|
    ensures Balance(s.db.ledger, account)
      == SumTo(|s.db.rows|, (t: nat) => InvestorShare(s.db, t, account))
         + SumTo(|s.db.rows|, (t: nat) => OmnibusShare(s.db, t, account))
         + FeesTo(s.db.ledger, account)
  {
    var db, n := s.db, |s.db.rows|;
    BalanceIsSumOfNets(s.posted, n, account);
    FeesAddUp(s.posted, n, account);
    var net := (t: nat) => Net(db.ledger, t, account);
    var invested, pooled := (t: nat) => InvestorShare(db, t, account), (t: nat) => OmnibusShare(db, t, account);
    var fees := (t: nat) => FeesOf(db.ledger, t, account);
    forall t: nat | t < n ensures net(t) == invested(t) + pooled(t) + fees(t) {
      SharesAreNets(s, t, account);
    }
    SumOfThree(n, net, invested, pooled, fees);
  }

  /** For an account with a single role the other two terms are nothing. */
  lemma {:induction false} BalancesByRole(s: System, actions: seq<Action>, account: AccountId)
    requires Initial(s)
    ensures var db := Run(s, actions).db;
      var invests := exists t: TransferId :: t < |db.rows| && db.rows[t].account == account;
      var pools := exists t: TransferId :: t < |db.rows| && db.rows[t].omnibus == account;
      && (!pools && FeesTo(db.ledger, account) == 0 ==>
            Balance(db.ledger, account) == SumTo(|db.rows|, (t: nat) => InvestorShare(db, t, account)))
      && (!invests && FeesTo(db.ledger, account) == 0 ==>
            Balance(db.ledger, account) == SumTo(|db.rows|, (t: nat) => OmnibusShare(db, t, account)) <= 0)
      && (!invests && !pools ==> Balance(db.ledger, account) == FeesTo(db.ledger, account) >= 0)
  {
    ExactBalances(s, actions, account);
    ReachableTables(s, actions);
    var db, n := Run(s, actions).db, |Run(s, actions).db.rows|;
    var invested, pooled := (t: nat) => InvestorShare(db, t, account), (t: nat) => OmnibusShare(db, t, account);
    ZeroSum(n);
    if forall t: nat :: t < n ==> db.rows[t].account != account { SumsAgree(n, invested, (t: nat) => 0); }
    if forall t: nat :: t < n ==> db.rows[t].omnibus != account { SumsAgree(n, pooled, (t: nat) => 0); }
    forall t: nat | t < n ensures pooled(t) <= 0 {
      assert CapturedFits(Run(s, actions), t);
    }
    SumNotPositive(n, pooled);
    FeesNotNegative(Run(s, actions).posted, account);
  }

  lemma {:induction false} SumNotPositive(n: nat, f: nat -> int)
    requires forall t: nat :: t < n ==> f(t) <= 0
    ensures SumTo(n, f) <= 0
  {
    if n > 0 {
      SumNotPositive(n - 1, f);
    }
  }

  lemma {:induction false} FeesNotNegative(ps: seq<Pair>, account: AccountId)
    requires forall i :: 0 <= i < |ps| ==> ps[i].amount > 0
    ensures FeesTo(Flatten(ps), account) >= 0
  {
    if ps != [] {
      FeesNotNegative(ps[..|ps| - 1], account);
      FeesOfPair(Flatten(ps[..|ps| - 1]), ps[|ps| - 1], 2 * (|ps| - 1), 0, account);
    }
  }

  /** Rows 2k and 2k+1 are one DEBIT and one CREDIT of the same positive amount, transfer and type,
      and they alone carry their movement id. */
  ghost predicate IsMovement(l: seq<Entry>, k: nat)
    requires 2 * k + 1 < |l|
  {
    var d, c := l[2 * k], l[2 * k + 1];
    && d.side == Debit && c.side == Credit && d.amount == c.amount > 0
    && d.transfer == c.transfer && d.entryType == c.entryType
    && (forall i :: 0 <= i < |l| ==> (l[i].movement == d.movement <==> i == 2 * k || i == 2 * k + 1))
  }

  lemma {:induction false} PairsAreMovements(ps: seq<Pair>, k: nat)
    requires k < |ps| && ps[k].amount > 0
    ensures IsMovement(Flatten(ps), k)
  {
    FlattenAt(ps, k);
    forall i | 0 <= i < |Flatten(ps)|
      ensures Flatten(ps)[i].movement == 2 * k <==> i == 2 * k || i == 2 * k + 1
    {
      FlattenFrom(ps, i);
    }
  }

  /** A list of two-row movements that reconciles to zero. */
  ghost predicate IsBalanced(l: seq<Entry>) {
    && |l| % 2 == 0
    && Reconcile(l) == 0
    && (forall k: nat :: 2 * k + 1 < |l| ==> IsMovement(l, k))
  }

  lemma {:induction false} PairsAreBalanced(ps: seq<Pair>)
    requires forall i :: 0 <= i < |ps| ==> ps[i].amount > 0
    ensures IsBalanced(Flatten(ps))
  {
    PairsReconcile(ps);
    forall k: nat | 2 * k + 1 < |Flatten(ps)| ensures IsMovement(Flatten(ps), k) {
      PairsAreMovements(ps, k);
    }
  }

  /** The ledger is two-row movements throughout, and reconciles to zero, in every reachable state. */
  lemma {:induction false} LedgerIsBalanced(s: System, actions: seq<Action>)
    requires Initial(s)
    ensures IsBalanced(Run(s, actions).db.ledger)
  {
    ReachableTables(s, actions);
    var ps := Run(s, actions).posted;
    assert forall i :: 0 <= i < |ps| ==> PairFits(Run(s, actions).db.rows, ps[i]) && ValidAmount(ps[i].amount);
    PairsAreBalanced(ps);
  }

  /** Append-only: whatever happens next, the ledger only grows, and by whole pairs. */
  lemma {:induction false} LedgerOnlyGrows(s: System, a: Action)
    ensures s.db.ledger <= Apply(s, a).db.ledger
    ensures |Apply(s, a).db.ledger| == |s.db.ledger| || |Apply(s, a).db.ledger| == |s.db.ledger| + 2
  {
    if a.Turn? && a.pid < |s.procs| {
      var call := NextCall(s.procs[a.pid]);
      LedgerAfterCall(s.db, call, a.answer);
    }
  }

  lemma {:induction false} LedgerAfterCall(db: Db, call: Call, answer: Answer)
    ensures var l := Perform(db, call, answer).0.ledger;
      db.ledger <= l && (|l| == |db.ledger| || |l| == |db.ledger| + 2)
  {
    if IsPlain(db, call, answer) {
      PlainCalls(db, call, answer);
    }
  }
}
