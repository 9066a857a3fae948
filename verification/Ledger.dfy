/** The append-only double-entry ledger: what one insert transaction does, the sums read from it,
    and the pairs it is made of (internal/store/ledger.go, internal/ledger/service.go,
    db/migrations/004_ledger_entries.sql). */
module Ledger {
  import opened Tables

  datatype Memo = Free | ReversalMemo | ReturnedCheckFee | OtherMemo(text: string)

  function MemoToEntryType(memo: Memo): Option<EntryType> {
    match memo
    case Free => Some(ProvisionalCredit)
    case ReversalMemo => Some(Reversal)
    case ReturnedCheckFee => Some(Fee)
    case OtherMemo(_) => None
  }

  function Signed(e: Entry): int {
    if e.side == Credit then e.amount else -e.amount
  }

  /** SUM(CASE WHEN side = 'CREDIT' THEN amount ELSE -amount END) over one account. */
  function Balance(l: seq<Entry>, account: AccountId): int {
    if l == [] then 0
    else
      var e := l[|l| - 1];
      Balance(l[..|l| - 1], account) + if e.account == account then Signed(e) else 0
  }

  /** The same sum over the whole table. */
  function Reconcile(l: seq<Entry>): int {
    if l == [] then 0 else Reconcile(l[..|l| - 1]) + Signed(l[|l| - 1])
  }

  /** The columns of the unique_entry_per_type constraint agree. */
  predicate SameKey(e: Entry, f: Entry) {
    && e.transfer == f.transfer
    && e.entryType == f.entryType
    && e.account == f.account
    && e.side == f.side
  }

  predicate KeyFree(l: seq<Entry>, e: Entry) {
    forall i :: 0 <= i < |l| ==> !SameKey(l[i], e)
  }

  /** The constraints on one inserted row: CHECK, the two foreign keys, UNIQUE. */
  predicate Accepted(rowCount: nat, accounts: set<AccountId>, l: seq<Entry>, e: Entry) {
    && ValidAmount(e.amount)
    && e.transfer < rowCount
    && e.account in accounts
    && KeyFree(l, e)
  }

  /** A transaction commits exactly when each row is accepted after the ones before it. */
  predicate Commits(rowCount: nat, accounts: set<AccountId>, l: seq<Entry>, es: seq<Entry>) {
    forall i :: 0 <= i < |es| ==> Accepted(rowCount, accounts, l + es[..i], es[i])
  }

  /** What one PostDoubleEntry asks for. */
  datatype Pair = Pair(transfer: TransferId, kind: EntryType, debit: AccountId, credit: AccountId, amount: int)

  /** The two rows of a pair, sharing one movement id. */
  function Entries(p: Pair, movement: nat): seq<Entry> {
    [ Entry(movement, p.transfer, p.debit, Debit, p.amount, p.kind),
      Entry(movement, p.transfer, p.credit, Credit, p.amount, p.kind) ]
  }

  /** The table that results from committing the pairs in order; the number of rows already in the
      table stands for the fresh movement id. */
  function Flatten(ps: seq<Pair>): (l: seq<Entry>)
    ensures |l| == 2 * |ps|
  {
    if ps == [] then []
    else Flatten(ps[..|ps| - 1]) + Entries(ps[|ps| - 1], 2 * (|ps| - 1))
  }

  lemma {:induction false} FlattenAppend(ps: seq<Pair>, p: Pair)
    ensures Flatten(ps + [p]) == Flatten(ps) + Entries(p, 2 * |ps|)
  {
    assert (ps + [p])[..|ps|] == ps;
  }

  /** Where the rows of each pair sit. */
  lemma {:induction false} FlattenAt(ps: seq<Pair>, i: nat)
    requires i < |ps|
    ensures Flatten(ps)[2 * i] == Entries(ps[i], 2 * i)[0]
    ensures Flatten(ps)[2 * i + 1] == Entries(ps[i], 2 * i)[1]
  {
    if i < |ps| - 1 {
      FlattenAt(ps[..|ps| - 1], i);
      assert ps[..|ps| - 1][i] == ps[i];
    }
  }

  /** Every row of a table of pairs belongs to one of them. */
  lemma {:induction false} FlattenFrom(ps: seq<Pair>, k: nat)
    requires k < |Flatten(ps)|
    ensures k / 2 < |ps|
    ensures Flatten(ps)[k] == Entries(ps[k / 2], 2 * (k / 2))[k % 2]
  {
    FlattenAt(ps, k / 2);
    assert k == 2 * (k / 2) + k % 2;
  }

  /** If the transaction of a pair commits, no committed pair of the same transfer and type has the
      same debit account, and none has the same credit account. */
  lemma {:induction false} CommittedPairIsNew(rowCount: nat, accounts: set<AccountId>, ps: seq<Pair>, p: Pair)
    requires Commits(rowCount, accounts, Flatten(ps), Entries(p, 2 * |ps|))
    ensures ValidAmount(p.amount) && p.transfer < rowCount && p.debit in accounts && p.credit in accounts
    ensures forall i :: 0 <= i < |ps| && ps[i].transfer == p.transfer && ps[i].kind == p.kind ==>
      ps[i].debit != p.debit && ps[i].credit != p.credit
  {
    var es := Entries(p, 2 * |ps|);
    assert Accepted(rowCount, accounts, Flatten(ps) + es[..0], es[0]);
    assert Accepted(rowCount, accounts, Flatten(ps) + es[..1], es[1]);
    forall i | 0 <= i < |ps| && ps[i].transfer == p.transfer && ps[i].kind == p.kind
      ensures ps[i].debit != p.debit && ps[i].credit != p.credit
    {
      FlattenAt(ps, i);
      assert (Flatten(ps) + es[..0])[2 * i] == Flatten(ps)[2 * i];
      assert (Flatten(ps) + es[..1])[2 * i + 1] == Flatten(ps)[2 * i + 1];
    }
  }

  /** The converse: a pair whose amount, row and accounts are good commits when no committed pair of the same
      transfer and type has its debit account or its credit account. */
  lemma {:induction false} NewPairCommits(rowCount: nat, accounts: set<AccountId>, ps: seq<Pair>, p: Pair)
    requires ValidAmount(p.amount) && p.transfer < rowCount && p.debit in accounts && p.credit in accounts
    requires forall i :: 0 <= i < |ps| && ps[i].transfer == p.transfer && ps[i].kind == p.kind ==>
      ps[i].debit != p.debit && ps[i].credit != p.credit
    ensures Commits(rowCount, accounts, Flatten(ps), Entries(p, 2 * |ps|))
  {
    var l, es := Flatten(ps), Entries(p, 2 * |ps|);
    forall k | 0 <= k < |l| ensures !SameKey(l[k], es[0]) && !SameKey(l[k], es[1]) {
      FlattenFrom(ps, k);
    }
    forall i | 0 <= i < |es| ensures Accepted(rowCount, accounts, l + es[..i], es[i]) {
      forall k | 0 <= k < |l + es[..i]| ensures !SameKey((l + es[..i])[k], es[i]) {
        if k < |l| {
          assert (l + es[..i])[k] == l[k];
        }
      }
    }
  }

  lemma {:induction false} BalanceAppend(l: seq<Entry>, e: Entry, account: AccountId)
    ensures Balance(l + [e], account) == Balance(l, account) + if e.account == account then Signed(e) else 0
  {
    assert (l + [e])[..|l|] == l;
  }

  /** What a pair adds to the balance of an account. */
  function Effect(p: Pair, account: AccountId): int {
    (if p.credit == account then p.amount else 0) - (if p.debit == account then p.amount else 0)
  }

  lemma {:induction false} BalanceOfPair(l: seq<Entry>, p: Pair, movement: nat, account: AccountId)
    ensures Balance(l + Entries(p, movement), account) == Balance(l, account) + Effect(p, account)
  {
    var es := Entries(p, movement);
    assert l + es == (l + [es[0]]) + [es[1]];
    BalanceAppend(l, es[0], account);
    BalanceAppend(l + [es[0]], es[1], account);
  }

  /** A table of pairs reconciles to zero. */
  lemma {:induction false} PairsReconcile(ps: seq<Pair>)
    ensures Reconcile(Flatten(ps)) == 0
  {
    if ps != [] {
      var l, es := Flatten(ps[..|ps| - 1]), Entries(ps[|ps| - 1], 2 * (|ps| - 1));
      PairsReconcile(ps[..|ps| - 1]);
      ReconcileAppend(l, es[0]);
      ReconcileAppend(l + [es[0]], es[1]);
      assert l + es == (l + [es[0]]) + [es[1]];
    }
  }

  lemma {:induction false} ReconcileAppend(l: seq<Entry>, e: Entry)
    ensures Reconcile(l + [e]) == Reconcile(l) + Signed(e)
  {
    assert (l + [e])[..|l|] == l;
  }

  ghost predicate Distinct(accounts: seq<AccountId>) {
    forall i, j :: 0 <= i < j < |accounts| ==> accounts[i] != accounts[j]
  }

  function SumOfBalances(l: seq<Entry>, accounts: seq<AccountId>): int {
    if accounts == [] then 0
    else SumOfBalances(l, accounts[..|accounts| - 1]) + Balance(l, accounts[|accounts| - 1])
  }

  /** Reconcile is the sum of GetBalance over any listing of the accounts that occur. */
  lemma {:induction false} ReconcileSumsBalances(l: seq<Entry>, accounts: seq<AccountId>)
    requires Distinct(accounts)
    requires forall i :: 0 <= i < |l| ==> l[i].account in accounts
    ensures Reconcile(l) == SumOfBalances(l, accounts)
  {
    if l == [] {
      NoEntriesNoBalances(accounts);
    } else {
      ReconcileSumsBalances(l[..|l| - 1], accounts);
      OneEntryMovesOneBalance(l[..|l| - 1], l[|l| - 1], accounts);
      assert l == l[..|l| - 1] + [l[|l| - 1]];
    }
  }

  lemma {:induction false} NoEntriesNoBalances(accounts: seq<AccountId>)
    ensures SumOfBalances([], accounts) == 0
  {
    if accounts != [] {
      NoEntriesNoBalances(accounts[..|accounts| - 1]);
    }
  }

  lemma {:induction false} OneEntryMovesOneBalance(l: seq<Entry>, e: Entry, accounts: seq<AccountId>)
    requires Distinct(accounts)
    ensures SumOfBalances(l + [e], accounts)
         == SumOfBalances(l, accounts) + if e.account in accounts then Signed(e) else 0
  {
    if accounts != [] {
      var n := |accounts| - 1;
      OneEntryMovesOneBalance(l, e, accounts[..n]);
      BalanceAppend(l, e, accounts[n]);
      assert accounts == accounts[..n] + [accounts[n]];
    }
  }
}
