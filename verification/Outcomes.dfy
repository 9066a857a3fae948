/** The handlers on a database that the service itself has brought about, when nothing fails: what is
    left of the ways they can end once the constraints of the ledger are known to hold. */
module Outcomes {
  import opened States
  import opened Tables
  import opened Ledger
  import opened Funding
  import opened Operations
  import opened Handlers
  import opened Store
  import opened System
  import opened Accounting
  import opened Returns
  import opened Refinement
  import opened Flow
  import opened Reviews

  /** The database is one the system reaches from its beginning. */
  ghost predicate Reachable(s: System, actions: seq<Action>, db: Db) {
    Initial(s) && Run(s, actions).db == db
  }

  /** Carried out without exception: the row is in the state reported, FundsPosted exactly when the verdict
      is to pay out, and exactly then one pair is posted. */
  predicate Settles(before: Db, after: Db, d: Detail, now: int, vendor: Option<VssAnswer>, v: Verdict, state: State) {
    var t := |before.rows|;
    && state == StateAfter(v)
    && after.rows == before.rows + [RowAfter(NewRow(d.account, d.omnibus, d.correspondent, d.amount, now), vendor, v)]
    && after.ledger == before.ledger +
       if v.PayOut? then Entries(CreditPair(t, d.account, d.omnibus, d.amount), |before.ledger|) else []
  }

  lemma {:induction false} CreditsGoThrough(
    s: System, actions: seq<Action>, before: Db, after: Db, d: Detail, now: int, vendor: Option<VssAnswer>,
    dup: Duplicates, state: State, error: Option<Error>)
    requires Reachable(s, actions, before)
    requires ValidAmount(d.amount) && d.account in before.accounts && d.omnibus in before.accounts
    requires d.correspondent in before.omnibusOf && before.omnibusOf[d.correspondent] == d.omnibus
    requires CarriedOut(
      WithNewRow(before, d, now), after, |before.rows|, d, vendor,
      VerdictOf(d, vendor, dup, Some(d.omnibus)), state, error)
    ensures Settles(before, after, d, now, vendor, VerdictOf(d, vendor, dup, Some(d.omnibus)), state)
    ensures error == None <==> vendor.Some? && !VerdictOf(d, vendor, dup, Some(d.omnibus)).FundingSilent?
  {
    var row := NewRow(d.account, d.omnibus, d.correspondent, d.amount, now);
    var t, v := |before.rows|, VerdictOf(d, vendor, dup, Some(d.omnibus));
    FirstCredit(s, actions, row);
    VerdictInWords(d, vendor, dup, Some(d.omnibus), row);
    assert v.PayOut? ==> v.omnibus == d.omnibus;
    assert (before.rows + [row])[t := RowAfter(row, vendor, v)] == before.rows + [RowAfter(row, vendor, v)];
  }

  /** The same in terms of the account as it was, the answers and the new row. */
  predicate SettlesInWords(
    before: Db, after: Db, account: AccountId, amount: int, config: RulesConfig, now: int, vendor: Option<VssAnswer>,
    dup: Duplicates, state: State)
    requires OpensRow(before, account, amount)
  {
    var t, a := |before.rows|, before.accounts[account];
    var c := a.correspondent.value;
    var omnibus := before.omnibusOf[c];
    var d := Detail(account, a.accountType, a.status, c, omnibus, amount, config);
    var row := Row(account, omnibus, c, amount, now, Requested, None, None, Unspecified, None, None, None);
    && |after.rows| == t + 1 && after.rows[..t] == before.rows
    && Judged(d, vendor, dup, Some(omnibus), row, after.rows[t], FundsPosted)
    && after.rows[t].state == state
    && after.ledger == before.ledger
       + (if state == FundsPosted then DepositEntries(t, d, omnibus, |before.ledger|) else [])
  }

  lemma {:induction false} SettledInWords(
    before: Db, after: Db, account: AccountId, amount: int, config: RulesConfig, now: int, vendor: Option<VssAnswer>,
    dup: Duplicates, state: State)
    requires OpensRow(before, account, amount)
    requires var d := DetailNow(before, account, amount, config);
      Settles(before, after, d, now, vendor, VerdictOf(d, vendor, dup, Some(d.omnibus)), state)
    ensures SettlesInWords(before, after, account, amount, config, now, vendor, dup, state)
  {
    var d := DetailNow(before, account, amount, config);
    VerdictIsJudged(
      d, vendor, dup, Some(d.omnibus), NewRow(d.account, d.omnibus, d.correspondent, d.amount, now));
    assert Entries(CreditPair(|before.rows|, d.account, d.omnibus, d.amount), |before.ledger|)
      == DepositEntries(|before.rows|, d, d.omnibus, |before.ledger|);
  }

  /** A deposit made on a reachable database without faults ends as the decision table says: no row and no
      change, or the new row in the state of the verdict, with one pair posted exactly when funds are
      posted. */
  method DepositSettles(
    db: Database, account: AccountId, amount: int, config: RulesConfig, now: int, vendor: Option<VssAnswer>,
    dup: Duplicates, ghost start: Proc, ghost s: System, ghost before: seq<Action>)
    returns (t: Option<TransferId>, state: State, error: Option<Error>, ghost after: seq<Action>)
    requires db.reliable && Reachable(s, before, db.Snapshot())
    requires start.Deposit? && start.dpc == DLookUp && start.d.account == account && start.d.amount == amount
    modifies db`rows, db`events, db`ledger, db`worker, db`start, db`origin, db`choices
    ensures before <= after && Reachable(s, after, db.Snapshot())
    ensures t.Some? <==> OpensRow(old(db.Snapshot()), account, amount)
    ensures t == None ==> db.Snapshot() == old(db.Snapshot())
    ensures t.Some? ==>
      var d := DetailNow(old(db.Snapshot()), account, amount, config);
      var v := VerdictOf(d, vendor, dup, Some(d.omnibus));
      && t.value == |old(db.rows)| && Settles(old(db.Snapshot()), db.Snapshot(), d, now, vendor, v, state)
      && (error == None <==> vendor.Some? && !v.FundingSilent?)
    ensures t.Some? ==>
      SettlesInWords(
        old(db.Snapshot()), db.Snapshot(), account, amount, config, now, vendor, dup, state)
  {
    ghost var db0 := db.Snapshot();
    db.Begin(start);
    t, state, error := CreateDeposit(db, account, amount, config, now, vendor, dup);
    after := ExecutionIsARun(db, s, before);
    if t.Some? {
      CreditsGoThrough(
        s, before, db0, db.Snapshot(), DetailNow(db0, account, amount, config), now, vendor, dup, state, error);
      SettledInWords(db0, db.Snapshot(), account, amount, config, now, vendor, dup, state);
    }
  }

  /** What a return needs to be completed. */
  ghost predicate CanReturn(db: Db, t: TransferId, terms: Option<(int, AccountId)>)
    requires t < |db.rows|
  {
    && (db.rows[t].state == FundsPosted || db.rows[t].state == Completed)
    && !HasEntries(db.ledger, t, Reversal)
    && terms.Some? && ValidAmount(terms.value.0) && terms.value.1 in db.accounts
  }

  /** What a return needs to get half-way: its reversal is posted, its fee is not. */
  ghost predicate StopsHalfway(db: Db, t: TransferId, terms: Option<(int, AccountId)>)
    requires t < |db.rows|
  {
    && (db.rows[t].state == FundsPosted || db.rows[t].state == Completed)
    && !HasEntries(db.ledger, t, Reversal)
    && terms.Some? && !(ValidAmount(terms.value.0) && terms.value.1 in db.accounts)
  }

  /** A return on a reachable database without faults: the row is Returned afterwards exactly when it was
      before, or was posted and unreversed and its fee is a valid amount for an existing account.  With fee
      terms that are not, the reversal alone is posted; otherwise nothing is. */
  method ReturnSettles(
    db: Database, t: TransferId, terms: Option<(int, AccountId)>, ghost start: Proc, ghost s: System,
    ghost before: seq<Action>)
    returns (error: Option<Error>, ghost after: seq<Action>)
    requires db.reliable && Reachable(s, before, db.Snapshot())
    requires start.Return? && start.rpc == RLoad && start.t == t
    modifies db`rows, db`events, db`ledger, db`accounts, db`worker, db`start, db`origin, db`choices
    ensures before <= after && Reachable(s, after, db.Snapshot()) && |db.rows| == |old(db.rows)|
    ensures t >= |old(db.rows)| ==> error == Some(NotFound) && db.Snapshot() == old(db.Snapshot())
    ensures t < |old(db.rows)| ==>
      && (db.rows[t].state == Returned
          <==> (old(db.rows)[t].state == Returned || CanReturn(old(db.Snapshot()), t, terms)))
      && (error == None <==> db.rows[t].state == Returned)
      && db.ledger == old(db.ledger)
           + (if CanReturn(old(db.Snapshot()), t, terms) || StopsHalfway(old(db.Snapshot()), t, terms)
              then Entries(ReversalPair(t, old(db.rows)[t]), |old(db.ledger)|) else [])
           + (if CanReturn(old(db.Snapshot()), t, terms)
              then Entries(FeePair(t, old(db.rows)[t], terms.value.1, terms.value.0), |old(db.ledger)| + 2) else [])
  {
    if t < |db.rows| && terms.Some? {
      ReturnPostings(s, before, t, terms.value.1, terms.value.0);
    }
    db.Begin(start);
    error := ProcessReturn(db, t, terms);
    after := ExecutionIsARun(db, s, before);
  }

  /** An action on a reachable database without faults: on a reviewable row in reach, a rejection rejects, an
      approval in Analyzing pays out, and an approval in Validating is turned away. */
  method ReviewSettles(
    db: Database, t: TransferId, approve: bool, reason: Code, override: Contribution, scope: Option<CorrespondentId>,
    ghost start: Proc, ghost s: System, ghost before: seq<Action>)
    returns (error: Option<Error>, ghost after: seq<Action>)
    requires db.reliable && Reachable(s, before, db.Snapshot())
    requires start.Operator? && start.opc == OLoad && start.t == t && start.approve == approve
    requires start.reason == reason && start.override == override && start.scope == scope
    modifies db`rows, db`events, db`ledger, db`worker, db`start, db`origin, db`choices
    ensures before <= after && Reachable(s, after, db.Snapshot()) && |db.rows| == |old(db.rows)|
    ensures t < |old(db.rows)| ==>
      var row := old(db.rows)[t];
      var mayAct := row.state == Validating || (row.state == Analyzing && row.reviewReason.Some?);
      var acts := mayAct && (scope == None || row.correspondent == scope.value);
      && (!acts ==> db.Snapshot() == old(db.Snapshot()) && error.Some?)
      && (acts && !approve ==> db.rows[t].state == Rejected && error == None && db.ledger == old(db.ledger))
      && (acts && approve && row.state == Analyzing ==>
            && db.rows[t].state == FundsPosted && error == None
            && db.ledger
               == old(db.ledger) + Entries(CreditPair(t, row.account, row.omnibus, row.amount), |old(db.ledger)|))
      && (acts && approve && row.state == Validating ==>
            db.rows[t].state == Validating && error == Some(OptimisticLock) && db.ledger == old(db.ledger))
  {
    if t < |db.rows| {
      CreditPosting(s, before, t);
      StateAndEntries(s, before, t);
    }
    db.Begin(start);
    error := PostAction(db, t, approve, reason, override, scope);
    after := ExecutionIsARun(db, s, before);
  }
}
