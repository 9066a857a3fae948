/** Which return notifications complete, and what becomes of a transfer whose return stopped
    half-way. */
module Returns {
  import opened States
  import opened Tables
  import opened Ledger
  import opened Operations
  import opened Handlers
  import opened System
  import opened Invariant
  import opened Accounting
  import opened History

  /** The process has posted the transfer's reversal and has not yet tried the change to Returned. */
  predicate IsFinishing(p: Proc) {
    p.Return? && (p.rpc.RFee? || p.rpc.RReturn?)
  }

  predicate Finishing(p: Proc, t: TransferId) {
    IsFinishing(p) && p.t == t
  }

  /** The reversal is in the ledger, the row is not Returned, and every process that could still
      finish the return has stopped for good. */
  ghost predicate Stranded(s: System, t: TransferId, stopped: set<nat>) {
    && t < |s.db.rows|
    && s.db.rows[t].state != Returned
    && Posted(s.posted, t, Reversal)
    && (forall pid :: 0 <= pid < |s.procs| && Finishing(s.procs[pid], t) ==> pid in stopped)
  }

  /** The unique key on the investor's side rejects a second pair, whatever the fee account or the
      amount asked for now. */
  lemma {:induction false} SecondPairIsRejected(s: System, p: Pair)
    requires TablesOk(s) && PairFits(s.db.rows, p) && Posted(s.posted, p.transfer, p.kind)
    ensures !PostCommits(s.db, p)
  {
    var i :| 0 <= i < |s.posted| && s.posted[i].transfer == p.transfer && s.posted[i].kind == p.kind;
    assert PairFits(s.db.rows, s.posted[i]);
    if PostCommits(s.db, p) {
      CommittedPairIsNew(|s.db.rows|, s.db.accounts.Keys, s.posted, p);
    }
  }

  /** No other process comes to finish the return. */
  lemma {:induction false} NobodyTakesOver(s: System, p: Proc, answer: Answer, fault: Fault, t: TransferId)
    requires TablesOk(s) && ProcOk(s, p) && Posted(s.posted, t, Reversal) && !Finishing(p, t)
    ensures !Finishing(Resume(p, Execute(s.db, NextCall(p), answer, fault).1), t)
  {
    var r := Execute(s.db, NextCall(p), answer, fault).1;
    if p.Return? && p.t == t && p.rpc.RReversal? {
      SecondPairIsRejected(s, ReversalPair(t, p.read));
      assert r.Failed?;
    }
    FinishersBegin(p, r, t);
  }

  /** A process comes to finish a return only when its reversal is accepted. */
  lemma {:induction false} FinishersBegin(p: Proc, r: Reply, t: TransferId)
    ensures Finishing(Resume(p, r), t) ==> Finishing(p, t) || (p.Return? && p.t == t && p.rpc.RReversal? && r == Done)
  {
    match p
    case Deposit(_, _, _, _, _) =>
    case Operator(_, _, _, _, _, _, _) =>
    case Return(_, _, _, _, _) =>
    case Acknowledge(_, _, _, _, _, _) =>
  }

  lemma {:induction false} ReturnedOnlyByFinishers(s: System, p: Proc)
    requires ProcOk(s, p)
    ensures NextCall(p).UpdateState? && NextCall(p).to == Returned ==> Finishing(p, NextCall(p).t)
  {
    match p
    case Deposit(_, _, _, _, _) =>
    case Operator(_, _, _, _, _, _, _) =>
    case Return(_, _, _, _, _) =>
    case Acknowledge(_, _, _, _, _, _) =>
  }

  lemma {:induction false} ApplyKeepsStranded(s: System, a: Action, t: TransferId, stopped: set<nat>)
    requires Inv(s) && Stranded(s, t, stopped) && (a.Turn? ==> a.pid !in stopped)
    ensures Stranded(Apply(s, a), t, stopped)
  {
    var s' := Apply(s, a);
    ApplyKeepsInv(s, a);
    PostedStays(s.posted, s'.posted, t, Reversal);
    if a.Turn? && a.pid < |s.procs| {
      var p := s.procs[a.pid];
      StatesAfterCall(s.db, NextCall(p), a.answer, a.fault);
      ReturnedOnlyByFinishers(s, p);
      NobodyTakesOver(s, p, a.answer, a.fault, t);
    }
  }

  lemma {:induction false} StrandedThroughout(s: System, actions: seq<Action>, t: TransferId, stopped: set<nat>)
    requires Inv(s) && Stranded(s, t, stopped)
    requires forall i :: 0 <= i < |actions| && actions[i].Turn? ==> actions[i].pid !in stopped
    ensures Stranded(Run(s, actions), t, stopped)
  {
    if actions != [] {
      var n := |actions| - 1;
      StrandedThroughout(s, actions[..n], t, stopped);
      RunKeepsInv(s, actions[..n]);
      ApplyKeepsStranded(Run(s, actions[..n]), actions[n], t, stopped);
    }
  }

  /** A return that fails, or stops, after its reversal is never completed by any number of further
      notifications: the row does not become Returned in any continuation. */
  lemma {:induction false} HalfReturnsNeverComplete(
    s: System, first: seq<Action>, more: seq<Action>, t: TransferId, stopped: set<nat>)
    requires Initial(s) && t < |Run(s, first).db.rows|
    requires HasEntries(Run(s, first).db.ledger, t, Reversal) && Run(s, first).db.rows[t].state != Returned
    requires forall pid :: 0 <= pid < |Run(s, first).procs| && Finishing(Run(s, first).procs[pid], t) ==> pid in stopped
    requires forall i :: 0 <= i < |more| && more[i].Turn? ==> more[i].pid !in stopped
    ensures t < |Run(s, first + more).db.rows| && Run(s, first + more).db.rows[t].state != Returned
  {
    RunKeepsInv(s, first);
    EntriesMeanPosted(Run(s, first).posted, t, Reversal);
    RunSplits(s, first, more);
    StrandedThroughout(Run(s, first), more, t, stopped);
  }

  /** The fee posting of a return goes through exactly when the fee is a valid amount and the fee
      account exists, once the reversal of the same return has gone through; and the reversal goes
      through exactly when there is none yet. */
  lemma {:induction false} ReturnPostings(
    s: System, actions: seq<Action>, t: TransferId, feeAccount: AccountId, fee: int)
    requires Initial(s) && t < |Run(s, actions).db.rows|
    ensures var db := Run(s, actions).db;
      var reversal, feePair := ReversalPair(t, db.rows[t]), FeePair(t, db.rows[t], feeAccount, fee);
      && (PostCommits(db, reversal) <==> !HasEntries(db.ledger, t, Reversal))
      && (PostCommits(db, reversal) ==>
            var db' := db.(ledger := db.ledger + Entries(reversal, |db.ledger|));
            PostCommits(db', feePair) <==> ValidAmount(fee) && feeAccount in db.accounts)
  {
    ReachableTables(s, actions);
    ReturnPostingsIn(Run(s, actions), t, feeAccount, fee);
  }

  lemma {:induction false} ReturnPostingsIn(s: System, t: TransferId, feeAccount: AccountId, fee: int)
    requires TablesOk(s) && t < |s.db.rows|
    ensures var db := s.db;
      var reversal, feePair := ReversalPair(t, db.rows[t]), FeePair(t, db.rows[t], feeAccount, fee);
      && (PostCommits(db, reversal) <==> !HasEntries(db.ledger, t, Reversal))
      && (PostCommits(db, reversal) ==>
            var db' := db.(ledger := db.ledger + Entries(reversal, |db.ledger|));
            PostCommits(db', feePair) <==> ValidAmount(fee) && feeAccount in db.accounts)
  {
    var db, row := s.db, s.db.rows[t];
    var reversal, feePair := ReversalPair(t, row), FeePair(t, row, feeAccount, fee);
    assert CapturedFits(s, t) && Shape(row.state, s.posted, t);
    EntriesMeanPosted(s.posted, t, Reversal);
    if Posted(s.posted, t, Reversal) {
      SecondPairIsRejected(s, reversal);
    } else {
      NoneOfKind(s.posted, t, Reversal);
      NewPairCommits(|db.rows|, db.accounts.Keys, s.posted, reversal);
      var ps := s.posted + [reversal];
      FlattenAppend(s.posted, reversal);
      PostedAppend(s.posted, reversal, t, Fee);
      NoneOfKind(ps, t, Fee);
      if ValidAmount(fee) && feeAccount in db.accounts {
        NewPairCommits(|db.rows|, db.accounts.Keys, ps, feePair);
      }
      if Commits(|db.rows|, db.accounts.Keys, Flatten(ps), Entries(feePair, 2 * |ps|)) {
        CommittedPairIsNew(|db.rows|, db.accounts.Keys, ps, feePair);
      }
    }
  }

  /** The provisional credit of a transfer goes through exactly when it has none yet. */
  lemma {:induction false} CreditPosting(s: System, actions: seq<Action>, t: TransferId)
    requires Initial(s) && t < |Run(s, actions).db.rows|
    ensures var db := Run(s, actions).db;
      PostCommits(db, CreditPair(t, db.rows[t].account, db.rows[t].omnibus, db.rows[t].amount))
      <==> !HasEntries(db.ledger, t, ProvisionalCredit)
  {
    ReachableTables(s, actions);
    var s' := Run(s, actions);
    var row, ps := s'.db.rows[t], s'.posted;
    var credit := CreditPair(t, row.account, row.omnibus, row.amount);
    assert CapturedFits(s', t);
    EntriesMeanPosted(ps, t, ProvisionalCredit);
    if Posted(ps, t, ProvisionalCredit) {
      SecondPairIsRejected(s', credit);
    } else {
      NoneOfKind(ps, t, ProvisionalCredit);
      NewPairCommits(|s'.db.rows|, s'.db.accounts.Keys, ps, credit);
    }
  }

  /** A transfer that is only now inserted has no entries, so its credit goes through. */
  lemma {:induction false} FirstCredit(s: System, actions: seq<Action>, row: Row)
    requires Initial(s) && ValidAmount(row.amount)
    requires row.account in Run(s, actions).db.accounts && row.omnibus in Run(s, actions).db.accounts
    ensures var db := Run(s, actions).db; var t := |db.rows|;
      PostCommits(db.(rows := db.rows + [row]), CreditPair(t, row.account, row.omnibus, row.amount))
  {
    ReachableTables(s, actions);
    var s' := Run(s, actions);
    var t := |s'.db.rows|;
    NewPairCommits(t + 1, s'.db.accounts.Keys, s'.posted, CreditPair(t, row.account, row.omnibus, row.amount));
  }

  lemma {:induction false} NoneOfKind(ps: seq<Pair>, t: TransferId, kind: EntryType)
    requires !Posted(ps, t, kind)
    ensures forall i :: 0 <= i < |ps| ==> ps[i].transfer != t || ps[i].kind != kind
  {
  }

  /** At most one process is finishing the return of a transfer, and it is not Returned yet. */
  ghost predicate FinishersOk(s: System) {
    && (forall i, j :: 0 <= i < j < |s.procs| && IsFinishing(s.procs[i]) && IsFinishing(s.procs[j]) ==>
          s.procs[i].t != s.procs[j].t)
    && (forall i :: 0 <= i < |s.procs| && IsFinishing(s.procs[i]) ==>
          s.procs[i].t < |s.db.rows| && s.db.rows[s.procs[i].t].state != Returned)
  }

  /** Who finishes after a turn: whoever was, or the process whose first reversal went through. */
  lemma {:induction false} FinishersAfterTurn(s: System, pid: nat, answer: Answer, fault: Fault, t: TransferId)
    requires Inv(s) && pid < |s.procs|
    requires Finishing(TakeTurn(s, pid, answer, fault).procs[pid], t)
    ensures Finishing(s.procs[pid], t) || !Posted(s.posted, t, Reversal)
    ensures !NextCall(s.procs[pid]).UpdateState?
  {
    var p := s.procs[pid];
    var r := Execute(s.db, NextCall(p), answer, fault).1;
    assert TakeTurn(s, pid, answer, fault).procs[pid] == Resume(p, r);
    if Posted(s.posted, t, Reversal) && !Finishing(p, t) {
      NobodyTakesOver(s, p, answer, fault, t);
    }
    FinishersComeFromPostings(p, r, t);
  }

  lemma {:induction false} FinishersComeFromPostings(p: Proc, r: Reply, t: TransferId)
    requires Finishing(Resume(p, r), t)
    ensures NextCall(p).Post?
  {
    match p
    case Deposit(_, _, _, _, _) =>
    case Operator(_, _, _, _, _, _, _) =>
    case Return(_, _, _, _, _) =>
    case Acknowledge(_, _, _, _, _, _) =>
  }

  /** A process that was finishing still has the return to itself. */
  lemma {:induction false} FinisherStays(s: System, pid: nat, answer: Answer, fault: Fault, i: nat, t: TransferId)
    requires Inv(s) && FinishersOk(s) && pid < |s.procs| && i < |s.procs| && i != pid && Finishing(s.procs[i], t)
    ensures var s' := TakeTurn(s, pid, answer, fault);
      t < |s'.db.rows| && s'.db.rows[t].state != Returned && !Finishing(s'.procs[pid], t)
  {
    var p := s.procs[pid];
    assert ProcOk(s, s.procs[i]) && !Finishing(p, t);
    StatesAfterCall(s.db, NextCall(p), answer, fault);
    ReturnedOnlyByFinishers(s, p);
    if Finishing(TakeTurn(s, pid, answer, fault).procs[pid], t) {
      FinishersAfterTurn(s, pid, answer, fault, t);
    }
  }

  /** So does a process that has just posted the reversal. */
  lemma {:induction false} FinisherComes(s: System, pid: nat, answer: Answer, fault: Fault, t: TransferId)
    requires Inv(s) && FinishersOk(s) && pid < |s.procs| && Finishing(TakeTurn(s, pid, answer, fault).procs[pid], t)
    ensures var s' := TakeTurn(s, pid, answer, fault);
      t < |s'.db.rows| && s'.db.rows[t].state != Returned
  {
    var p, s' := s.procs[pid], TakeTurn(s, pid, answer, fault);
    ApplyKeepsInv(s, Turn(pid, answer, fault));
    assert ProcOk(s', s'.procs[pid]) && ProcOk(s, p);
    FinishersAfterTurn(s, pid, answer, fault, t);
    StatesAfterCall(s.db, NextCall(p), answer, fault);
    UnreversedIsNotReturned(s, p, t);
  }

  lemma {:induction false} TurnKeepsFinishers(s: System, pid: nat, answer: Answer, fault: Fault)
    requires Inv(s) && FinishersOk(s) && pid < |s.procs|
    ensures FinishersOk(TakeTurn(s, pid, answer, fault))
  {
    var s' := TakeTurn(s, pid, answer, fault);
    forall i | 0 <= i < |s'.procs| && IsFinishing(s'.procs[i])
      ensures s'.procs[i].t < |s'.db.rows| && s'.db.rows[s'.procs[i].t].state != Returned
      ensures i != pid ==> !Finishing(s'.procs[pid], s'.procs[i].t)
    {
      if i == pid {
        FinisherComes(s, pid, answer, fault, s'.procs[i].t);
      } else {
        FinisherStays(s, pid, answer, fault, i, s'.procs[i].t);
      }
    }
  }

  lemma {:induction false} UnreversedIsNotReturned(s: System, p: Proc, t: TransferId)
    requires Inv(s) && ProcOk(s, p) && (Finishing(p, t) || !Posted(s.posted, t, Reversal))
    ensures t < |s.db.rows| && !Posted(s.posted, t, Reversal) ==> s.db.rows[t].state != Returned
  {
    if t < |s.db.rows| {
      assert Shape(s.db.rows[t].state, s.posted, t);
    }
  }

  lemma {:induction false} RunKeepsFinishers(s: System, actions: seq<Action>)
    requires Initial(s)
    ensures Inv(Run(s, actions)) && FinishersOk(Run(s, actions))
  {
    RunKeepsInv(s, actions);
    if actions != [] {
      var before, a := Run(s, actions[..|actions| - 1]), actions[|actions| - 1];
      RunKeepsFinishers(s, actions[..|actions| - 1]);
      if a.Turn? && a.pid < |before.procs| {
        TurnKeepsFinishers(before, a.pid, a.answer, a.fault);
      } else {
        OthersKeepFinishers(before, a);
      }
    }
  }

  lemma {:induction false} OthersKeepFinishers(s: System, a: Action)
    requires FinishersOk(s) && !(a.Turn? && a.pid < |s.procs|)
    ensures FinishersOk(Apply(s, a))
  {
    var s' := Apply(s, a);
    assert |s'.db.rows| == |s.db.rows|;
    forall t: TransferId | t < |s.db.rows| ensures s'.db.rows[t].state == s.db.rows[t].state {
      match a
      case LinkRow(u, _) =>
      case _ =>
    }
    forall i | 0 <= i < |s'.procs| ensures (i < |s.procs| && s'.procs[i] == s.procs[i]) || IsStart(s'.procs[i]) {
    }
    FinishersFrom(s, s');
  }

  lemma {:induction false} FinishersFrom(s: System, s': System)
    requires FinishersOk(s) && |s'.db.rows| == |s.db.rows|
    requires forall t: TransferId :: t < |s.db.rows| ==> s'.db.rows[t].state == s.db.rows[t].state
    requires forall i :: 0 <= i < |s'.procs| ==> (i < |s.procs| && s'.procs[i] == s.procs[i]) || IsStart(s'.procs[i])
    ensures FinishersOk(s')
  {
  }

  /** The fee of the return can be posted. */
  predicate FeePayable(db: Db, p: Proc)
    requires p.Return?
  {
    ValidAmount(p.fee) && p.feeAccount in db.accounts
  }

  /** A return whose configured fee fails the CHECK (zero, say), or whose fee account does not exist, is
      turned away at the fee, and is then never completed by anything. */
  lemma {:induction false} InvalidFeeStrands(
    s: System, first: seq<Action>, pid: nat, answer: Answer, fault: Fault, more: seq<Action>)
    requires Initial(s) && pid < |Run(s, first).procs|
    requires var p := Run(s, first).procs[pid]; p.Return? && p.rpc == RFee && !FeePayable(Run(s, first).db, p)
    ensures var t := Run(s, first).procs[pid].t;
      var s' := Run(s, first + [Turn(pid, answer, fault)] + more);
      && t < |s'.db.rows| && s'.db.rows[t].state != Returned
  {
    var mid, a := Run(s, first), Turn(pid, answer, fault);
    RunKeepsFinishers(s, first);
    assert (first + [a])[..|first|] == first && (first + [a])[|first|] == a;
    assert Run(s, first + [a]) == Apply(mid, a);
    RunSplits(s, first + [a], more);
    RunKeepsInv(s, first + [a]);
    FeeStrands(mid, pid, answer, fault);
    StrandedThroughout(Apply(mid, a), more, mid.procs[pid].t, {});
  }

  lemma {:induction false} FeeStrands(s: System, pid: nat, answer: Answer, fault: Fault)
    requires Inv(s) && FinishersOk(s) && pid < |s.procs|
    requires s.procs[pid].Return? && s.procs[pid].rpc == RFee && !FeePayable(s.db, s.procs[pid])
    ensures Stranded(Apply(s, Turn(pid, answer, fault)), s.procs[pid].t, {})
  {
    var p, s' := s.procs[pid], Apply(s, Turn(pid, answer, fault));
    var t := p.t;
    assert Finishing(p, t) && ProcOk(s, p);
    FeeRejected(s, p, answer, fault);
    StatesAfterCall(s.db, NextCall(p), answer, fault);
    ApplyKeepsInv(s, Turn(pid, answer, fault));
    PostedStays(s.posted, s'.posted, t, Reversal);
    forall k | 0 <= k < |s'.procs| ensures !Finishing(s'.procs[k], t) {
      if k != pid {
        assert s'.procs[k] == s.procs[k];
      }
    }
  }

  lemma {:induction false} FeeRejected(s: System, p: Proc, answer: Answer, fault: Fault)
    requires TablesOk(s) && p.Return? && p.rpc == RFee && !FeePayable(s.db, p)
    ensures Resume(p, Execute(s.db, NextCall(p), answer, fault).1).rpc.RHalt?
  {
    if PostCommits(s.db, NextCall(p).pair) {
      CommittedPairIsNew(|s.db.rows|, s.db.accounts.Keys, s.posted, NextCall(p).pair);
    }
  }

  // ---- a return that stays half-way, from any reachable state ----

  /** The notification arrives, the row is read, the fee terms are found, and the reversal is posted. */
  function HalfReturn(pid: nat, t: TransferId, row: Row, fee: int, feeAccount: AccountId): seq<Action> {
    [Begin(Return(RLoad, t, row, 0, 0)), Turn(pid, NoAnswer, NoFault), Turn(pid, NoAnswer, NoFault),
     Turn(pid, FeeTerms(fee, feeAccount), NoFault), Turn(pid, NoAnswer, NoFault)]
  }

  /** The first turns of a return leave rows and ledger alone. */
  lemma {:induction false} ReturnStarts(s: System, pid: nat, t: TransferId, fee: int, feeAccount: AccountId, p: Proc)
    requires pid == |s.procs| && t < |s.db.rows| && p == Return(RLoad, t, s.db.rows[t], 0, 0)
    requires s.db.rows[t].state == FundsPosted || s.db.rows[t].state == Completed
    ensures var s3 := Apply(Apply(Apply(s, Begin(p)), Turn(pid, NoAnswer, NoFault)), Turn(pid, NoAnswer, NoFault));
      var s4 := Apply(s3, Turn(pid, FeeTerms(fee, feeAccount), NoFault));
      && s4.db.rows == s.db.rows && s4.db.ledger == s.db.ledger && s4.db.accounts == s.db.accounts
      && s4.posted == s.posted && |s4.procs| == |s.procs| + 1
      && s4.procs[pid] == p.(rpc := RReversal, fee := fee, feeAccount := feeAccount)
  {
    var s2 := Apply(Apply(s, Begin(p)), Turn(pid, NoAnswer, NoFault));
    assert s2.procs[pid] == p.(rpc := RReceived) && s2.db == s.db;
    var s3 := Apply(s2, Turn(pid, NoAnswer, NoFault));
    assert s3.procs[pid] == p.(rpc := RFeeTerms) && s3.db.rows == s.db.rows && s3.db.ledger == s.db.ledger;
  }

  lemma {:induction false} ReversalTurn(s: System, pid: nat)
    requires pid < |s.procs| && s.procs[pid].Return? && s.procs[pid].rpc == RReversal
    requires PostCommits(s.db, ReversalPair(s.procs[pid].t, s.procs[pid].read))
    ensures var p := s.procs[pid]; var s' := Apply(s, Turn(pid, NoAnswer, NoFault));
      && s'.db.rows == s.db.rows && s'.db.accounts == s.db.accounts && pid < |s'.procs|
      && s'.db.ledger == s.db.ledger + Entries(ReversalPair(p.t, p.read), |s.db.ledger|)
      && s'.procs[pid] == p.(rpc := RFee)
  {
    PostTurn(s, pid, NoAnswer, NoFault, NextCall(s.procs[pid]));
  }

  lemma {:induction false} RunFive(s: System, a: Action, b: Action, c: Action, d: Action, e: Action)
    ensures Run(s, [a, b, c, d, e]) == Apply(Apply(Apply(Apply(Apply(s, a), b), c), d), e)
  {
    var all := [a, b, c, d, e];
    assert all[..4] == [a, b, c, d] && all[..4][..3] == [a, b, c] && all[..3][..2] == [a, b] && all[..2][..1] == [a];
    assert Run(s, [a]) == Apply(s, a) by { assert [a][..0] == []; }
    assert Run(s, [a, b]) == Apply(Run(s, [a]), b) by { assert [a, b][..1] == [a]; }
    assert Run(s, [a, b, c]) == Apply(Run(s, [a, b]), c) by { assert [a, b, c][..2] == [a, b]; }
    assert Run(s, [a, b, c, d]) == Apply(Run(s, [a, b, c]), d) by { assert [a, b, c, d][..3] == [a, b, c]; }
  }

  /** From any reachable state in which a transfer is posted and unreversed, a return with fee terms that
      cannot be posted gets as far as its reversal, without any fault: the ledger has the reversal and no
      fee, the row is as it was, and whatever happens after the fee is turned away, it is never Returned. */
  lemma {:induction false} UnpayableFeeLeavesHalfReturn(
    s: System, first: seq<Action>, t: TransferId, fee: int, feeAccount: AccountId, answer: Answer, fault: Fault,
    more: seq<Action>)
    requires Initial(s) && t < |Run(s, first).db.rows|
    requires var row := Run(s, first).db.rows[t]; row.state == FundsPosted || row.state == Completed
    requires !HasEntries(Run(s, first).db.ledger, t, Reversal)
    requires !(ValidAmount(fee) && feeAccount in Run(s, first).db.accounts)
    ensures var mid := Run(s, first); var pid := |mid.procs|;
      var half := first + HalfReturn(pid, t, mid.db.rows[t], fee, feeAccount);
      && Run(s, half).db.rows == mid.db.rows
      && HasEntries(Run(s, half).db.ledger, t, Reversal) && !HasEntries(Run(s, half).db.ledger, t, Fee)
      && var end := Run(s, half + [Turn(pid, answer, fault)] + more).db;
         t < |end.rows| && end.rows[t].state != Returned
  {
    var mid := Run(s, first);
    var pid, row := |mid.procs|, mid.db.rows[t];
    var half := HalfReturn(pid, t, row, fee, feeAccount);
    RunSplits(s, first, half);
    RunFive(mid, half[0], half[1], half[2], half[3], half[4]);
    ReturnStarts(mid, pid, t, fee, feeAccount, Return(RLoad, t, row, 0, 0));
    ReturnPostings(s, first, t, feeAccount, fee);
    var s4 := Apply(Apply(Apply(Apply(mid, half[0]), half[1]), half[2]), half[3]);
    ReversalTurn(s4, pid);
    HalfReturnEntries(s, first, t, row);
    InvalidFeeStrands(s, first + half, pid, answer, fault, more);
  }

  /** A posted, unreversed transfer has no fee; with the reversal it still has none. */
  lemma {:induction false} HalfReturnEntries(s: System, first: seq<Action>, t: TransferId, row: Row)
    requires Initial(s) && t < |Run(s, first).db.rows| && row == Run(s, first).db.rows[t]
    requires row.state == FundsPosted || row.state == Completed
    requires !HasEntries(Run(s, first).db.ledger, t, Reversal)
    ensures var l := Run(s, first).db.ledger; var l' := l + Entries(ReversalPair(t, row), |l|);
      HasEntries(l', t, Reversal) && !HasEntries(l', t, Fee)
  {
    StateAndEntries(s, first, t);
    var l := Run(s, first).db.ledger;
    var l' := l + Entries(ReversalPair(t, row), |l|);
    assert l'[|l|].transfer == t && l'[|l|].entryType == Reversal;
    assert forall i :: 0 <= i < |l| ==> l'[i] == l[i];
    assert forall i :: 0 <= i < |l| && l[i].transfer == t ==> l[i].entryType != Fee;
  }
}
