/** Returns racing acknowledgements: a return updates its row on the strength of the state it read first,
    and in between an acknowledgement may complete the row. */
module Races {
  import opened States
  import opened Tables
  import opened Ledger
  import opened Operations
  import opened Handlers
  import opened System
  import opened Invariant
  import opened Accounting
  import opened History
  import opened Returns
  import opened Acknowledgement
  import opened BatchLinks

  /** A return that has read a completed row: the row has not gone back. */
  ghost predicate ReadOk(s: System, p: Proc) {
    p.Return? && !p.rpc.RLoad? && !p.rpc.RHalt? && p.read.state == Completed ==>
      p.t < |s.db.rows| && (s.db.rows[p.t].state == Completed || s.db.rows[p.t].state == Returned)
  }

  ghost predicate ReadsOk(s: System) {
    && Inv(s) && FinishersOk(s)
    && forall pid :: 0 <= pid < |s.procs| ==> ReadOk(s, s.procs[pid])
  }

  lemma {:induction false} ReturnReads(s: System, p: Proc, r: Reply)
    requires p.Return? && ReadOk(s, p)
    requires p.rpc.RLoad? && r.TheTransfer? ==> p.t < |s.db.rows| && s.db.rows[p.t] == r.row
    ensures ReadOk(s, AfterReturn(p, r))
  {
  }

  lemma {:induction false} ReadAfterReply(s: System, s': System, p: Proc, r: Reply)
    requires ReadOk(s', p) && ReplyTells(s, s', p, r)
    ensures ReadOk(s', Resume(p, r))
  {
    match p
    case Deposit(_, _, _, _, _) =>
    case Operator(_, _, _, _, _, _, _) =>
    case Return(_, _, _, _, _) => ReturnReads(s', p, r);
    case Acknowledge(_, _, _, _, _, _) =>
  }

  lemma {:induction false} ApplyKeepsReads(s: System, a: Action)
    requires ReadsOk(s) && Inv(Apply(s, a)) && FinishersOk(Apply(s, a))
    ensures ReadsOk(Apply(s, a))
  {
    var s' := Apply(s, a);
    ApplySettles(s, a);
    forall pid | 0 <= pid < |s'.procs| ensures ReadOk(s', s'.procs[pid]) {
      if a.Turn? && a.pid == pid {
        assert ReadOk(s, s.procs[pid]);
        TurnReplies(s, pid, a.answer, a.fault);
        ReadAfterReply(s, s', s.procs[pid], Execute(s.db, NextCall(s.procs[pid]), a.answer, a.fault).1);
      } else if pid < |s.procs| {
        assert ReadOk(s, s.procs[pid]) && s'.procs[pid] == s.procs[pid];
      }
    }
  }

  lemma {:induction false} RunKeepsReads(s: System, actions: seq<Action>)
    requires Initial(s)
    ensures ReadsOk(Run(s, actions))
  {
    RunKeepsFinishers(s, actions);
    if actions != [] {
      RunKeepsReads(s, actions[..|actions| - 1]);
      RunLast(s, actions);
      ApplyKeepsReads(Run(s, actions[..|actions| - 1]), actions[|actions| - 1]);
    }
  }

  /** At its last update a return finds the row as it read it, or completed in the meantime. */
  lemma {:induction false} RowAtLastUpdate(s: System, pid: nat)
    requires ReadsOk(s) && pid < |s.procs| && s.procs[pid].Return? && s.procs[pid].rpc == RReturn
    ensures var p := s.procs[pid];
      && p.t < |s.db.rows| && Posted(s.posted, p.t, Reversal) && Posted(s.posted, p.t, Fee)
      && (s.db.rows[p.t].state == p.read.state
          || (p.read.state == FundsPosted && s.db.rows[p.t].state == Completed))
      && (p.read.state == FundsPosted || p.read.state == Completed)
  {
    assert ProcOk(s, s.procs[pid]) && ReadOk(s, s.procs[pid]);
  }

  /** The outcome of the last update of the return that process pid of s is: the row is Returned, or the
      lock is lost and nothing happens. */
  ghost predicate Updated(s: System, s': System, pid: nat)
    requires pid < |s.procs| && s.procs[pid].Return?
  {
    var p := s.procs[pid];
    && p.t < |s.db.rows| && p.t < |s'.db.rows| && pid < |s'.procs|
    && if s.db.rows[p.t].state == p.read.state then
         && s'.db.rows[p.t].state == Returned && s'.procs[pid] == p.(rpc := RReturnEvent)
         && s'.wins == s.wins + [Win(p.t, p.read.state, Returned, ByReturn, pid)]
       else
         && s'.procs[pid] == p.(rpc := RHalt(Some(OptimisticLock))) && s'.db == s.db && s'.wins == s.wins
         && Stranded(s', p.t, {})
  }

  /** The last update of a return that no fault meets. */
  lemma {:induction false} LastUpdate(s: System, pid: nat, answer: Answer)
    requires ReadsOk(s) && pid < |s.procs| && s.procs[pid].Return? && s.procs[pid].rpc == RReturn
    ensures Updated(s, Apply(s, Turn(pid, answer, NoFault)), pid)
  {
    var p, s' := s.procs[pid], Apply(s, Turn(pid, answer, NoFault));
    RowAtLastUpdate(s, pid);
    assert s.posted + [] == s.posted && s.wins + [] == s.wins;
    forall k | 0 <= k < |s'.procs| && k != pid ensures !Finishing(s'.procs[k], p.t) {
      assert s'.procs[k] == s.procs[k] && Finishing(p, p.t);
    }
  }

  /** A completed row whose return nobody can finish stays completed. */
  lemma {:induction false} CompletedThroughout(s: System, actions: seq<Action>, t: TransferId)
    requires Inv(s) && Stranded(s, t, {}) && s.db.rows[t].state == Completed
    ensures var s' := Run(s, actions); t < |s'.db.rows| && s'.db.rows[t].state == Completed
  {
    if actions != [] {
      var before, a := actions[..|actions| - 1], actions[|actions| - 1];
      CompletedThroughout(s, before, t);
      StrandedThroughout(s, actions, t, {});
      RunLast(s, actions);
      RunKeepsInv(s, before);
      ApplySettles(Run(s, before), a);
    }
  }

  /** What the last update leaves behind for good. */
  ghost predicate LastUpdateLeaves(before: System, after: System, end: System, pid: nat)
    requires pid < |before.procs| && before.procs[pid].Return?
  {
    var p := before.procs[pid];
    && p.t < |before.db.rows| && p.t < |after.db.rows| && p.t < |end.db.rows| && pid < |after.procs|
    && (after.db.rows[p.t].state == Returned <==> before.db.rows[p.t].state == p.read.state)
    && (after.db.rows[p.t].state == Returned ==> end.db.rows[p.t].state == Returned)
    && (after.db.rows[p.t].state != Returned ==>
          && p.read.state == FundsPosted && before.db.rows[p.t].state == Completed
          && after.procs[pid] == p.(rpc := RHalt(Some(OptimisticLock)))
          && HasEntries(end.db.ledger, p.t, Reversal) && HasEntries(end.db.ledger, p.t, Fee)
          && end.db.rows[p.t].state == Completed)
  }

  lemma {:induction false} UpdatedThen(s: System, s': System, pid: nat, more: seq<Action>)
    requires ReadsOk(s) && pid < |s.procs| && s.procs[pid].Return? && s.procs[pid].rpc == RReturn
    requires Inv(s') && Evolves(s, s') && Updated(s, s', pid)
    ensures LastUpdateLeaves(s, s', Run(s', more), pid)
  {
    var t := s.procs[pid].t;
    RowAtLastUpdate(s, pid);
    if s'.db.rows[t].state == Returned {
      TerminalThroughout(s', more, t);
    } else {
      CompletedThroughout(s', more, t);
      PairsStay(s, s', more, t);
    }
  }

  lemma {:induction false} PairsStay(s: System, s': System, more: seq<Action>, t: TransferId)
    requires Inv(s') && Evolves(s, s') && Posted(s.posted, t, Reversal) && Posted(s.posted, t, Fee)
    ensures HasEntries(Run(s', more).db.ledger, t, Reversal) && HasEntries(Run(s', more).db.ledger, t, Fee)
  {
    var end := Run(s', more);
    RecordsThroughRun(s', more);
    RunKeepsInv(s', more);
    PostedStays(s.posted, end.posted, t, Reversal);
    PostedStays(s.posted, end.posted, t, Fee);
    EntriesMeanPosted(end.posted, t, Reversal);
    EntriesMeanPosted(end.posted, t, Fee);
  }

  lemma {:induction false} WinsGrow(s: System, a: Action)
    ensures s.wins <= Apply(s, a).wins
  {
  }

  /** Pairs and updates once recorded stay so, and accounts stay known. */
  lemma {:induction false} RecordsThroughRun(s: System, actions: seq<Action>)
    requires Inv(s)
    ensures s.posted <= Run(s, actions).posted && s.wins <= Run(s, actions).wins
    ensures Run(s, actions).db.accounts.Keys == s.db.accounts.Keys
  {
    if actions != [] {
      var before := actions[..|actions| - 1];
      RecordsThroughRun(s, before);
      RunKeepsInv(s, before);
      ApplyKeepsInv(Run(s, before), actions[|actions| - 1]);
      WinsGrow(Run(s, before), actions[|actions| - 1]);
      RunLast(s, actions);
    }
  }

  /** From any reachable state, the last update of a return that no fault meets: the row becomes Returned
      exactly when it is still in the state that the return has read.  Otherwise it was read FundsPosted and
      has been completed since: the reversal and the fee are posted, the return ends there without having
      looked at the account, and the row stays Completed whatever happens next, other returns included. */
  lemma {:induction false} LastUpdateExactly(
    s: System, first: seq<Action>, pid: nat, answer: Answer, more: seq<Action>)
    requires Initial(s) && pid < |Run(s, first).procs|
    requires var p := Run(s, first).procs[pid]; p.Return? && p.rpc == RReturn
    ensures var turn := first + [Turn(pid, answer, NoFault)];
      LastUpdateLeaves(Run(s, first), Run(s, turn), Run(s, turn + more), pid)
  {
    var a := Turn(pid, answer, NoFault);
    RunKeepsReads(s, first);
    RunOneMore(s, first, a);
    RunSplits(s, first + [a], more);
    LastUpdate(Run(s, first), pid, answer);
    ApplyKeepsInv(Run(s, first), a);
    UpdatedThen(Run(s, first), Run(s, first + [a]), pid, more);
  }

  // ---- a whole return ----

  /** The turns of the return, none of which fails; the fee terms are what it is told when it asks. */
  function ReturnTurn(pid: nat, fee: int, feeAccount: AccountId): Action {
    Turn(pid, FeeTerms(fee, feeAccount), NoFault)
  }

  /** Whoever else acts, and in whatever way: the process takes no turn but these. */
  predicate FaultFree(actions: seq<Action>, turn: Action)
    requires turn.Turn?
  {
    forall i :: 0 <= i < |actions| && actions[i].Turn? && actions[i].pid == turn.pid ==> actions[i] == turn
  }

  predicate Reversing(s: System, pid: nat) {
    pid < |s.procs| && s.procs[pid].Return? && s.procs[pid].rpc == RReversal
  }

  /** When the process posts its reversal there is none yet. */
  ghost predicate FindsNoReversal(s: System, actions: seq<Action>, pid: nat, t: TransferId) {
    actions == [] ||
    ( && FindsNoReversal(s, actions[..|actions| - 1], pid, t)
      && var before, a := Run(s, actions[..|actions| - 1]), actions[|actions| - 1];
         (a.Turn? && a.pid == pid && Reversing(before, pid) ==> !HasEntries(before.db.ledger, t, Reversal)))
  }

  predicate IsCompletion(w: Win, t: TransferId) {
    w.t == t && w.from == FundsPosted && w.to == Completed && w.actor == BySettlement
  }

  /** An acknowledgement has completed the transfer since the nth update. */
  ghost predicate Overtaken(wins: seq<Win>, n: nat, t: TransferId) {
    exists i :: n <= i < |wins| && IsCompletion(wins[i], t)
  }

  /** The process has moved the transfer to Returned since the nth update. */
  ghost predicate Finished(wins: seq<Win>, n: nat, t: TransferId, from: State, pid: nat) {
    exists i :: n <= i < |wins| && wins[i] == Win(t, from, Returned, ByReturn, pid)
  }

  lemma {:induction false} NewsAppend(wins: seq<Win>, w: Win, n: nat, t: TransferId, from: State, pid: nat)
    requires n <= |wins|
    ensures Overtaken(wins + [w], n, t) <==> Overtaken(wins, n, t) || IsCompletion(w, t)
    ensures Finished(wins + [w], n, t, from, pid)
            <==> Finished(wins, n, t, from, pid) || w == Win(t, from, Returned, ByReturn, pid)
  {
    var all := wins + [w];
    assert all[|wins|] == w;
    if Overtaken(wins, n, t) {
      var i :| n <= i < |wins| && IsCompletion(wins[i], t);
      assert all[i] == wins[i];
    }
    if Finished(wins, n, t, from, pid) {
      var i :| n <= i < |wins| && wins[i] == Win(t, from, Returned, ByReturn, pid);
      assert all[i] == wins[i];
    }
  }

  /** The return under way: the read row, and the terms once they are known. */
  datatype Course = Course(pid: nat, t: TransferId, n: nat, read: State, fee: int, feeAccount: AccountId)

  predicate IsPosted(state: State) {
    state == FundsPosted || state == Completed
  }

  predicate Payable(db: Db, c: Course) {
    ValidAmount(c.fee) && c.feeAccount in db.accounts
  }

  /** Where the return stands; `clear` when it has found no reversal so far. */
  ghost predicate OnCourse(s: System, c: Course, clear: bool) {
    && c.pid < |s.procs| && c.n <= |s.wins| && c.t < |s.db.rows|
    && var p := s.procs[c.pid];
    && p.Return? && p.t == c.t && !p.rpc.RLoad?
    && (p.rpc.RHalt? ==> Ended(s, c, clear))
    && (!p.rpc.RHalt? ==> IsPosted(c.read) && clear && p.read.state == c.read)
    && (p.rpc.RReversal? || p.rpc.RFee? || p.rpc.RReturn? ==> p.fee == c.fee && p.feeAccount == c.feeAccount)
    && (IsEarly(p.rpc) ==> !Finished(s.wins, c.n, c.t, c.read, c.pid))
    && (p.rpc.RFee? ==> !Posted(s.posted, c.t, Fee))
    && (p.rpc.RReturn? ==> Payable(s.db, c))
    && (!IsEarly(p.rpc) && !p.rpc.RHalt? ==> Succeeded(s, c))
  }

  predicate IsEarly(pc: ReturnPc) {
    pc.RReceived? || pc.RFeeTerms? || pc.RReversal? || pc.RFee? || pc.RReturn?
  }

  ghost predicate Succeeded(s: System, c: Course) {
    && c.t < |s.db.rows| && s.db.rows[c.t].state == Returned
    && Finished(s.wins, c.n, c.t, c.read, c.pid) && Payable(s.db, c)
  }

  /** How a return that no fault meets can end. */
  ghost predicate Ended(s: System, c: Course, clear: bool) {
    if Finished(s.wins, c.n, c.t, c.read, c.pid) then IsPosted(c.read) && clear && Succeeded(s, c)
    else IsPosted(c.read) && clear ==>
      Stranded(s, c.t, {}) && (Payable(s.db, c) ==> Overtaken(s.wins, c.n, c.t))
  }

  // ---- the steps of others ----

  /** A turn of another process adds at most one update, its own, and at most the pair that it asked for. */
  lemma {:induction false} RecordsAfter(s: System, a: Action)
    ensures var s' := Apply(s, a);
      && (s'.wins == s.wins
          || (a.Turn? && |s'.wins| == |s.wins| + 1 && s'.wins == s.wins + [s'.wins[|s.wins|]]
              && s'.wins[|s.wins|].pid == a.pid))
      && (s'.posted == s.posted
          || (a.Turn? && a.pid < |s.procs| && NextCall(s.procs[a.pid]).Post?
              && s'.posted == s.posted + [NextCall(s.procs[a.pid]).pair]))
  {
    assert s.wins + [] == s.wins && s.posted + [] == s.posted;
  }

  lemma {:induction false} FeesOnlyByFinishers(p: Proc)
    ensures NextCall(p).Post? && NextCall(p).pair.kind == Fee ==> Finishing(p, NextCall(p).pair.transfer)
  {
    match p
    case Deposit(_, _, _, _, _) =>
    case Operator(_, _, _, _, _, _, _) =>
    case Return(_, _, _, _, _) =>
    case Acknowledge(_, _, _, _, _, _) =>
  }

  /** Nobody else posts the fee of a return under way. */
  lemma {:induction false} FeeIsLeftToIt(s: System, a: Action, pid: nat, t: TransferId)
    requires FinishersOk(s) && pid < |s.procs| && Finishing(s.procs[pid], t) && !(a.Turn? && a.pid == pid)
    requires !Posted(s.posted, t, Fee)
    ensures !Posted(Apply(s, a).posted, t, Fee)
  {
    RecordsAfter(s, a);
    if a.Turn? && a.pid < |s.procs| && NextCall(s.procs[a.pid]).Post? {
      var q := s.procs[a.pid];
      FeesOnlyByFinishers(q);
      PostedAppend(s.posted, NextCall(q).pair, t, Fee);
    }
  }

  /** What no action undoes. */
  ghost predicate Lasts(s: System, s': System, t: TransferId) {
    && |s.db.rows| <= |s'.db.rows| && s'.db.accounts.Keys == s.db.accounts.Keys
    && (t < |s.db.rows| && s.db.rows[t].state == Returned ==> s'.db.rows[t].state == Returned)
    && (Stranded(s, t, {}) ==> Stranded(s', t, {}))
  }

  lemma {:induction false} LastsThroughAction(s: System, a: Action, t: TransferId)
    requires Inv(s)
    ensures Lasts(s, Apply(s, a), t)
  {
    ApplyKeepsInv(s, a);
    if t < |s.db.rows| && s.db.rows[t].state == Returned {
      TerminalStays(s, a, t);
    }
    if Stranded(s, t, {}) {
      ApplyKeepsStranded(s, a, t, {});
    }
  }

  /** What others may change for the return. */
  ghost predicate Beside(s: System, s': System, c: Course) {
    && c.pid < |s.procs| && c.pid < |s'.procs| && s'.procs[c.pid] == s.procs[c.pid]
    && s.wins <= s'.wins && Lasts(s, s', c.t)
    && (Finished(s'.wins, c.n, c.t, c.read, c.pid) <==> Finished(s.wins, c.n, c.t, c.read, c.pid))
    && (Overtaken(s.wins, c.n, c.t) ==> Overtaken(s'.wins, c.n, c.t))
    && (Finishing(s.procs[c.pid], c.t) && !Posted(s.posted, c.t, Fee) ==> !Posted(s'.posted, c.t, Fee))
  }

  lemma {:induction false} OthersActBeside(s: System, a: Action, c: Course)
    requires ReadsOk(s) && c.pid < |s.procs| && c.n <= |s.wins| && !(a.Turn? && a.pid == c.pid)
    ensures Beside(s, Apply(s, a), c)
  {
    var s' := Apply(s, a);
    LastsThroughAction(s, a, c.t);
    RecordsAfter(s, a);
    if s'.wins != s.wins {
      NewsAppend(s.wins, s'.wins[|s.wins|], c.n, c.t, c.read, c.pid);
    }
    if Finishing(s.procs[c.pid], c.t) && !Posted(s.posted, c.t, Fee) {
      FeeIsLeftToIt(s, a, c.pid, c.t);
    }
  }

  lemma {:induction false} BesideStaysOnCourse(s: System, s': System, c: Course, clear: bool)
    requires OnCourse(s, c, clear) && Beside(s, s', c)
    ensures OnCourse(s', c, clear)
  {
  }

  // ---- the steps of the return itself ----

  predicate IsQuiet(pc: ReturnPc) {
    !pc.RReversal? && !pc.RFee? && !pc.RReturn?
  }

  lemma {:induction false} QuietTurns(s: System, pid: nat, a: Action)
    requires pid < |s.procs| && s.procs[pid].Return? && IsQuiet(s.procs[pid].rpc)
    requires a.Turn? && a.pid == pid
    ensures Apply(s, a).wins == s.wins
  {
    assert s.wins + [] == s.wins;
  }

  lemma {:induction false} TermsAreTold(s: System, c: Course)
    requires c.pid < |s.procs| && s.procs[c.pid].Return? && IsQuiet(s.procs[c.pid].rpc)
    ensures var a, p := ReturnTurn(c.pid, c.fee, c.feeAccount), s.procs[c.pid];
      exists r :: Apply(s, a).procs == s.procs[c.pid := AfterReturn(p, r)]
                  && (p.rpc.RFeeTerms? ==> r == TheFee(c.fee, c.feeAccount))
  {
    var a, p := ReturnTurn(c.pid, c.fee, c.feeAccount), s.procs[c.pid];
    var r := Execute(s.db, NextCall(p), a.answer, a.fault).1;
    assert Apply(s, a).procs == s.procs[c.pid := AfterReturn(p, r)];
  }

  lemma {:induction false} QuietlyOnCourse(s: System, s': System, c: Course, clear: bool, r: Reply)
    requires OnCourse(s, c, clear) && IsQuiet(s.procs[c.pid].rpc) && s'.wins == s.wins && Lasts(s, s', c.t)
    requires s'.procs == s.procs[c.pid := AfterReturn(s.procs[c.pid], r)]
    requires s.procs[c.pid].rpc.RFeeTerms? ==> r == TheFee(c.fee, c.feeAccount)
    ensures OnCourse(s', c, clear)
  {
  }

  /** The turns that neither post nor update the state. */
  lemma {:induction false} QuietStep(s: System, c: Course, clear: bool)
    requires ReadsOk(s) && OnCourse(s, c, clear) && IsQuiet(s.procs[c.pid].rpc)
    ensures OnCourse(Apply(s, ReturnTurn(c.pid, c.fee, c.feeAccount)), c, clear)
  {
    var p, a := s.procs[c.pid], ReturnTurn(c.pid, c.fee, c.feeAccount);
    QuietTurns(s, c.pid, a);
    LastsThroughAction(s, a, c.t);
    TermsAreTold(s, c);
    var r :| Apply(s, a).procs == s.procs[c.pid := AfterReturn(p, r)]
             && (p.rpc.RFeeTerms? ==> r == TheFee(c.fee, c.feeAccount));
    QuietlyOnCourse(s, Apply(s, a), c, clear, r);
  }

  /** The reversal goes through exactly when there is none. */
  lemma {:induction false} ReversalOutcome(s: System, pid: nat, answer: Answer)
    requires Inv(s) && pid < |s.procs| && s.procs[pid].Return? && s.procs[pid].rpc.RReversal?
    ensures var p, s' := s.procs[pid], Apply(s, Turn(pid, answer, NoFault));
      && s'.wins == s.wins && s'.db.rows == s.db.rows && s'.db.accounts == s.db.accounts
      && if HasEntries(s.db.ledger, p.t, Reversal) then
           exists error :: s'.procs == s.procs[pid := p.(rpc := RHalt(error))]
         else
           && s'.procs == s.procs[pid := p.(rpc := RFee)]
           && s'.posted == s.posted + [ReversalPair(p.t, p.read)]
  {
    var p := s.procs[pid];
    assert ProcOk(s, p);
    assert NextCall(p).pair == ReversalPair(p.t, s.db.rows[p.t]);
    ReturnPostingsIn(s, p.t, p.feeAccount, p.fee);
    assert s.wins + [] == s.wins;
    var error := ErrorOf(Execute(s.db, NextCall(p), answer, NoFault).1);
    assert HasEntries(s.db.ledger, p.t, Reversal) ==>
      Apply(s, Turn(pid, answer, NoFault)).procs == s.procs[pid := p.(rpc := RHalt(error))];
  }

  /** With the reversal found to be the first, there is no fee either. */
  lemma {:induction false} ReversalStep(s: System, c: Course)
    requires ReadsOk(s) && OnCourse(s, c, true) && s.procs[c.pid].rpc.RReversal?
    ensures OnCourse(Apply(s, ReturnTurn(c.pid, c.fee, c.feeAccount)), c, !HasEntries(s.db.ledger, c.t, Reversal))
  {
    var a := ReturnTurn(c.pid, c.fee, c.feeAccount);
    ReversalOutcome(s, c.pid, a.answer);
    ReversedOnCourse(s, Apply(s, a), c);
  }

  lemma {:induction false} ReversedOnCourse(s: System, s': System, c: Course)
    requires Inv(s) && OnCourse(s, c, true) && s.procs[c.pid].rpc.RReversal?
    requires s'.wins == s.wins && s'.db.rows == s.db.rows && s'.db.accounts == s.db.accounts
    requires var p := s.procs[c.pid];
      if HasEntries(s.db.ledger, p.t, Reversal) then
        exists error :: s'.procs == s.procs[c.pid := p.(rpc := RHalt(error))]
      else
        s'.procs == s.procs[c.pid := p.(rpc := RFee)] && s'.posted == s.posted + [ReversalPair(p.t, p.read)]
    ensures OnCourse(s', c, !HasEntries(s.db.ledger, c.t, Reversal))
  {
    assert Shape(s.db.rows[c.t].state, s.posted, c.t);
    EntriesMeanPosted(s.posted, c.t, Reversal);
    PostedAppend(s.posted, ReversalPair(c.t, s.procs[c.pid].read), c.t, Fee);
  }

  /** The fee goes through exactly when it can be posted at all. */
  lemma {:induction false} FeeStep(s: System, c: Course)
    requires ReadsOk(s) && OnCourse(s, c, true) && s.procs[c.pid].rpc.RFee?
    ensures OnCourse(Apply(s, ReturnTurn(c.pid, c.fee, c.feeAccount)), c, true)
  {
    var p, a := s.procs[c.pid], ReturnTurn(c.pid, c.fee, c.feeAccount);
    var s' := Apply(s, a);
    assert s.wins + [] == s.wins;
    if Payable(s.db, c) {
      assert ProcOk(s, p) && CapturedFits(s, c.t);
      NoneOfKind(s.posted, c.t, Fee);
      NewPairCommits(|s.db.rows|, s.db.accounts.Keys, s.posted, NextCall(p).pair);
    } else {
      FeeRejected(s, p, a.answer, NoFault);
      FeeStrands(s, c.pid, a.answer, NoFault);
    }
  }

  /** What is known of the updates in every reachable state. */
  ghost predicate Recorded(s: System) {
    HistoryOk(s) && CompletionsOk(s)
  }

  lemma {:induction false} CompletedLater(before: System, s: System, t: TransferId, i: nat)
    requires HistoryOk(before) && before.wins <= s.wins && t < |before.db.rows|
    requires before.db.rows[t].state == FundsPosted && i < |s.wins| && s.wins[i].t == t && s.wins[i].to == Completed
    ensures |before.wins| <= i
  {
  }

  /** A row that was FundsPosted and is Completed has been completed since. */
  lemma {:induction false} CompletedSince(before: System, s: System, t: TransferId)
    requires HistoryOk(before) && HistoryOk(s) && CompletionsOk(s) && before.wins <= s.wins
    requires t < |before.db.rows| && t < |s.db.rows|
    requires before.db.rows[t].state == FundsPosted && s.db.rows[t].state == Completed
    ensures Overtaken(s.wins, |before.wins|, t)
  {
    PostedUnlessMoved(s, t);
    assert !WonIn(s.wins, Event(t, StateChanged(FundsPosted, Returned)));
    var i :| 0 <= i < |s.wins| && EventOf(s.wins[i]) == Event(t, StateChanged(FundsPosted, Completed));
    CompletedLater(before, s, t, i);
    assert CompletionOk(s, s.wins[i]);
    assert IsCompletion(s.wins[i], t);
  }

  /** The last update. */
  lemma {:induction false} LastStep(before: System, s: System, c: Course)
    requires ReadsOk(s) && HistoryOk(before) && Recorded(s) && before.wins <= s.wins && c.n == |before.wins|
    requires c.t < |before.db.rows| && before.db.rows[c.t].state == c.read
    requires OnCourse(s, c, true) && s.procs[c.pid].rpc.RReturn?
    ensures OnCourse(Apply(s, ReturnTurn(c.pid, c.fee, c.feeAccount)), c, true)
  {
    var a := ReturnTurn(c.pid, c.fee, c.feeAccount);
    RowAtLastUpdate(s, c.pid);
    LastUpdate(s, c.pid, a.answer);
    ApplyKeepsInv(s, a);
    if s.db.rows[c.t].state != c.read {
      CompletedSince(before, s, c.t);
    }
    UpdatedOnCourse(s, Apply(s, a), c);
  }

  lemma {:induction false} UpdatedOnCourse(s: System, s': System, c: Course)
    requires OnCourse(s, c, true) && s.procs[c.pid].rpc.RReturn? && Updated(s, s', c.pid) && Evolves(s, s')
    requires s.db.rows[c.t].state != c.read ==> Overtaken(s.wins, c.n, c.t)
    ensures OnCourse(s', c, true)
  {
    NewsAppend(s.wins, Win(c.t, c.read, Returned, ByReturn, c.pid), c.n, c.t, c.read, c.pid);
  }

  // ---- the return from its beginning to its end ----

  /** The process is about to read the row, which is in this state at the nth update. */
  ghost predicate Loading(s: System, c: Course) {
    && c.pid < |s.procs| && s.procs[c.pid].Return? && s.procs[c.pid].rpc == RLoad && s.procs[c.pid].t == c.t
    && c.t < |s.db.rows| && s.db.rows[c.t].state == c.read && c.n == |s.wins|
  }

  lemma {:induction false} LoadStep(s: System, c: Course)
    requires Inv(s) && Loading(s, c)
    ensures OnCourse(Apply(s, ReturnTurn(c.pid, c.fee, c.feeAccount)), c, true)
  {
    assert s.wins + [] == s.wins;
  }

  /** One more turn of the return. */
  lemma {:induction false} OwnStep(before: System, s: System, c: Course, clear: bool)
    requires ReadsOk(s) && HistoryOk(before) && Recorded(s) && before.wins <= s.wins && c.n == |before.wins|
    requires c.t < |before.db.rows| && before.db.rows[c.t].state == c.read && OnCourse(s, c, clear)
    ensures OnCourse(
      Apply(s, ReturnTurn(c.pid, c.fee, c.feeAccount)), c,
      clear && (Reversing(s, c.pid) ==> !HasEntries(s.db.ledger, c.t, Reversal)))
  {
    var pc := s.procs[c.pid].rpc;
    if pc.RReversal? {
      ReversalStep(s, c);
    } else if pc.RFee? {
      FeeStep(s, c);
    } else if pc.RReturn? {
      LastStep(before, s, c);
    } else {
      QuietStep(s, c, clear);
    }
  }

  /** One more action of anybody. */
  lemma {:induction false} AnyStep(before: System, s: System, c: Course, clear: bool, a: Action)
    requires ReadsOk(s) && HistoryOk(before) && Recorded(s) && before.wins <= s.wins && c.n == |before.wins|
    requires c.t < |before.db.rows| && before.db.rows[c.t].state == c.read && OnCourse(s, c, clear)
    requires a.Turn? && a.pid == c.pid ==> a == ReturnTurn(c.pid, c.fee, c.feeAccount)
    ensures OnCourse(
      Apply(s, a), c,
      clear && (a.Turn? && a.pid == c.pid && Reversing(s, c.pid) ==> !HasEntries(s.db.ledger, c.t, Reversal)))
  {
    if a.Turn? && a.pid == c.pid {
      OwnStep(before, s, c, clear);
    } else {
      OthersActBeside(s, a, c);
      BesideStaysOnCourse(s, Apply(s, a), c, clear);
    }
  }

  lemma {:induction false} StaysOnCourse(s: System, first: seq<Action>, c: Course, more: seq<Action>)
    requires Initial(s) && Loading(Run(s, first), c)
    requires FaultFree(more, ReturnTurn(c.pid, c.fee, c.feeAccount))
    ensures var s1 := Apply(Run(s, first), ReturnTurn(c.pid, c.fee, c.feeAccount));
      OnCourse(Run(s1, more), c, FindsNoReversal(s1, more, c.pid, c.t))
  {
    var mid, turn := Run(s, first), ReturnTurn(c.pid, c.fee, c.feeAccount);
    var s1 := Apply(mid, turn);
    RunKeepsHistory(s, first);
    if more == [] {
      LoadStep(mid, c);
    } else {
      var init, a := more[..|more| - 1], more[|more| - 1];
      StaysOnCourse(s, first, c, init);
      RunThrough(s, first, turn, init);
      RunKeepsReads(s, first + [turn] + init);
      RunKeepsHistory(s, first + [turn] + init);
      RunKeepsCompletions(s, first + [turn] + init);
      RunLast(s1, more);
      AnyStep(mid, Run(s1, init), c, FindsNoReversal(s1, init, c.pid, c.t), a);
    }
  }

  lemma {:induction false} RunThrough(s: System, first: seq<Action>, a: Action, more: seq<Action>)
    requires Initial(s)
    ensures Run(s, first + [a] + more) == Run(Apply(Run(s, first), a), more)
    ensures Run(s, first).wins <= Run(s, first + [a] + more).wins
  {
    RunOneMore(s, first, a);
    RunSplits(s, first + [a], more);
    RunKeepsInv(s, first + [a]);
    WinsGrow(Run(s, first), a);
    RecordsThroughRun(Run(s, first + [a]), more);
  }

  /** Updates are won once: what the return has moved, no acknowledgement has completed since. */
  lemma {:induction false} FinishedOrOvertaken(before: System, s: System, c: Course)
    requires HistoryOk(before) && HistoryOk(s) && before.wins <= s.wins && c.n == |before.wins|
    requires c.t < |before.db.rows| && before.db.rows[c.t].state == c.read && IsPosted(c.read)
    ensures !(Finished(s.wins, c.n, c.t, c.read, c.pid) && Overtaken(s.wins, c.n, c.t))
  {
    if Finished(s.wins, c.n, c.t, c.read, c.pid) {
      var i :| c.n <= i < |s.wins| && s.wins[i] == Win(c.t, c.read, Returned, ByReturn, c.pid);
      var k := i;
      if c.read == Completed {
        k := LeftFundsPosted(before, c.t);
        assert s.wins[k] == before.wins[k];
      }
      forall j: nat | c.n <= j < |s.wins| ensures !IsCompletion(s.wins[j], c.t) {
        LeftOnce(s, k, j);
      }
    }
  }

  lemma {:induction false} LeftOnce(s: System, i: nat, j: nat)
    requires HistoryOk(s) && i < |s.wins| && j < |s.wins|
    ensures i == j || s.wins[i].t != s.wins[j].t || s.wins[i].from != s.wins[j].from
  {
    if i < j && s.wins[i].t == s.wins[j].t {
      WinsClimb(s, i, j);
    } else if j < i && s.wins[i].t == s.wins[j].t {
      WinsClimb(s, j, i);
    }
  }

  /** The update that took a completed row out of FundsPosted. */
  lemma {:induction false} LeftFundsPosted(s: System, t: TransferId) returns (k: nat)
    requires HistoryOk(s) && t < |s.db.rows| && s.db.rows[t].state == Completed
    ensures k < |s.wins| && s.wins[k].t == t && s.wins[k].from == FundsPosted
  {
    PostedUnlessMoved(s, t);
    var to := if WonIn(s.wins, Event(t, StateChanged(FundsPosted, Completed))) then Completed else Returned;
    k :| 0 <= k < |s.wins| && EventOf(s.wins[k]) == Event(t, StateChanged(FundsPosted, to));
  }

  /** A return none of whose calls fails, in every interleaving with any other processes and any faults of
      theirs, from reading the row to its end.  It moves the row to Returned exactly when it found the row
      FundsPosted or Completed, it found no reversal, its fee can be posted, and no acknowledgement has
      completed the row since it was read.  With the first two given, these last two decide whether the row
      is Returned at all. */
  lemma {:induction false} ReturnsUnlessOvertaken(s: System, first: seq<Action>, c: Course, more: seq<Action>)
    requires Initial(s) && Loading(Run(s, first), c)
    requires FaultFree(more, ReturnTurn(c.pid, c.fee, c.feeAccount))
    requires var turn := ReturnTurn(c.pid, c.fee, c.feeAccount); var end := Run(s, first + [turn] + more);
      c.pid < |end.procs| && end.procs[c.pid].Return? && end.procs[c.pid].rpc.RHalt?
    ensures var turn := ReturnTurn(c.pid, c.fee, c.feeAccount);
      var read, end := Run(s, first + [turn]), Run(s, first + [turn] + more);
      var clear := IsPosted(c.read) && FindsNoReversal(read, more, c.pid, c.t);
      var goes := Payable(end.db, c) && !Overtaken(end.wins, c.n, c.t);
      && c.t < |end.db.rows|
      && (Finished(end.wins, c.n, c.t, c.read, c.pid) <==> clear && goes)
      && (clear ==> (end.db.rows[c.t].state == Returned <==> goes))
  {
    var turn := ReturnTurn(c.pid, c.fee, c.feeAccount);
    StaysOnCourse(s, first, c, more);
    RunOneMore(s, first, turn);
    RunThrough(s, first, turn, more);
    RunKeepsHistory(s, first);
    RunKeepsHistory(s, first + [turn] + more);
    if IsPosted(c.read) {
      FinishedOrOvertaken(Run(s, first), Run(s, first + [turn] + more), c);
    }
  }
}
