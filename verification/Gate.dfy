/** The funding gate: whose check is it that a credited deposit was eligible when it was created?
    The engine's, except where an operator approves a row it had read in Validating. */
module Gate {
  import opened States
  import opened Tables
  import opened Ledger
  import opened Funding
  import opened Operations
  import opened Handlers
  import opened System
  import opened Invariant
  import opened Accounting
  import opened History

  /** Eligible by the facts captured when the row was created. */
  predicate WasEligible(s: System, t: TransferId) {
    t < |s.captured| && Eligible(RequestOf(s.captured[t]))
  }

  predicate IsStale(w: Win, t: TransferId) {
    w.t == t && w.to == Approved && w.actor == ByOperator(Validating)
  }

  /** The transfer was approved by an operator that had read the row while it was Validating. */
  ghost predicate StaleApproval(wins: seq<Win>, t: TransferId) {
    exists i :: 0 <= i < |wins| && IsStale(wins[i], t)
  }

  ghost predicate Cleared(s: System, t: TransferId) {
    WasEligible(s, t) || StaleApproval(s.wins, t)
  }

  ghost predicate GateProc(s: System, p: Proc) {
    && (p.Deposit? ==>
          && (p.dpc.DFundingResult? && !p.decision.Reject? ==> p.decision.Approve? && WasEligible(s, p.t))
          && (p.dpc.DFlagged? || p.dpc.DReview? || p.dpc.DApprove? ==> p.decision.Approve? && WasEligible(s, p.t)))
    && (p.Operator? && !p.opc.OLoad? && !p.opc.OHalt? ==>
          p.read.state == Validating || (p.read.state == Analyzing && WasEligible(s, p.t)))
  }

  ghost predicate GateOk(s: System) {
    && (forall t: TransferId :: t < |s.db.rows| && OnceApproved(s.db.rows[t].state) ==> Cleared(s, t))
    && (forall t: TransferId :: t < |s.db.rows| && s.db.rows[t].reviewReason.Some? ==> WasEligible(s, t))
    && (forall pid :: 0 <= pid < |s.procs| ==> GateProc(s, s.procs[pid]))
  }

  /** What a turn needs for the gate to stand. */
  ghost predicate GateCall(s: System, p: Proc) {
    var call := NextCall(p);
    && (call.UpdateState? && call.to == Approved ==>
          WasEligible(s, call.t) || ActorOf(p) == ByOperator(Validating))
    && (call.SetReviewReason? ==> WasEligible(s, call.t))
  }

  lemma {:induction false} CallsPassTheGate(s: System, p: Proc)
    requires ProcOk(s, p) && GateProc(s, p)
    ensures GateCall(s, p)
  {
    match p
    case Deposit(_, _, _, _, _) =>
    case Operator(_, _, _, _, _, _, _) =>
    case Return(_, _, _, _, _) =>
    case Acknowledge(_, _, _, _, _, _) =>
  }

  /** What the gate learns from a reply. */
  ghost predicate ReplyClears(s: System, p: Proc, r: Reply) {
    && (r.FundingSays? && p.Deposit? && p.dpc.DFunding? ==>
          !r.decision.FlagForReview? && (r.decision.Approve? ==> Eligible(RequestOf(p.d))))
    && (r.TheTransfer? && p.Operator? && p.opc.OLoad? ==>
          (r.row.reviewReason.Some? ==> WasEligible(s, p.t)))
  }

  lemma {:induction false} RepliesClear(s: System, p: Proc, answer: Answer, fault: Fault)
    requires GateOk(s)
    ensures ReplyClears(s, p, Execute(s.db, NextCall(p), answer, fault).1)
  {
    if p.Deposit? && p.dpc.DFunding? && answer.DuplicateCheck? {
      var c := p.d.correspondent;
      WithoutVendorResult(RequestOf(p.d), answer.dup, if c in s.db.omnibusOf then Some(s.db.omnibusOf[c]) else None);
    }
  }

  lemma {:induction false} DepositPassesOn(s: System, p: Proc, r: Reply)
    requires p.Deposit? && DepositOk(s, p) && GateProc(s, p) && ReplyClears(s, p, r)
    ensures GateProc(s, AfterDeposit(p, r))
  {
  }

  lemma {:induction false} OperatorPassesOn(s: System, p: Proc, r: Reply)
    requires p.Operator? && GateProc(s, p) && ReplyClears(s, p, r)
    ensures GateProc(s, AfterOperator(p, r))
  {
  }

  lemma {:induction false} GateResumes(s: System, p: Proc, r: Reply)
    requires ProcOk(s, p) && GateProc(s, p) && ReplyClears(s, p, r)
    ensures GateProc(s, Resume(p, r))
  {
    match p
    case Deposit(_, _, _, _, _) => DepositPassesOn(s, p, r);
    case Operator(_, _, _, _, _, _, _) => OperatorPassesOn(s, p, r);
    case Return(_, _, _, _, _) =>
    case Acknowledge(_, _, _, _, _, _) =>
  }

  /** Which rows get a review reason. */
  ghost predicate ReasonsOnlyBy(db: Db, db': Db, call: Call) {
    && |db.rows| <= |db'.rows|
    && (forall t: TransferId :: t < |db.rows| && !(call.SetReviewReason? && call.t == t) ==>
          db'.rows[t].reviewReason == db.rows[t].reviewReason)
    && (forall t: TransferId :: |db.rows| <= t < |db'.rows| ==> db'.rows[t].reviewReason == None)
  }

  lemma {:induction false} ReasonWhenPerformed(db: Db, call: Call, answer: Answer, t: TransferId)
    ensures var rows := Perform(db, call, answer).0.rows;
      |db.rows| <= |rows|
      && (t < |rows| && !(call.SetReviewReason? && call.t == t) ==>
            rows[t].reviewReason == if t < |db.rows| then db.rows[t].reviewReason else None)
  {
  }

  lemma {:induction false} ReasonsWhenPerformed(db: Db, call: Call, answer: Answer)
    ensures ReasonsOnlyBy(db, Perform(db, call, answer).0, call)
  {
    var rows := Perform(db, call, answer).0.rows;
    forall t: TransferId
      ensures |db.rows| <= |rows|
      ensures t < |rows| && !(call.SetReviewReason? && call.t == t) ==>
                rows[t].reviewReason == if t < |db.rows| then db.rows[t].reviewReason else None
    {
      ReasonWhenPerformed(db, call, answer, t);
    }
    ReasonWhenPerformed(db, call, answer, |db.rows|);
    assert call.SetReviewReason? ==> |rows| == |db.rows|;
  }

  lemma {:induction false} ReasonsAfterCall(db: Db, call: Call, answer: Answer, fault: Fault)
    ensures ReasonsOnlyBy(db, Execute(db, call, answer, fault).0, call)
  {
    ReasonsWhenPerformed(db, call, answer);
  }

  lemma {:induction false} ClearedStays(s: System, s': System, t: TransferId)
    requires s.captured <= s'.captured && s.wins <= s'.wins
    ensures WasEligible(s, t) ==> WasEligible(s', t)
    ensures Cleared(s, t) ==> Cleared(s', t)
  {
    if StaleApproval(s.wins, t) {
      var i :| 0 <= i < |s.wins| && IsStale(s.wins[i], t);
      assert IsStale(s'.wins[i], t);
    }
  }

  lemma {:induction false} GateProcStays(s: System, s': System, p: Proc)
    requires s.captured <= s'.captured && GateProc(s, p)
    ensures GateProc(s', p)
  {
  }

  /** The rows after a turn stay cleared. */
  lemma {:induction false} RowsStayCleared(s: System, pid: nat, answer: Answer, fault: Fault, t: TransferId)
    requires Inv(s) && GateOk(s) && pid < |s.procs| && t < |TakeTurn(s, pid, answer, fault).db.rows|
    ensures var s' := TakeTurn(s, pid, answer, fault);
      && (OnceApproved(s'.db.rows[t].state) ==> Cleared(s', t))
      && (s'.db.rows[t].reviewReason.Some? ==> WasEligible(s', t))
  {
    var p, s' := s.procs[pid], TakeTurn(s, pid, answer, fault);
    var call := NextCall(p);
    CallsAreSafe(s, p);
    CallsPassTheGate(s, p);
    StatesAfterCall(s.db, call, answer, fault);
    ReasonsAfterCall(s.db, call, answer, fault);
    ClearedStays(s, s', t);
    if call.UpdateState? && call.t == t && fault != Refused && LockHolds(s.db, t, call.from)
       && call.to == Approved && !WasEligible(s, t) {
      var w := Win(t, call.from, call.to, ActorOf(p), pid);
      assert s'.wins[|s.wins|] == w && IsStale(w, t);
    }
  }

  lemma {:induction false} ApplyKeepsGate(s: System, a: Action)
    requires Inv(s) && GateOk(s)
    ensures GateOk(Apply(s, a))
  {
    var s' := Apply(s, a);
    if a.Turn? && a.pid < |s.procs| {
      var p := s.procs[a.pid];
      var r := Execute(s.db, NextCall(p), a.answer, a.fault).1;
      forall t: TransferId | t < |s'.db.rows|
        ensures OnceApproved(s'.db.rows[t].state) ==> Cleared(s', t)
        ensures s'.db.rows[t].reviewReason.Some? ==> WasEligible(s', t)
      {
        RowsStayCleared(s, a.pid, a.answer, a.fault, t);
      }
      RepliesClear(s, p, a.answer, a.fault);
      GateResumes(s, p, r);
      forall pid | 0 <= pid < |s'.procs| ensures GateProc(s', s'.procs[pid]) {
        GateProcStays(s, s', if pid == a.pid then Resume(p, r) else s.procs[pid]);
      }
    } else {
      forall t: TransferId | t < |s.db.rows| && Cleared(s, t) ensures Cleared(s', t) {
        ClearedStays(s, s', t);
      }
      forall pid | 0 <= pid < |s'.procs| ensures GateProc(s', s'.procs[pid]) {
        if pid < |s.procs| { GateProcStays(s, s', s.procs[pid]); }
      }
    }
  }

  lemma {:induction false} RunKeepsGate(s: System, actions: seq<Action>)
    requires Initial(s)
    ensures Inv(Run(s, actions)) && GateOk(Run(s, actions))
  {
    RunKeepsInv(s, actions);
    if actions != [] {
      RunKeepsGate(s, actions[..|actions| - 1]);
      ApplyKeepsGate(Run(s, actions[..|actions| - 1]), actions[|actions| - 1]);
    }
  }

  /** In every interleaving: a transfer with any ledger entry was eligible as captured at creation,
      or an operator approved it on the strength of a row read in Validating. */
  lemma {:induction false} CreditedWereEligibleOrStale(s: System, actions: seq<Action>, t: TransferId, kind: EntryType)
    requires Initial(s) && HasEntries(Run(s, actions).db.ledger, t, kind)
    ensures WasEligible(Run(s, actions), t) || StaleApproval(Run(s, actions).wins, t)
  {
    RunKeepsGate(s, actions);
    EntriesMeanPosted(Run(s, actions).posted, t, kind);
    PostedWereApproved(Run(s, actions), t, kind);
  }

  /** A path on which Approved lies ends in Approved or beyond. */
  lemma {:induction false} PathsThroughApproved(h: seq<State>, k: nat)
    requires IsPath(h) && k < |h| && OnceApproved(h[k])
    ensures OnceApproved(h[|h| - 1])
    decreases |h| - k
  {
    if k < |h| - 1 {
      assert Edge(h[k], h[k + 1]);
      PathsThroughApproved(h, k + 1);
    }
  }

  /** The target of a win lies on the path of its transfer. */
  lemma {:induction false} WinsLieOnPaths(wins: seq<Win>, i: nat)
    requires i < |wins|
    ensures wins[i].to in StatesOf(wins, wins[i].t)
  {
    if i < |wins| - 1 {
      WinsLieOnPaths(wins[..|wins| - 1], i);
    }
  }

  /** A won approval is never taken back: the row is not Rejected later. */
  lemma {:induction false} StaleApprovalsLast(s: System, t: TransferId)
    requires HistoryOk(s) && t < |s.db.rows| && StaleApproval(s.wins, t)
    ensures OnceApproved(s.db.rows[t].state)
  {
    var i :| 0 <= i < |s.wins| && IsStale(s.wins[i], t);
    var h := StatesOf(s.wins, t);
    WinsLieOnPaths(s.wins, i);
    var k :| 0 <= k < |h| && h[k] == Approved;
    assert PathTo(h, s.db.rows[t].state);
    PathsThroughApproved(h, k);
  }

  /** When the gate holds under interleaving, exactly: in every run with faults anywhere, a transfer is
      approved without having been eligible exactly when it was not eligible and an operator won its approval
      on the strength of a row read in Validating. */
  lemma {:induction false} GateHoldsExactly(s: System, actions: seq<Action>, t: TransferId)
    requires Initial(s) && t < |Run(s, actions).db.rows|
    ensures var s' := Run(s, actions);
      (OnceApproved(s'.db.rows[t].state) ==> WasEligible(s', t))
      <==> (StaleApproval(s'.wins, t) ==> WasEligible(s', t))
  {
    RunKeepsGate(s, actions);
    RunKeepsHistory(s, actions);
    var s' := Run(s, actions);
    assert OnceApproved(s'.db.rows[t].state) ==> Cleared(s', t);
    if StaleApproval(s'.wins, t) {
      StaleApprovalsLast(s', t);
    }
  }

  lemma {:induction false} PostedWereApproved(s: System, t: TransferId, kind: EntryType)
    requires TablesOk(s) && Posted(s.posted, t, kind)
    ensures t < |s.db.rows| && OnceApproved(s.db.rows[t].state)
  {
    var i :| 0 <= i < |s.posted| && s.posted[i].transfer == t && s.posted[i].kind == kind;
    assert PairFits(s.db.rows, s.posted[i]);
    assert Shape(s.db.rows[t].state, s.posted, t);
  }

  // ---- handlers one at a time ----

  /** Only the handler begun last takes turns: a handler finishes or stops before the next begins. */
  predicate OneAtATime(s: System, actions: seq<Action>) {
    actions == [] ||
    ( && OneAtATime(s, actions[..|actions| - 1])
      && var a := actions[|actions| - 1];
         (a.Turn? ==> a.pid + 1 >= |Run(s, actions[..|actions| - 1]).procs|))
  }

  /** An operator about to act on a row it read in Validating. */
  predicate ReadValidating(p: Proc) {
    p.Operator? && (p.opc.OAction? || p.opc.OOverride? || p.opc.OApprove?) && p.read.state == Validating
  }

  predicate IsValidating(db: Db, t: TransferId) {
    t < |db.rows| && db.rows[t].state == Validating
  }

  /** The running operator's reading of a Validating row is still true, and nothing stale was won. */
  ghost predicate Current(s: System) {
    && (forall t: TransferId :: !StaleApproval(s.wins, t))
    && (s.procs != [] && ReadValidating(s.procs[|s.procs| - 1]) ==> IsValidating(s.db, s.procs[|s.procs| - 1].t))
  }

  lemma {:induction false} StaleAppend(wins: seq<Win>, more: seq<Win>, t: TransferId)
    requires !StaleApproval(wins, t) && forall i :: 0 <= i < |more| ==> !IsStale(more[i], t)
    ensures !StaleApproval(wins + more, t)
  {
  }

  /** What the newest process read stays true over its own turns. */
  lemma {:induction false} ReadingStaysTrue(s: System, p: Proc, answer: Answer, fault: Fault)
    requires ReadValidating(p) ==> IsValidating(s.db, p.t)
    ensures var (db', r) := Execute(s.db, NextCall(p), answer, fault);
      ReadValidating(Resume(p, r)) ==> IsValidating(db', Resume(p, r).t)
  {
    if p.Operator? {
      StatesAfterCall(s.db, NextCall(p), answer, fault);
    }
  }

  lemma {:induction false} OperatorStaysCurrent(s: System, answer: Answer, fault: Fault)
    requires Inv(s) && Current(s) && s.procs != []
    ensures Current(TakeTurn(s, |s.procs| - 1, answer, fault))
  {
    var pid := |s.procs| - 1;
    var p, s' := s.procs[pid], TakeTurn(s, pid, answer, fault);
    var news := NewWins(s.db, NextCall(p), fault, ActorOf(p), pid);
    OnlyOperatorsGoStale(s, p);
    forall t: TransferId ensures !StaleApproval(s'.wins, t) {
      StaleAppend(s.wins, news, t);
    }
    ReadingStaysTrue(s, p, answer, fault);
  }

  /** An approval by an operator that read Validating finds the row Validating, and so fails. */
  lemma {:induction false} OnlyOperatorsGoStale(s: System, p: Proc)
    requires ProcOk(s, p)
    ensures var call := NextCall(p);
      call.UpdateState? && call.to == Approved && ActorOf(p) == ByOperator(Validating) ==>
        p.Operator? && p.opc.OApprove? && p.read.state == Validating && call.from == Analyzing
  {
    match p
    case Deposit(_, _, _, _, _) =>
    case Operator(_, _, _, _, _, _, _) =>
    case Return(_, _, _, _, _) =>
    case Acknowledge(_, _, _, _, _, _) =>
  }

  lemma {:induction false} OtherActionsStayCurrent(s: System, a: Action)
    requires Current(s) && !(a.Turn? && a.pid < |s.procs|)
    ensures Current(Apply(s, a))
  {
  }

  lemma {:induction false} ApplyStaysCurrent(s: System, a: Action)
    requires Inv(s) && Current(s) && (a.Turn? ==> a.pid + 1 >= |s.procs|)
    ensures Current(Apply(s, a))
  {
    if a.Turn? && a.pid < |s.procs| {
      OperatorStaysCurrent(s, a.answer, a.fault);
    } else {
      OtherActionsStayCurrent(s, a);
    }
  }

  lemma {:induction false} SerialStaysCurrent(s: System, actions: seq<Action>)
    requires Initial(s) && OneAtATime(s, actions)
    ensures Current(Run(s, actions))
  {
    if actions != [] {
      SerialStaysCurrent(s, actions[..|actions| - 1]);
      RunKeepsInv(s, actions[..|actions| - 1]);
      ApplyStaysCurrent(Run(s, actions[..|actions| - 1]), actions[|actions| - 1]);
    }
  }

  /** With handlers one at a time, faults allowed: every transfer with a ledger entry was ACTIVE, of
      an eligible type and within the limit as captured at its creation, whoever approved it. */
  lemma {:induction false} SerialGate(s: System, actions: seq<Action>, t: TransferId, kind: EntryType)
    requires Initial(s) && OneAtATime(s, actions) && HasEntries(Run(s, actions).db.ledger, t, kind)
    ensures t < |Run(s, actions).captured| && t < |Run(s, actions).db.rows|
    ensures var d := Run(s, actions).captured[t];
      && d.status == Active && d.accountType !in d.config.ineligibleTypes && d.amount <= d.config.depositLimit
      && d.account == Run(s, actions).db.rows[t].account && d.amount == Run(s, actions).db.rows[t].amount
  {
    SerialStaysCurrent(s, actions);
    RunKeepsGate(s, actions);
    CreditedWereEligibleOrStale(s, actions, t, kind);
    assert CapturedFits(Run(s, actions), t);
  }
}
