/** The inductive invariant of the interleaved system, and what it says of every reachable state:
    which pairs a transfer may have in which state, and that the ledger is made of exactly those
    pairs.  The assertion at each program point of a handler speaks only of facts that no other
    process can undo: how far the row has come, and which pairs are committed. */
module Invariant {
  import opened States
  import opened Tables
  import opened Ledger
  import opened Funding
  import opened Operations
  import opened Handlers
  import opened System

  ghost predicate Posted(ps: seq<Pair>, t: TransferId, kind: EntryType) {
    exists i :: 0 <= i < |ps| && ps[i].transfer == t && ps[i].kind == kind
  }

  lemma {:induction false} PostedAppend(ps: seq<Pair>, p: Pair, t: TransferId, kind: EntryType)
    ensures Posted(ps + [p], t, kind) <==> Posted(ps, t, kind) || (p.transfer == t && p.kind == kind)
  {
    if Posted(ps, t, kind) {
      var i :| 0 <= i < |ps| && ps[i].transfer == t && ps[i].kind == kind;
      assert (ps + [p])[i] == ps[i];
    }
    assert (ps + [p])[|ps|] == p;
  }

  /** A committed pair carries its row's accounts and amount; only the other side and the amount of
      a fee are free. */
  predicate PairFits(rows: seq<Row>, p: Pair) {
    && p.transfer < |rows|
    && var row := rows[p.transfer];
       match p.kind
       case ProvisionalCredit => p == CreditPair(p.transfer, row.account, row.omnibus, row.amount)
       case Reversal => p == ReversalPair(p.transfer, row)
       case Fee => p.debit == row.account
  }

  /** Which pairs go with which state. */
  ghost predicate Shape(state: State, ps: seq<Pair>, t: TransferId) {
    && (Posted(ps, t, ProvisionalCredit) ==> OnceApproved(state))
    && (OncePosted(state) ==> Posted(ps, t, ProvisionalCredit))
    && (Posted(ps, t, Reversal) ==> OncePosted(state))
    && (Posted(ps, t, Fee) ==> Posted(ps, t, Reversal))
    && (state == Returned ==> Posted(ps, t, Reversal) && Posted(ps, t, Fee))
  }

  predicate CapturedFits(s: System, t: TransferId)
    requires t < |s.db.rows| && t < |s.captured|
  {
    var row, d := s.db.rows[t], s.captured[t];
    && row.account == d.account && row.omnibus == d.omnibus
    && row.correspondent == d.correspondent && row.amount == d.amount
    && ValidAmount(row.amount)
    && d.correspondent in s.db.omnibusOf && s.db.omnibusOf[d.correspondent] == d.omnibus
    && row.account in s.db.accounts && row.omnibus in s.db.accounts
  }

  ghost predicate UniquePairs(ps: seq<Pair>) {
    forall i, j :: 0 <= i < j < |ps| ==> ps[i].transfer != ps[j].transfer || ps[i].kind != ps[j].kind
  }

  ghost predicate TablesOk(s: System) {
    && |s.captured| == |s.db.rows|
    && (forall t: TransferId :: t < |s.db.rows| ==> CapturedFits(s, t))
    && (forall t: TransferId :: t < |s.db.rows| ==> Shape(s.db.rows[t].state, s.posted, t))
    && (forall i :: 0 <= i < |s.posted| ==> PairFits(s.db.rows, s.posted[i]) && ValidAmount(s.posted[i].amount))
    && UniquePairs(s.posted)
    && s.db.ledger == Flatten(s.posted)
  }

  ghost predicate DepositOk(s: System, p: Proc)
    requires p.Deposit?
  {
    if p.dpc.DLookUp? || p.dpc.DHalt? then true
    else if p.dpc.DCreate? then
      p.d.correspondent in s.db.omnibusOf && s.db.omnibusOf[p.d.correspondent] == p.d.omnibus
    else
      && p.t < |s.db.rows| && p.t < |s.captured| && s.captured[p.t] == p.d
      && (p.dpc.DRejectCode? || p.dpc.DReject? || p.dpc.DRejectEvent? ==>
            p.dpc.from == Validating || p.dpc.from == Analyzing)
      && ((p.dpc.DFundingResult? && p.decision.Approve?) || p.dpc.DApprove? ==> DecisionFits(s, p))
      && (p.dpc.DApproveEvent? || p.dpc.DContribution? || p.dpc.DPost? ==>
            DecisionFits(s, p) && OnceApproved(s.db.rows[p.t].state))
      && (p.dpc.DPosted? || p.dpc.DFundsPosted? ==> Posted(s.posted, p.t, ProvisionalCredit))
  }

  predicate DecisionFits(s: System, p: Proc)
    requires p.Deposit?
  {
    && p.decision.Approve?
    && p.d.correspondent in s.db.omnibusOf
    && p.decision.omnibus == s.db.omnibusOf[p.d.correspondent]
  }

  ghost predicate OperatorOk(s: System, p: Proc)
    requires p.Operator?
  {
    p.opc.OLoad? || p.opc.OHalt? ||
    ( && p.t < |s.db.rows| && SameOrigin(p.read, s.db.rows[p.t])
      && (p.opc.OApproveEvent? || p.opc.OPost? ==> OnceApproved(s.db.rows[p.t].state))
      && (p.opc.OPosted? || p.opc.OFundsPosted? ==> Posted(s.posted, p.t, ProvisionalCredit)))
  }

  ghost predicate ReturnOk(s: System, p: Proc)
    requires p.Return?
  {
    p.rpc.RLoad? || p.rpc.RHalt? ||
    ( && p.t < |s.db.rows| && SameOrigin(p.read, s.db.rows[p.t])
      && (p.read.state == FundsPosted || p.read.state == Completed)
      && OncePosted(s.db.rows[p.t].state)
      && (p.rpc.RFee? || p.rpc.RReturn? ==> Posted(s.posted, p.t, Reversal))
      && (p.rpc.RReturn? ==> Posted(s.posted, p.t, Fee)))
  }

  ghost predicate ProcOk(s: System, p: Proc) {
    match p
    case Deposit(_, _, _, _, _) => DepositOk(s, p)
    case Operator(_, _, _, _, _, _, _) => OperatorOk(s, p)
    case Return(_, _, _, _, _) => ReturnOk(s, p)
    case Acknowledge(_, _, _, _, _, _) => true
  }

  ghost predicate Inv(s: System) {
    && TablesOk(s)
    && forall pid :: 0 <= pid < |s.procs| ==> ProcOk(s, s.procs[pid])
  }

  /** What has to hold before a call for the call to keep the tables right. */
  ghost predicate CallOk(s: System, call: Call) {
    match call
    case CreateTransfer(_, omnibus, c, _) => c in s.db.omnibusOf && s.db.omnibusOf[c] == omnibus
    case UpdateState(t, from, to) =>
      && Edge(from, to)
      && (to == FundsPosted ==> Posted(s.posted, t, ProvisionalCredit))
      && (to == Returned ==> Posted(s.posted, t, Reversal) && Posted(s.posted, t, Fee))
    case Post(p) =>
      && PairFits(s.db.rows, p)
      && (p.kind == ProvisionalCredit ==> OnceApproved(s.db.rows[p.transfer].state))
      && (p.kind == Reversal ==> OncePosted(s.db.rows[p.transfer].state))
      && (p.kind == Fee ==> Posted(s.posted, p.transfer, Reversal))
    case _ => true
  }

  /** Everything a program point may rely on only moves forward. */
  ghost predicate Evolves(s: System, s': System) {
    && |s.db.rows| <= |s'.db.rows|
    && (forall t: TransferId :: t < |s.db.rows| ==>
          && SameOrigin(s.db.rows[t], s'.db.rows[t])
          && (OnceApproved(s.db.rows[t].state) ==> OnceApproved(s'.db.rows[t].state))
          && (OncePosted(s.db.rows[t].state) ==> OncePosted(s'.db.rows[t].state)))
    && s.posted <= s'.posted
    && s.captured <= s'.captured
    && s'.db.omnibusOf == s.db.omnibusOf
    && s'.db.accounts.Keys == s.db.accounts.Keys
  }

  lemma {:induction false} PostedStays(ps: seq<Pair>, ps': seq<Pair>, t: TransferId, kind: EntryType)
    requires ps <= ps' && Posted(ps, t, kind)
    ensures Posted(ps', t, kind)
  {
    var i :| 0 <= i < |ps| && ps[i].transfer == t && ps[i].kind == kind;
    assert ps'[i] == ps[i];
  }

  /** No step of another process disturbs a program point. */
  lemma {:induction false} ProcStays(s: System, s': System, p: Proc)
    requires Evolves(s, s') && ProcOk(s, p)
    ensures ProcOk(s', p)
  {
    forall t: TransferId, kind | Posted(s.posted, t, kind) ensures Posted(s'.posted, t, kind) {
      PostedStays(s.posted, s'.posted, t, kind);
    }
  }

  /** Each handler is, at each point, about to make a call that keeps the tables right. */
  lemma {:induction false} CallsAreSafe(s: System, p: Proc)
    requires TablesOk(s) && ProcOk(s, p)
    ensures CallOk(s, NextCall(p))
  {
    match p
    case Deposit(_, _, _, _, _) => DepositCallsAreSafe(s, p);
    case _ =>
  }

  lemma {:induction false} DepositCallsAreSafe(s: System, p: Proc)
    requires p.Deposit? && TablesOk(s) && ProcOk(s, p)
    ensures CallOk(s, DepositCall(p))
  {
    if p.dpc.DPost? { assert CapturedFits(s, p.t); }
  }

  /** The state part of a turn that updates a state. */
  lemma {:induction false} UpdateKeepsTables(s: System, s': System, t: TransferId, from: State, to: State)
    requires TablesOk(s) && CallOk(s, UpdateState(t, from, to)) && LockHolds(s.db, t, from)
    requires s' == s.(db := WithRow(s.db, t, s.db.rows[t].(state := to)), procs := s'.procs, wins := s'.wins)
    ensures TablesOk(s') && Evolves(s, s')
  {
    assert Shape(from, s.posted, t);
    forall u: TransferId | u < |s'.db.rows|
      ensures CapturedFits(s', u) && Shape(s'.db.rows[u].state, s'.posted, u)
    {
      assert CapturedFits(s, u) && Shape(s.db.rows[u].state, s.posted, u);
    }
  }

  lemma {:induction false} PostKeepsTables(s: System, s': System, p: Pair)
    requires TablesOk(s) && CallOk(s, Post(p)) && PostCommits(s.db, p)
    requires s' == s.(
      db := s.db.(ledger := s.db.ledger + Entries(p, |s.db.ledger|)),
      posted := s.posted + [p], procs := s'.procs, wins := s'.wins)
    ensures TablesOk(s') && Evolves(s, s')
  {
    FlattenAppend(s.posted, p);
    CommittedPairIsNew(|s.db.rows|, s.db.accounts.Keys, s.posted, p);
    forall i | 0 <= i < |s.posted| ensures s.posted[i].transfer != p.transfer || s.posted[i].kind != p.kind {
      assert PairFits(s.db.rows, s.posted[i]);
    }
    forall t: TransferId | t < |s'.db.rows|
      ensures CapturedFits(s', t) && Shape(s'.db.rows[t].state, s'.posted, t)
    {
      assert CapturedFits(s, t) && Shape(s.db.rows[t].state, s.posted, t);
      PostedAppend(s.posted, p, t, ProvisionalCredit);
      PostedAppend(s.posted, p, t, Reversal);
      PostedAppend(s.posted, p, t, Fee);
    }
  }

  lemma {:induction false} CreateKeepsTables(s: System, s': System, row: Row, d: Detail)
    requires TablesOk(s)
    requires row.state == Requested && ValidAmount(row.amount)
    requires row.account == d.account && row.omnibus == d.omnibus
    requires row.correspondent == d.correspondent && row.amount == d.amount
    requires d.correspondent in s.db.omnibusOf && s.db.omnibusOf[d.correspondent] == d.omnibus
    requires row.account in s.db.accounts && row.omnibus in s.db.accounts
    requires s' == s.(
      db := s.db.(rows := s.db.rows + [row]), captured := s.captured + [d], procs := s'.procs, wins := s'.wins)
    ensures TablesOk(s') && Evolves(s, s')
  {
    var n := |s.db.rows|;
    assert forall i :: 0 <= i < |s.posted| ==> PairFits(s.db.rows, s.posted[i]) && s.posted[i].transfer < n;
    forall t: TransferId | t < |s'.db.rows|
      ensures CapturedFits(s', t) && Shape(s'.db.rows[t].state, s'.posted, t)
    {
      if t < n {
        assert CapturedFits(s, t) && Shape(s.db.rows[t].state, s.posted, t);
      }
    }
  }

  /** Statements that touch none of the columns and tables the invariant reads. */
  lemma {:induction false} OtherCallsKeepTables(s: System, s': System)
    requires TablesOk(s)
    requires |s'.db.rows| == |s.db.rows|
    requires forall t: TransferId :: t < |s.db.rows| ==>
      SameOrigin(s.db.rows[t], s'.db.rows[t]) && s'.db.rows[t].state == s.db.rows[t].state
    requires s'.db.ledger == s.db.ledger && s'.db.omnibusOf == s.db.omnibusOf
    requires s'.db.accounts.Keys == s.db.accounts.Keys
    requires s'.posted == s.posted && s'.captured == s.captured
    ensures TablesOk(s') && Evolves(s, s')
  {
    forall t: TransferId | t < |s'.db.rows|
      ensures CapturedFits(s', t) && Shape(s'.db.rows[t].state, s'.posted, t)
    {
      assert CapturedFits(s, t) && Shape(s.db.rows[t].state, s.posted, t);
    }
    forall i | 0 <= i < |s'.posted| ensures PairFits(s'.db.rows, s'.posted[i]) {
      assert PairFits(s.db.rows, s.posted[i]);
    }
  }

  /** What a reply tells the caller about the tables after the call. */
  ghost predicate ReplyTells(s: System, s': System, p: Proc, r: Reply) {
    var call := NextCall(p);
    match r
    case Done =>
      && (call.UpdateState? ==> call.t < |s'.db.rows| && s'.db.rows[call.t].state == call.to)
      && (call.Post? ==> Posted(s'.posted, call.pair.transfer, call.pair.kind))
    case TheTransfer(row) => call.GetTransfer? && call.t < |s'.db.rows| && s'.db.rows[call.t] == row
    case Created(t) => t < |s'.db.rows| && t < |s'.captured| && (p.Deposit? ==> s'.captured[t] == p.d)
    case TheAccount(_, _, c, omnibus, _) => c in s'.db.omnibusOf && s'.db.omnibusOf[c] == omnibus
    case FundingSays(d) =>
      call.AskFunding? && (d.Approve? ==>
        call.correspondent in s'.db.omnibusOf && d.omnibus == s'.db.omnibusOf[call.correspondent])
    case _ => true
  }

  /** The calls that neither win an update, commit a pair nor insert a transfer. */
  predicate IsPlain(db: Db, call: Call, answer: Answer) {
    && (call.UpdateState? ==> !LockHolds(db, call.t, call.from))
    && (call.Post? ==> !PostCommits(db, call.pair))
    && (call.CreateTransfer? ==> !Perform(db, call, answer).1.Created?)
  }

  lemma {:induction false} PlainCalls(db: Db, call: Call, answer: Answer)
    requires IsPlain(db, call, answer)
    ensures var db' := Perform(db, call, answer).0;
      && |db'.rows| == |db.rows|
      && (forall t: TransferId :: t < |db.rows| ==>
            SameOrigin(db.rows[t], db'.rows[t]) && db'.rows[t].state == db.rows[t].state)
      && db'.ledger == db.ledger && db'.omnibusOf == db.omnibusOf && db'.accounts.Keys == db.accounts.Keys
  {
  }

  lemma {:induction false} PlainReplies(s: System, s': System, p: Proc, answer: Answer)
    requires IsPlain(s.db, NextCall(p), answer)
    requires s'.db == Perform(s.db, NextCall(p), answer).0
    ensures ReplyTells(s, s', p, Perform(s.db, NextCall(p), answer).1)
  {
    var call := NextCall(p);
    if call.AskFunding? && answer.DuplicateCheck? {
      var c := call.correspondent;
      ApprovesIff(ENGINE_RULES, call.req, answer.dup, if c in s.db.omnibusOf then Some(s.db.omnibusOf[c]) else None);
    }
  }

  /** The three turns that change what the invariant reads, spelled out. */
  lemma {:induction false} UpdateTurn(s: System, pid: nat, answer: Answer, fault: Fault, call: Call)
    requires pid < |s.procs| && call == NextCall(s.procs[pid])
    requires fault != Refused && call.UpdateState? && LockHolds(s.db, call.t, call.from)
    ensures var s' := TakeTurn(s, pid, answer, fault);
      s' == s.(db := WithRow(s.db, call.t, s.db.rows[call.t].(state := call.to)), procs := s'.procs, wins := s'.wins)
  {
  }

  lemma {:induction false} PostTurn(s: System, pid: nat, answer: Answer, fault: Fault, call: Call)
    requires pid < |s.procs| && call == NextCall(s.procs[pid])
    requires fault != Refused && call.Post? && PostCommits(s.db, call.pair)
    ensures var s' := TakeTurn(s, pid, answer, fault);
      s' == s.(
        db := s.db.(ledger := s.db.ledger + Entries(call.pair, |s.db.ledger|)),
        posted := s.posted + [call.pair], procs := s'.procs, wins := s'.wins)
  {
  }

  lemma {:induction false} CreateTurn(s: System, pid: nat, answer: Answer, fault: Fault, p: Proc)
    requires pid < |s.procs| && p == s.procs[pid] && NextCall(p).CreateTransfer?
    requires fault != Refused && Perform(s.db, NextCall(p), answer).1.Created?
    ensures p.Deposit? && p.dpc.DCreate?
    ensures var s', row := TakeTurn(s, pid, answer, fault), Row(p.d.account, p.d.omnibus, p.d.correspondent,
        p.d.amount, answer.now, Requested, None, None, Unspecified, None, None, None);
      && ValidAmount(p.d.amount) && p.d.account in s.db.accounts && p.d.omnibus in s.db.accounts
      && s' == s.(
        db := s.db.(rows := s.db.rows + [row]), captured := s.captured + [p.d], procs := s'.procs, wins := s'.wins)
  {
  }

  lemma {:induction false} PlainTurn(s: System, pid: nat, answer: Answer, fault: Fault)
    requires TablesOk(s) && pid < |s.procs|
    requires fault == Refused || IsPlain(s.db, NextCall(s.procs[pid]), answer)
    ensures TablesOk(TakeTurn(s, pid, answer, fault))
    ensures Evolves(s, TakeTurn(s, pid, answer, fault))
  {
    if fault != Refused {
      PlainCalls(s.db, NextCall(s.procs[pid]), answer);
    }
    OtherCallsKeepTables(s, TakeTurn(s, pid, answer, fault));
  }

  /** A turn keeps the tables right, whatever the answer and the fault. */
  lemma {:induction false} TurnKeepsTables(s: System, pid: nat, answer: Answer, fault: Fault)
    requires Inv(s) && pid < |s.procs|
    ensures TablesOk(TakeTurn(s, pid, answer, fault))
    ensures Evolves(s, TakeTurn(s, pid, answer, fault))
  {
    var p, s' := s.procs[pid], TakeTurn(s, pid, answer, fault);
    var call := NextCall(p);
    CallsAreSafe(s, p);
    if fault == Refused || IsPlain(s.db, call, answer) {
      PlainTurn(s, pid, answer, fault);
    } else if call.UpdateState? {
      UpdateTurn(s, pid, answer, fault, call);
      UpdateKeepsTables(s, s', call.t, call.from, call.to);
    } else if call.Post? {
      PostTurn(s, pid, answer, fault, call);
      PostKeepsTables(s, s', call.pair);
    } else {
      CreateTurn(s, pid, answer, fault, p);
      CreateKeepsTables(s, s', s'.db.rows[|s.db.rows|], p.d);
    }
  }

  /** The reply of a turn is true. */
  lemma {:induction false} TurnReplies(s: System, pid: nat, answer: Answer, fault: Fault)
    requires Inv(s) && pid < |s.procs|
    ensures ReplyTells(s, TakeTurn(s, pid, answer, fault), s.procs[pid],
                       Execute(s.db, NextCall(s.procs[pid]), answer, fault).1)
  {
    var p, s' := s.procs[pid], TakeTurn(s, pid, answer, fault);
    var call := NextCall(p);
    if fault != NoFault {
    } else if IsPlain(s.db, call, answer) {
      PlainReplies(s, s', p, answer);
    } else if call.UpdateState? {
      UpdateTurn(s, pid, answer, fault, call);
    } else if call.Post? {
      PostTurn(s, pid, answer, fault, call);
      PostedAppend(s.posted, call.pair, call.pair.transfer, call.pair.kind);
    } else {
      CreateTurn(s, pid, answer, fault, p);
    }
  }

  /** The process that took the turn is at a program point whose assertion holds. */
  lemma {:induction false} ReplyKeepsProc(s: System, s': System, p: Proc, r: Reply)
    requires ProcOk(s', p) && ReplyTells(s, s', p, r)
    ensures ProcOk(s', Resume(p, r))
  {
    match p
    case Deposit(_, _, _, _, _) => DepositResumes(s, s', p, r);
    case Operator(_, _, _, _, _, _, _) => OperatorResumes(s, s', p, r);
    case Return(_, _, _, _, _) => ReturnResumes(s, s', p, r);
    case Acknowledge(_, _, _, _, _, _) =>
  }

  /** The replies a deposit's assertions depend on. */
  ghost predicate DepositLearns(s: System, p: Proc, r: Reply)
    requires p.Deposit?
  {
    && (p.dpc.DLookUp? && r.TheAccount? ==>
          r.correspondent in s.db.omnibusOf && s.db.omnibusOf[r.correspondent] == r.omnibus)
    && (p.dpc.DCreate? && r.Created? ==> r.t < |s.db.rows| && r.t < |s.captured| && s.captured[r.t] == p.d)
    && (p.dpc.DFunding? && r.FundingSays? && r.decision.Approve? ==>
          p.d.correspondent in s.db.omnibusOf && r.decision.omnibus == s.db.omnibusOf[p.d.correspondent])
    && (p.dpc.DApprove? && r == Done ==> p.t < |s.db.rows| && OnceApproved(s.db.rows[p.t].state))
    && (p.dpc.DPost? && p.decision.Approve? && r == Done ==> Posted(s.posted, p.t, ProvisionalCredit))
  }

  lemma {:induction false} DepositLearned(s: System, s': System, p: Proc, r: Reply)
    requires p.Deposit? && ReplyTells(s, s', p, r)
    ensures DepositLearns(s', p, r)
  {
  }

  lemma {:induction false} DepositMoves(s: System, p: Proc, r: Reply)
    requires p.Deposit? && DepositOk(s, p) && DepositLearns(s, p, r)
    ensures AfterDeposit(p, r).Deposit? && DepositOk(s, AfterDeposit(p, r))
  {
  }

  lemma {:induction false} DepositResumes(s: System, s': System, p: Proc, r: Reply)
    requires p.Deposit? && ProcOk(s', p) && ReplyTells(s, s', p, r)
    ensures ProcOk(s', AfterDeposit(p, r))
  {
    DepositLearned(s, s', p, r);
    DepositMoves(s', p, r);
  }

  lemma {:induction false} OperatorResumes(s: System, s': System, p: Proc, r: Reply)
    requires p.Operator? && ProcOk(s', p) && ReplyTells(s, s', p, r)
    ensures ProcOk(s', AfterOperator(p, r))
  {
  }

  lemma {:induction false} ReturnResumes(s: System, s': System, p: Proc, r: Reply)
    requires p.Return? && ProcOk(s', p) && ReplyTells(s, s', p, r)
    ensures ProcOk(s', AfterReturn(p, r))
  {
  }

  lemma {:induction false} ApplyKeepsInv(s: System, a: Action)
    requires Inv(s)
    ensures Inv(Apply(s, a)) && Evolves(s, Apply(s, a))
  {
    var s' := Apply(s, a);
    if a.Turn? && a.pid < |s.procs| {
      var p := s.procs[a.pid];
      TurnKeepsTables(s, a.pid, a.answer, a.fault);
      TurnReplies(s, a.pid, a.answer, a.fault);
      ProcStays(s, s', p);
      ReplyKeepsProc(s, s', p, Execute(s.db, NextCall(p), a.answer, a.fault).1);
    } else {
      OtherCallsKeepTables(s, s');
    }
    forall pid | 0 <= pid < |s'.procs| ensures ProcOk(s', s'.procs[pid]) {
      if pid < |s.procs| && s'.procs[pid] == s.procs[pid] {
        ProcStays(s, s', s.procs[pid]);
      }
    }
  }

  lemma {:induction false} RunKeepsInv(s: System, actions: seq<Action>)
    requires Initial(s) || Inv(s)
    ensures Inv(Run(s, actions))
  {
    if actions != [] {
      RunKeepsInv(s, actions[..|actions| - 1]);
      ApplyKeepsInv(Run(s, actions[..|actions| - 1]), actions[|actions| - 1]);
    }
  }
}
