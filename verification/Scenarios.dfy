/** Runs from the beginning that show what the service does not do: an ineligible deposit is credited, the
    event of a change is lost, a return stays half-way. */
module Scenarios {
  import opened States
  import opened Tables
  import opened Ledger
  import opened Funding
  import opened Operations
  import opened Handlers
  import opened System
  import opened Invariant
  import opened Accounting
  import opened History
  import opened Gate
  import opened Returns

  /** An individual account in the given status, and its omnibus account. */
  function TwoAccounts(status: AccountStatus): Db {
    Db([], [], [], [],
       map[0 := Account(IndividualAccount, status, Some("c")), 1 := Account(OmnibusAccount, Active, Some("c"))],
       map["c" := 1])
  }

  function Beginning(status: AccountStatus): System {
    System(TwoAccounts(status), [], [], [], [])
  }

  const CONFIG := RulesConfig(500, [])
  const NO_MICR := VssAnswer(IqaPass, NoErrorType, None, 100, false)

  /** A deposit of 100 on account 0, and an operator who approves it. */
  function DepositOf100(): Proc {
    Deposit(DLookUp, Detail(0, IndividualAccount, Active, "", 0, 100, CONFIG), 0, NO_MICR, FlagForReview(NoCode))
  }

  function Approver(): Proc {
    Operator(
      OLoad, 0, true, NoCode, Unspecified, None,
      Row(0, 0, "", 0, 0, Requested, None, None, Unspecified, None, None, None))
  }

  const QUIET := Turn(0, NoAnswer, NoFault)
  const APPROVING := Turn(1, NoAnswer, NoFault)
  const OPENING := CREATING + [QUIET]
  const READING := [Begin(Approver()), APPROVING]
  const ASKING := [QUIET, QUIET, Turn(0, Vendor(NO_MICR), NoFault), QUIET]
  const ANALYZING := [QUIET, QUIET]

  /** The operator reads the row in Validating, approves it once it is in Analyzing, and posts the credit. */
  const REVIEWED := OPENING + READING + ASKING + ANALYZING + [APPROVING, APPROVING] + [APPROVING, APPROVING]

  lemma {:induction false} ReviewedRun(status: AccountStatus)
    ensures var s' := Run(Beginning(status), REVIEWED);
      && Initial(Beginning(status))
      && HasEntries(s'.db.ledger, 0, ProvisionalCredit)
      && |s'.captured| == 1 && s'.captured[0].status == status
      && OperatorPosted(s')
  {
    var s, pair := Beginning(status), [APPROVING, APPROVING];
    RunSplits(s, OPENING + READING + ASKING + ANALYZING + pair, pair);
    RunSplits(s, OPENING + READING + ASKING + ANALYZING, pair);
    RunSplits(s, OPENING + READING + ASKING, ANALYZING);
    RunSplits(s, OPENING + READING, ASKING);
    RunSplits(s, OPENING, READING);
    var s1 := Run(s, OPENING);
    OpeningRun(status);
    var s2 := Run(s1, READING);
    ReadingRun(s1, Approver());
    var s3 := Run(s2, ASKING);
    VendorRun(s2, NO_MICR);
    var s4 := Run(s3, ANALYZING);
    AnalyzingRun(s3);
    ApprovingRun(s4);
    PostingRun(Run(s4, pair));
    var l := Run(s, REVIEWED).db.ledger;
    assert l[0].transfer == 0 && l[0].entryType == ProvisionalCredit;
  }

  /** The gate does fail under interleaving: a deposit on an account in COLLECTIONS is credited when
      an operator reads its row in Validating and approves it once it is in Analyzing. */
  lemma {:induction false} StaleApprovalCreditsIneligible() returns (s: System, actions: seq<Action>)
    ensures Initial(s)
    ensures HasEntries(Run(s, actions).db.ledger, 0, ProvisionalCredit)
    ensures |Run(s, actions).captured| == 1 && Run(s, actions).captured[0].status == Collections
  {
    s, actions := Beginning(Collections), REVIEWED;
    ReviewedRun(Collections);
  }

  /** The account is looked up and the row created. */
  lemma {:induction false} OpeningTurns(s: System, start: Proc, config: RulesConfig, status: AccountStatus)
    returns (s3: System)
    requires Initial(s) && start.Deposit? && start.dpc == DLookUp && start.d.account == 0 && start.d.amount == 100
    requires s.db == TwoAccounts(status)
    ensures s3 == Apply(Apply(Apply(s, Begin(start)), Turn(0, Config(config), NoFault)), Turn(0, Clock(0), NoFault))
    ensures s3.db.accounts == s.db.accounts && s3.db.ledger == [] && s3.db.omnibusOf == s.db.omnibusOf
    ensures s3.db.rows == [NewRow(0, 1, "c", 100, 0)]
    ensures |s3.procs| == 1 && s3.procs[0].Deposit? && s3.procs[0].dpc == DSubmitted && s3.procs[0].t == 0
    ensures |s3.captured| == 1 && s3.captured[0].status == status
  {
    var s2 := Apply(Apply(s, Begin(start)), Turn(0, Config(config), NoFault));
    assert s2.procs[0].dpc == DCreate && s2.procs[0].d.omnibus == 1 && s2.procs[0].d.status == status;
    s3 := Apply(s2, Turn(0, Clock(0), NoFault));
  }

  /** A deposit is created. */
  const CREATING := [Begin(DepositOf100()), Turn(0, Config(CONFIG), NoFault), Turn(0, Clock(0), NoFault), QUIET]

  /** What four actions have come to: a new row, and its deposit about to move it to Validating. */
  predicate Created(s: System, status: AccountStatus) {
    && s.db.accounts == TwoAccounts(status).accounts && s.db.ledger == []
    && |s.db.rows| == 1 && s.db.rows[0].state == Requested && SameOrigin(s.db.rows[0], NewRow(0, 1, "c", 100, 0))
    && |s.procs| == 1 && s.procs[0].Deposit? && s.procs[0].dpc == DValidate && s.procs[0].t == 0
    && |s.captured| == 1 && s.captured[0].status == status
  }

  lemma {:induction false} CreatingRun(status: AccountStatus)
    ensures Created(Run(Beginning(status), CREATING), status)
  {
    var s := Beginning(status);
    var s3 := OpeningTurns(s, DepositOf100(), CONFIG, status);
    var s4 := Apply(s3, QUIET);
    QuietTurn(s3, 0, NoAnswer, s3.procs[0]);
    RunFour(
      s, CREATING[0], CREATING[1], CREATING[2], QUIET, Apply(s, CREATING[0]), Apply(Apply(s, CREATING[0]), CREATING[1]),
      s3, s4);
  }

  /** The fifth moves the row to Validating. */
  lemma {:induction false} OpeningRun(status: AccountStatus)
    ensures var s' := Run(Beginning(status), OPENING);
      && s'.db.accounts == TwoAccounts(status).accounts && s'.db.ledger == []
      && |s'.db.rows| == 1 && s'.db.rows[0].state == Validating && SameOrigin(s'.db.rows[0], NewRow(0, 1, "c", 100, 0))
      && |s'.procs| == 1 && s'.procs[0].Deposit? && s'.procs[0].dpc == DValidateEvent && s'.procs[0].t == 0
      && |s'.captured| == 1 && s'.captured[0].status == status
  {
    CreatingRun(status);
    var s4 := Run(Beginning(status), CREATING);
    WinningTurn(s4, 0, NoAnswer, s4.procs[0]);
    RunOne(Beginning(status), CREATING, QUIET, Apply(s4, QUIET));
  }

  lemma {:induction false} RunOne(s: System, actions: seq<Action>, a: Action, s': System)
    requires s' == Apply(Run(s, actions), a)
    ensures Run(s, actions + [a]) == s'
  {
    RunOneMore(s, actions, a);
  }

  lemma {:induction false} RunTwo(s: System, a: Action, b: Action, s1: System, s2: System)
    requires s1 == Apply(s, a) && s2 == Apply(s1, b)
    ensures Run(s, [a, b]) == s2
  {
    RunOne(s, [], a, s1);
    assert [] + [a] == [a];
    RunOne(s, [a], b, s2);
    assert [a] + [b] == [a, b];
  }

  lemma {:induction false} RunFour(
    s: System, a: Action, b: Action, c: Action, d: Action, s1: System, s2: System, s3: System, s4: System)
    requires s1 == Apply(s, a) && s2 == Apply(s1, b) && s3 == Apply(s2, c) && s4 == Apply(s3, d)
    ensures Run(s, [a, b, c, d]) == s4
  {
    RunTwo(s, a, b, s1, s2);
    RunTwo(s2, c, d, s3, s4);
    RunSplits(s, [a, b], [c, d]);
    assert [a, b] + [c, d] == [a, b, c, d];
  }

  /** A turn without fault at a call that touches neither ledger nor states. */
  lemma {:induction false} QuietTurn(s: System, pid: nat, answer: Answer, p: Proc)
    requires pid < |s.procs| && s.procs[pid] == p
    requires var call := NextCall(p);
      (call.WriteEvent? && call.t < |s.db.rows|) || call.SetVssResults? || call.AskVendor?
    ensures var s', r := Apply(s, Turn(pid, answer, NoFault)), Perform(s.db, NextCall(p), answer).1;
      && s'.procs == s.procs[pid := Resume(p, r)]
      && s'.captured == s.captured && s'.db.ledger == s.db.ledger && s'.db.accounts == s.db.accounts
      && |s'.db.rows| == |s.db.rows|
      && (forall t: TransferId :: t < |s.db.rows| ==>
            s'.db.rows[t].state == s.db.rows[t].state && SameOrigin(s'.db.rows[t], s.db.rows[t]))
      && (NextCall(p).WriteEvent? || NextCall(p).SetVssResults? ==> r == Done)
      && (NextCall(p).AskVendor? && answer.Vendor? ==> r == VendorSays(answer.answer))
  {
  }

  /** A turn without fault that wins its update. */
  lemma {:induction false} WinningTurn(s: System, pid: nat, answer: Answer, p: Proc)
    requires pid < |s.procs| && s.procs[pid] == p
    requires NextCall(p).UpdateState? && LockHolds(s.db, NextCall(p).t, NextCall(p).from)
    ensures var s', call := Apply(s, Turn(pid, answer, NoFault)), NextCall(p);
      && s'.procs == s.procs[pid := Resume(p, Done)]
      && s'.captured == s.captured && s'.db.ledger == s.db.ledger && s'.db.accounts == s.db.accounts
      && s'.db.rows == s.db.rows[call.t := s.db.rows[call.t].(state := call.to)]
  {
  }

  /** Two actions: an operator reads the row. */
  lemma {:induction false} ReadingRun(s: System, operator: Proc)
    requires |s.procs| == 1 && |s.db.rows| == 1 && s.db.rows[0].state == Validating
    requires operator.Operator? && operator.opc == OLoad && operator.t == 0 && operator.scope == None
    ensures var s' := Run(s, [Begin(operator), Turn(1, NoAnswer, NoFault)]);
      && s'.db == s.db && s'.captured == s.captured && |s'.procs| == 2 && s'.procs[0] == s.procs[0]
      && s'.procs[1] == operator.(opc := OAction, read := s.db.rows[0])
  {
    var a, b := Begin(operator), Turn(1, NoAnswer, NoFault);
    RunTwo(s, a, b, Apply(s, a), Apply(Apply(s, a), b));
  }

  /** What the deposit's later turns leave alone. */
  predicate Undisturbed(s: System, s': System) {
    && s'.db.accounts == s.db.accounts && s'.db.ledger == s.db.ledger && s'.captured == s.captured
    && |s'.procs| == 2 && |s.procs| == 2 && s'.procs[1] == s.procs[1]
    && |s'.db.rows| == 1 && |s.db.rows| == 1 && SameOrigin(s'.db.rows[0], s.db.rows[0])
  }

  /** Four actions: the deposit asks the vendor. */
  lemma {:induction false} VendorRun(s: System, vendor: VssAnswer)
    requires |s.procs| == 2 && |s.db.rows| == 1 && s.db.rows[0].state == Validating
    requires s.procs[0].Deposit? && s.procs[0].dpc == DValidateEvent && s.procs[0].t == 0
    ensures var t := Turn(0, NoAnswer, NoFault); var s' := Run(s, [t, t, Turn(0, Vendor(vendor), NoFault), t]);
      && Undisturbed(s, s') && s'.db.rows[0].state == Validating
      && s'.procs[0] == s.procs[0].(dpc := DStoreResult, answer := vendor)
  {
    var t, v := Turn(0, NoAnswer, NoFault), Turn(0, Vendor(vendor), NoFault);
    var s1 := Apply(s, t);
    var s2 := Apply(s1, t);
    QuietTurn(s, 0, NoAnswer, s.procs[0]);
    QuietTurn(s1, 0, NoAnswer, s1.procs[0]);
    assert s2.procs[0].dpc == DVendor;
    var s3 := Apply(s2, v);
    QuietTurn(s2, 0, Vendor(vendor), s2.procs[0]);
    assert s3.procs[0].dpc == DVendorResult;
    QuietTurn(s3, 0, NoAnswer, s3.procs[0]);
    RunFour(s, t, t, v, t, s1, s2, s3, Apply(s3, t));
  }

  /** Two actions: the deposit goes on to Analyzing. */
  lemma {:induction false} AnalyzingRun(s: System)
    requires |s.procs| == 2 && |s.db.rows| == 1 && s.db.rows[0].state == Validating
    requires s.procs[0].Deposit? && s.procs[0].dpc == DStoreResult && s.procs[0].t == 0
    requires s.procs[0].answer.iqa == IqaPass && !s.procs[0].answer.duplicate
    ensures var t := Turn(0, NoAnswer, NoFault); var s' := Run(s, [t, t]);
      && Undisturbed(s, s') && s'.db.rows[0].state == Analyzing
  {
    var t := Turn(0, NoAnswer, NoFault);
    var s1 := Apply(s, t);
    QuietTurn(s, 0, NoAnswer, s.procs[0]);
    assert s1.procs[0].dpc == DAnalyze;
    WinningTurn(s1, 0, NoAnswer, s1.procs[0]);
    RunTwo(s, t, t, s1, Apply(s1, t));
  }

  /** The operator may go on: it has read the row that is there. */
  predicate OperatorAt(s: System, opc: OperatorPc) {
    && |s.procs| == 2 && |s.db.rows| == 1 && s.db.ledger == []
    && s.procs[1].Operator? && s.procs[1].opc == opc && s.procs[1].t == 0 && s.procs[1].approve
    && s.procs[1].override == Unspecified
    && var row := s.procs[1].read;
       ValidAmount(row.amount) && row.account in s.db.accounts && row.omnibus in s.db.accounts
  }

  /** The operator has posted the credit of the one row. */
  predicate OperatorPosted(s: System) {
    && |s.procs| == 2 && |s.db.rows| == 1 && s.db.rows[0].state == Approved
    && s.procs[1].Operator? && s.procs[1].opc == OPosted && s.procs[1].t == 0
    && |s.db.ledger| == 2
    && s.db.ledger[0].entryType == ProvisionalCredit && s.db.ledger[1].entryType == ProvisionalCredit
  }

  /** Two actions: the operator approves. */
  lemma {:induction false} ApprovingRun(s: System)
    requires OperatorAt(s, OAction) && s.db.rows[0].state == Analyzing
    ensures var t := Turn(1, NoAnswer, NoFault); var s' := Run(s, [t, t]);
      OperatorAt(s', OApproveEvent) && s'.db.rows[0].state == Approved && s'.captured == s.captured
  {
    var t := Turn(1, NoAnswer, NoFault);
    var s1 := Apply(s, t);
    QuietTurn(s, 1, NoAnswer, s.procs[1]);
    assert s1.procs[1].opc == OApprove;
    WinningTurn(s1, 1, NoAnswer, s1.procs[1]);
    RunTwo(s, t, t, s1, Apply(s1, t));
  }

  /** Two actions: the operator posts. */
  lemma {:induction false} PostingRun(s: System)
    requires OperatorAt(s, OApproveEvent) && s.db.rows[0].state == Approved
    ensures var t := Turn(1, NoAnswer, NoFault); var s' := Run(s, [t, t]);
      && s'.captured == s.captured && OperatorPosted(s')
      && |s'.db.ledger| == 2 && s'.db.ledger[0].transfer == 0 && s'.db.ledger[0].entryType == ProvisionalCredit
      && s'.db.ledger[1].entryType == ProvisionalCredit
  {
    var t := Turn(1, NoAnswer, NoFault);
    QuietTurn(s, 1, NoAnswer, s.procs[1]);
    FirstPosting(Apply(s, t));
    RunTwo(s, t, t, Apply(s, t), Apply(Apply(s, t), t));
  }

  lemma {:induction false} FirstPosting(s: System)
    requires |s.procs| == 2 && |s.db.rows| == 1 && s.db.ledger == []
    requires s.procs[1].Operator? && s.procs[1].opc == OPost && s.procs[1].t == 0
    requires var row := s.procs[1].read;
      ValidAmount(row.amount) && row.account in s.db.accounts && row.omnibus in s.db.accounts
    ensures var s' := Apply(s, Turn(1, NoAnswer, NoFault));
      && s'.captured == s.captured && s'.db.rows == s.db.rows && s'.db.accounts == s.db.accounts
      && s'.procs == s.procs[1 := s.procs[1].(opc := OPosted)]
      && |s'.db.ledger| == 2 && s'.db.ledger[0].transfer == 0 && s'.db.ledger[0].entryType == ProvisionalCredit
      && s'.db.ledger[1].entryType == ProvisionalCredit
  {
    var call := NextCall(s.procs[1]);
    assert Flatten([]) == [];
    NewPairCommits(1, s.db.accounts.Keys, [], call.pair);
    PostTurn(s, 1, NoAnswer, NoFault, call);
  }

  // ---- a lost event ----

  /** The reply to its move to Validating is lost: the row is in Validating, and nothing tells of it nor
      ever will. */
  lemma {:induction false} AuditEventGoesMissing(more: seq<Action>)
    ensures var run := CREATING + [Turn(0, NoAnswer, ReplyLost)];
      var e := Event(0, StateChanged(Requested, Validating));
      && Initial(Beginning(Active))
      && |Run(Beginning(Active), run).db.rows| == 1 && Run(Beginning(Active), run).db.rows[0].state == Validating
      && Lost(Run(Beginning(Active), run), e) && Lost(Run(Beginning(Active), run + more), e)
  {
    CreatingRun(Active);
    LostReplyLosesEvent(Beginning(Active), CREATING, 0, NoAnswer, more);
  }

  // ---- a return that stays half-way ----

  const FUNDED := REVIEWED + [APPROVING, APPROVING]

  /** The operator notes the posting and moves the row on. */
  lemma {:induction false} FundingRun(s: System)
    requires OperatorPosted(s)
    ensures var s' := Run(s, [APPROVING, APPROVING]);
      && |s'.db.rows| == 1 && s'.db.rows[0].state == FundsPosted && !HasEntries(s'.db.ledger, 0, Reversal)
  {
    var s1 := Apply(s, APPROVING);
    QuietTurn(s, 1, NoAnswer, s.procs[1]);
    assert s1.procs[1].opc == OFundsPosted;
    WinningTurn(s1, 1, NoAnswer, s1.procs[1]);
    RunTwo(s, APPROVING, APPROVING, s1, Apply(s1, APPROVING));
    NoReversalYet(s.db.ledger);
  }

  lemma {:induction false} NoReversalYet(l: seq<Entry>)
    requires |l| == 2 && l[0].entryType == ProvisionalCredit && l[1].entryType == ProvisionalCredit
    ensures !HasEntries(l, 0, Reversal)
  {
  }

  /** With a fee of zero, and no fault anywhere, a return of a funded deposit posts the reversal, is turned
      away at the fee, and is never completed. */
  lemma {:induction false} ZeroFeeLeavesHalfReturn(more: seq<Action>)
    returns (half: seq<Action>, pid: nat)
    ensures var rows := Run(Beginning(Active), FUNDED).db.rows;
      0 < |rows| && half == FUNDED + HalfReturn(pid, 0, rows[0], 0, 1)
    ensures Initial(Beginning(Active)) && 0 < |Run(Beginning(Active), half).db.rows|
    ensures var db := Run(Beginning(Active), half).db;
      && db.rows[0].state == FundsPosted
      && HasEntries(db.ledger, 0, Reversal) && !HasEntries(db.ledger, 0, Fee)
    ensures var db := Run(Beginning(Active), half + [Turn(pid, NoAnswer, NoFault)] + more).db;
      0 < |db.rows| && db.rows[0].state != Returned
  {
    var mid := Run(Beginning(Active), FUNDED);
    ReviewedRun(Active);
    RunSplits(Beginning(Active), REVIEWED, [APPROVING, APPROVING]);
    FundingRun(Run(Beginning(Active), REVIEWED));
    pid := |mid.procs|;
    half := FUNDED + HalfReturn(pid, 0, mid.db.rows[0], 0, 1);
    UnpayableFeeLeavesHalfReturn(Beginning(Active), FUNDED, 0, 0, 1, NoAnswer, NoFault, more);
  }
}
