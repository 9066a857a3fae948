/** The funding engine: an ordered list of rules run until one objects, then the lookup of the
    omnibus account (internal/funding/engine.go, internal/funding/rules.go), and the vendor-result
    checks that the deposit flow makes on its own (internal/orchestrator/flow.go:125-132). */
module Funding {
  import opened Tables

  datatype RulesConfig = RulesConfig(depositLimit: int, ineligibleTypes: seq<AccountType>)

  /** What the engine would be told of the vendor's analysis, if anything. */
  datatype VssResult = VssResult(micrReadable: bool, ocrAmount: int)

  datatype Request = Request(
    amount: int,
    accountType: AccountType,
    accountStatus: AccountStatus,
    contribution: Contribution,
    config: RulesConfig,
    vss: Option<VssResult>)

  datatype Decision =
    | Approve(omnibus: AccountId, contribution: Contribution)
    | Reject(code: Code)
    | FlagForReview(code: Code)

  datatype Evaluation = Decided(decision: Decision) | DuplicateCheckFailed | NoOmnibus

  /** The duplicate checker: not wired, or its answer. */
  datatype Duplicates = NoChecker | NotSeen | Seen | CheckFailed

  datatype Rule =
    | VssMicrRule
    | VssAmountMismatchRule
    | AccountEligibilityRule
    | DepositLimitRule
    | ContributionTypeRule

  const ENGINE_RULES: seq<Rule> :=
    [VssMicrRule, VssAmountMismatchRule, AccountEligibilityRule, DepositLimitRule, ContributionTypeRule]

  /** The objection of one rule, if any. */
  function Objection(rule: Rule, req: Request): Option<Decision> {
    match rule
    case VssMicrRule =>
      if req.vss.Some? && !req.vss.value.micrReadable then Some(FlagForReview(VssMicrReadFail)) else None
    case VssAmountMismatchRule =>
      if req.vss.Some? && req.vss.value.micrReadable && req.vss.value.ocrAmount != req.amount
      then Some(FlagForReview(VssAmountMismatch)) else None
    case AccountEligibilityRule =>
      if req.accountStatus != Active || req.accountType in req.config.ineligibleTypes
      then Some(Reject(FsAccountIneligible)) else None
    case DepositLimitRule =>
      if req.amount > req.config.depositLimit then Some(Reject(FsOverDepositLimit)) else None
    case ContributionTypeRule => None
  }

  function DefaultContribution(req: Request): Contribution {
    if req.accountType == IraAccount && req.contribution == Unspecified then IndividualContribution
    else req.contribution
  }

  /** The objection of the first rule that has one. */
  function FirstObjection(rules: seq<Rule>, req: Request): Option<Decision> {
    if rules == [] then None
    else if Objection(rules[0], req).Some? then Objection(rules[0], req)
    else FirstObjection(rules[1..], req)
  }

  function EvaluationOf(rules: seq<Rule>, req: Request, dup: Duplicates, omnibus: Option<AccountId>): Evaluation {
    if dup == CheckFailed then DuplicateCheckFailed
    else if dup == Seen then Decided(Reject(FsDuplicateDeposit))
    else
      match FirstObjection(rules, req)
      case Some(d) => Decided(d)
      case None =>
        if omnibus == None then NoOmnibus else Decided(Approve(omnibus.value, DefaultContribution(req)))
  }

  /** The engine's run, as the source writes it: a loop that leaves at the first objection. */
  method Evaluate(rules: seq<Rule>, req: Request, dup: Duplicates, omnibus: Option<AccountId>)
    returns (e: Evaluation)
    ensures e == EvaluationOf(rules, req, dup, omnibus)
    ensures rules == ENGINE_RULES ==> Decides(req, dup, omnibus, e)
  {
    EngineDecides(req, dup, omnibus);
    if dup != NoChecker {
      if dup == CheckFailed {
        return DuplicateCheckFailed;
      }
      if dup == Seen {
        return Decided(Reject(FsDuplicateDeposit));
      }
    }
    var i := 0;
    while i < |rules|
      invariant 0 <= i <= |rules|
      invariant FirstObjection(rules, req) == FirstObjection(rules[i..], req)
    {
      var objection := Objection(rules[i], req);
      if objection.Some? {
        return Decided(objection.value);
      }
      assert rules[i..][1..] == rules[i + 1..];
      i := i + 1;
    }
    if omnibus == None {
      return NoOmnibus;
    }
    return Decided(Approve(omnibus.value, DefaultContribution(req)));
  }

  predicate Approves(e: Evaluation) {
    e.Decided? && e.decision.Approve?
  }

  lemma {:induction false} NoObjectionMeansAllPass(rules: seq<Rule>, req: Request)
    ensures FirstObjection(rules, req) == None <==> forall rule :: rule in rules ==> Objection(rule, req) == None
    ensures FirstObjection(rules, req).Some? ==> !FirstObjection(rules, req).value.Approve?
  {
    if rules != [] {
      NoObjectionMeansAllPass(rules[1..], req);
      assert rules == [rules[0]] + rules[1..];
      assert rules[0] in rules;
      assert forall rule :: rule in rules <==> rule == rules[0] || rule in rules[1..];
    }
  }

  /** The engine approves exactly when no duplicate is seen, every rule passes and the omnibus
      account resolves; it then names that account. */
  lemma {:induction false} ApprovesIff(rules: seq<Rule>, req: Request, dup: Duplicates, omnibus: Option<AccountId>)
    ensures Approves(EvaluationOf(rules, req, dup, omnibus)) <==>
      && (dup == NoChecker || dup == NotSeen)
      && (forall rule :: rule in rules ==> Objection(rule, req) == None)
      && omnibus.Some?
    ensures Approves(EvaluationOf(rules, req, dup, omnibus)) ==>
      EvaluationOf(rules, req, dup, omnibus).decision.omnibus == omnibus.value
  {
    NoObjectionMeansAllPass(rules, req);
  }

  /** Reordering the rules changes no approval: not whether one is given, nor what it says. */
  lemma {:induction false} RuleOrderIsIrrelevant(
    rules: seq<Rule>, other: seq<Rule>, req: Request, dup: Duplicates, omnibus: Option<AccountId>)
    requires multiset(rules) == multiset(other)
    ensures Approves(EvaluationOf(rules, req, dup, omnibus)) <==> Approves(EvaluationOf(other, req, dup, omnibus))
    ensures Approves(EvaluationOf(rules, req, dup, omnibus)) ==>
      EvaluationOf(rules, req, dup, omnibus) == EvaluationOf(other, req, dup, omnibus)
  {
    NoObjectionMeansAllPass(rules, req);
    NoObjectionMeansAllPass(other, req);
    forall rule ensures rule in rules <==> rule in other {
      assert rule in rules <==> rule in multiset(rules);
      assert rule in other <==> rule in multiset(other);
    }
  }

  /** The account was ACTIVE, of an eligible type, and the amount within the limit. */
  predicate Eligible(req: Request) {
    && req.accountStatus == Active
    && req.accountType !in req.config.ineligibleTypes
    && req.amount <= req.config.depositLimit
  }

  /** The production rule list, without a vendor result, approves only eligible requests, never
      flags, and objects only by rejecting. */
  lemma {:induction false} WithoutVendorResult(req: Request, dup: Duplicates, omnibus: Option<AccountId>)
    requires req.vss == None
    ensures EvaluationOf(ENGINE_RULES, req, dup, omnibus).Decided? ==>
      !EvaluationOf(ENGINE_RULES, req, dup, omnibus).decision.FlagForReview?
    ensures Approves(EvaluationOf(ENGINE_RULES, req, dup, omnibus)) <==>
      (dup == NoChecker || dup == NotSeen) && Eligible(req) && omnibus.Some?
  {
    EngineObjection(req);
  }

  /** The five rules unrolled. */
  lemma {:induction false} EngineObjection(req: Request)
    ensures FirstObjection(ENGINE_RULES, req) ==
      if Objection(VssMicrRule, req).Some? then Objection(VssMicrRule, req)
      else if Objection(VssAmountMismatchRule, req).Some? then Objection(VssAmountMismatchRule, req)
      else if Objection(AccountEligibilityRule, req).Some? then Objection(AccountEligibilityRule, req)
      else Objection(DepositLimitRule, req)
  {
    var r := ENGINE_RULES;
    assert r[1..][1..] == r[2..] && r[2..][1..] == r[3..] && r[3..][1..] == r[4..] && r[4..][1..] == [];
    assert FirstObjection(r[4..], req) == None;
    assert FirstObjection(r[3..], req) == Objection(DepositLimitRule, req);
    assert FirstObjection(r[2..], req) ==
      if Objection(AccountEligibilityRule, req).Some? then Objection(AccountEligibilityRule, req)
      else Objection(DepositLimitRule, req);
    assert FirstObjection(r[1..], req) ==
      if Objection(VssAmountMismatchRule, req).Some? then Objection(VssAmountMismatchRule, req)
      else FirstObjection(r[2..], req);
  }

  /** The answers of the engine with the production rules, each with the requests it is given for.  A request
      is barred by its account, over its limit, unreadable or mismatched by a vendor result. */
  predicate Decides(req: Request, dup: Duplicates, omnibus: Option<AccountId>, e: Evaluation) {
    var unseen := dup == NoChecker || dup == NotSeen;
    var unreadable := req.vss.Some? && !req.vss.value.micrReadable;
    var mismatched := req.vss.Some? && req.vss.value.ocrAmount != req.amount;
    var barred := req.accountStatus != Active || req.accountType in req.config.ineligibleTypes;
    var over := req.amount > req.config.depositLimit;
    var fine := unseen && !unreadable && !mismatched && !barred && !over;
    && (e == DuplicateCheckFailed <==> dup == CheckFailed)
    && (e == Decided(Reject(FsDuplicateDeposit)) <==> dup == Seen)
    && (e == Decided(FlagForReview(VssMicrReadFail)) <==> unseen && unreadable)
    && (e == Decided(FlagForReview(VssAmountMismatch)) <==> unseen && !unreadable && mismatched)
    && (e == Decided(Reject(FsAccountIneligible)) <==> unseen && !unreadable && !mismatched && barred)
    && (e == Decided(Reject(FsOverDepositLimit)) <==> unseen && !unreadable && !mismatched && !barred && over)
    && (e == NoOmnibus <==> fine && omnibus == None)
    && (e.Decided? && e.decision.Approve? <==> fine && omnibus.Some?)
    && (e.Decided? && e.decision.Approve? ==>
          && e.decision.omnibus == omnibus.value
          && e.decision.contribution ==
             if req.accountType == IraAccount && req.contribution == Unspecified then IndividualContribution
             else req.contribution)
  }

  /** With the production rules, every request gets the answer meant for it. */
  lemma {:induction false} EngineDecides(req: Request, dup: Duplicates, omnibus: Option<AccountId>)
    ensures Decides(req, dup, omnibus, EvaluationOf(ENGINE_RULES, req, dup, omnibus))
  {
    EngineObjection(req);
  }

  datatype Iqa = IqaPass | IqaFail | IqaOther

  datatype IqaError = NoErrorType | Glare | Blur | OtherErrorType

  /** The vendor's response. */
  datatype VssAnswer = VssAnswer(
    iqa: Iqa,
    iqaError: IqaError,
    micr: Option<Micr>,
    ocrAmount: int,
    duplicate: bool)

  /** The flow's own review reason; the amount check overwrites the MICR check. */
  function InlineReason(answer: VssAnswer, amount: int): Code {
    if answer.ocrAmount != amount then VssAmountMismatch
    else if answer.micr == None || (answer.iqa == IqaPass && answer.micr.value.routing == "") then VssMicrReadFail
    else NoCode
  }

  /** MICR readable, taken as present with a routing number. */
  function AsVssResult(answer: VssAnswer): VssResult {
    VssResult(answer.micr.Some? && answer.micr.value.routing != "", answer.ocrAmount)
  }

  /** The flow's own flagging: ask the engine without the vendor result and check that result itself. */
  predicate InlineApproves(answer: VssAnswer, req: Request, dup: Duplicates, omnibus: Option<AccountId>) {
    && Approves(EvaluationOf(ENGINE_RULES, req.(vss := None), dup, omnibus))
    && InlineReason(answer, req.amount) == NoCode
  }

  /** What the engine would do if it were handed the vendor result. */
  predicate EngineApproves(answer: VssAnswer, req: Request, dup: Duplicates, omnibus: Option<AccountId>) {
    Approves(EvaluationOf(ENGINE_RULES, req.(vss := Some(AsVssResult(answer))), dup, omnibus))
  }

  /** Nothing but the MICR data, the IQA status and the vendor's duplicate flag can stop the request. */
  predicate OtherwiseFine(answer: VssAnswer, req: Request, dup: Duplicates, omnibus: Option<AccountId>) {
    && answer.micr.Some? && answer.ocrAmount == req.amount
    && (dup == NoChecker || dup == NotSeen) && Eligible(req) && omnibus.Some?
  }

  /** The flagging and the engine, request by request. */
  lemma {:induction false} ApprovalsInWords(
    answer: VssAnswer, req: Request, dup: Duplicates, omnibus: Option<AccountId>)
    ensures InlineApproves(answer, req, dup, omnibus) <==>
      OtherwiseFine(answer, req, dup, omnibus) && !(answer.iqa == IqaPass && answer.micr.value.routing == "")
    ensures EngineApproves(answer, req, dup, omnibus) <==>
      OtherwiseFine(answer, req, dup, omnibus) && answer.micr.value.routing != ""
  {
    EngineObjection(req.(vss := None));
    EngineObjection(req.(vss := Some(AsVssResult(answer))));
  }

  /** For answers with IQA pass, the flow's flagging lets through exactly what the engine would approve. */
  lemma {:induction false} FlaggingAgreesOnPass(
    answer: VssAnswer, req: Request, dup: Duplicates, omnibus: Option<AccountId>)
    requires answer.iqa == IqaPass
    ensures InlineApproves(answer, req, dup, omnibus) <==> EngineApproves(answer, req, dup, omnibus)
  {
    ApprovalsInWords(answer, req, dup, omnibus);
  }
}
