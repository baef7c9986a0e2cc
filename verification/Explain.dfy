/** The cold explainer: the reason for a decision, recovered from a receipt alone, and when
    it is the reason the kernel acted on. */
module Explain {
  import opened Wrappers
  import opened Texts
  import opened Receipts
  import opened Crypto
  import opened Budgets
  import opened Constitution
  import K = Kernel

  // ---------- rules ----------

  datatype ReasonInfo = ReasonInfo(shortName: string, display: string)
  datatype RuleKind = ConstitutionRule | KernelBudget(reason: ReasonInfo) | KernelApproval(reason: ReasonInfo) | UnknownKernel
  datatype RuleEntry = RuleEntry(id: string, matched: bool, kind: RuleKind)

  function FromShortName(s: string): (e: Option<BudgetError>)
  {
    if s == "net_bytes_exhausted" then Some(NetBytesExhausted)
    else if s == "file_writes_exhausted" then Some(FileWritesExhausted)
    else if s == "llm_tokens_exhausted" then Some(LlmTokensExhausted)
    else if s == "wall_time_exhausted" then Some(WallTimeExhausted)
    else if s == "uses_exhausted" then Some(UsesExhausted)
    else if s == "delegation_exceeds_parent" then Some(DelegationExceedsParent)
    else if s == "lease_revoked" then Some(Revoked)
    else None
  }

  function Display(e: BudgetError): string
  {
    match e
    case NetBytesExhausted => "net_bytes budget exhausted"
    case FileWritesExhausted => "file_writes budget exhausted"
    case LlmTokensExhausted => "llm_tokens budget exhausted"
    case WallTimeExhausted => "wall_ms budget exhausted"
    case UsesExhausted => "max_uses budget exhausted"
    case DelegationExceedsParent => "delegated budget exceeds parent's remaining"
    case Revoked => "capability lease has been revoked"
  }

  function BudgetReason(rest: string): ReasonInfo
  {
    match FromShortName(rest)
    case None => ReasonInfo(rest, "")
    case Some(e) => ReasonInfo(rest, Display(e))
  }

  const DENIED_BY_OPERATOR := "denied_by_operator"

  function ApprovalReason(rest: string): ReasonInfo
  {
    ReasonInfo(rest, if rest == DENIED_BY_OPERATOR then "operator denied this action" else "")
  }

  function ClassifyId(id: string): RuleKind
  {
    if StartsWith(id, K.BUDGET_PREFIX) then KernelBudget(BudgetReason(id[|K.BUDGET_PREFIX|..]))
    else if StartsWith(id, K.APPROVAL_PREFIX) then KernelApproval(ApprovalReason(id[|K.APPROVAL_PREFIX|..]))
    else if StartsWith(id, "$") then UnknownKernel
    else ConstitutionRule
  }

  function ClassifyRule(r: RuleRef): RuleEntry { RuleEntry(r.id, r.matched, ClassifyId(r.id)) }

  function ClassifyAll(rs: seq<RuleRef>): (es: seq<RuleEntry>)
    ensures |es| == |rs| && forall i :: 0 <= i < |rs| ==> es[i] == ClassifyRule(rs[i])
  {
    seq(|rs|, i requires 0 <= i < |rs| => ClassifyRule(rs[i]))
  }

  /** What a rule can be blamed as. */
  datatype Cause = ByOperator | ByBudget | ByConstitution | NoCause

  function KindCause(k: RuleKind): Cause
  {
    match k
    case KernelApproval(reason) => if reason.shortName == DENIED_BY_OPERATOR then ByOperator else NoCause
    case KernelBudget(_) => ByBudget
    case ConstitutionRule => ByConstitution
    case UnknownKernel => NoCause
  }

  // ---------- the verdict ----------

  datatype Verdict =
    | ExplainedAllowed(rulesConsulted: nat)
    | ExplainedConstitution(ruleId: string)
    | ExplainedBudget(reason: ReasonInfo)
    | ExplainedAsProposed
    | ExplainedApproved
    | ExplainedPending(rulesConsulted: nat)
    | ExplainedOperator

  predicate Blames(e: RuleEntry, cause: Cause) { e.matched && KindCause(e.kind) == cause }

  function FirstOf(es: seq<RuleEntry>, cause: Cause): (r: Option<RuleEntry>)
    ensures r.Some? ==> r.value in es && Blames(r.value, cause)
    ensures r.None? <==> forall e :: e in es ==> !Blames(e, cause)
  {
    if es == [] then None
    else if Blames(es[0], cause) then Some(es[0])
    else FirstOf(es[1..], cause)
  }

  function LastOf(es: seq<RuleEntry>, cause: Cause): (r: Option<RuleEntry>)
    ensures r.Some? ==> r.value in es && Blames(r.value, cause)
    ensures r.None? <==> forall e :: e in es ==> !Blames(e, cause)
  {
    if es == [] then None
    else if Blames(es[|es| - 1], cause) then Some(es[|es| - 1])
    else
      assert es == es[..|es| - 1] + [es[|es| - 1]];
      LastOf(es[..|es| - 1], cause)
  }

  /** A denial is blamed on the operator, else on the last budget rule, else on the first
      constitution rule, else on the caller. */
  function VerdictOf(d: Decision, es: seq<RuleEntry>): Verdict
  {
    match d
    case Allowed => ExplainedAllowed(|es|)
    case Approved => ExplainedApproved
    case Pending => ExplainedPending(|es|)
    case Denied =>
      if FirstOf(es, ByOperator).Some? then ExplainedOperator
      else if LastOf(es, ByBudget).Some? then ExplainedBudget(LastOf(es, ByBudget).value.kind.reason)
      else if FirstOf(es, ByConstitution).Some? then ExplainedConstitution(FirstOf(es, ByConstitution).value.id)
      else ExplainedAsProposed
  }

  /** No entry in the range can be blamed. */
  predicate NoneIn(es: seq<RuleEntry>, lo: nat, hi: nat, cause: Cause)
    requires lo <= hi <= |es|
  {
    forall j :: lo <= j < hi ==> !Blames(es[j], cause)
  }

  lemma {:induction false} FirstFound(es: seq<RuleEntry>, i: nat, cause: Cause)
    requires i < |es| && NoneIn(es, 0, i, cause) && Blames(es[i], cause)
    ensures FirstOf(es, cause) == Some(es[i])
  {
    if i > 0 {
      FirstFound(es[1..], i - 1, cause);
    }
  }

  lemma {:induction false} LastFound(es: seq<RuleEntry>, i: nat, cause: Cause)
    requires i < |es| && NoneIn(es, i + 1, |es|, cause) && Blames(es[i], cause)
    ensures LastOf(es, cause) == Some(es[i])
  {
    if i < |es| - 1 {
      LastFound(es[..|es| - 1], i, cause);
    }
  }

  /** The three searches, each leaving at the first hit. */
  method ComputeVerdict(d: Decision, es: seq<RuleEntry>) returns (v: Verdict)
    ensures v == VerdictOf(d, es)
  {
    match d {
      case Allowed => return ExplainedAllowed(|es|);
      case Approved => return ExplainedApproved;
      case Pending => return ExplainedPending(|es|);
      case Denied =>
        var i := 0;
        while i < |es|
          invariant 0 <= i <= |es| && NoneIn(es, 0, i, ByOperator)
        {
          if es[i].matched && es[i].kind.KernelApproval? && es[i].kind.reason.shortName == DENIED_BY_OPERATOR {
            FirstFound(es, i, ByOperator);
            return ExplainedOperator;
          }
          i := i + 1;
        }
        i := |es|;
        while i > 0
          invariant 0 <= i <= |es| && NoneIn(es, i, |es|, ByBudget)
        {
          i := i - 1;
          if es[i].matched && es[i].kind.KernelBudget? {
            LastFound(es, i, ByBudget);
            return ExplainedBudget(es[i].kind.reason);
          }
        }
        i := 0;
        while i < |es|
          invariant 0 <= i <= |es| && NoneIn(es, 0, i, ByConstitution)
        {
          if es[i].matched && es[i].kind.ConstitutionRule? {
            FirstFound(es, i, ByConstitution);
            return ExplainedConstitution(es[i].id);
          }
          i := i + 1;
        }
        return ExplainedAsProposed;
    }
  }

  /** The verdict drawn from a receipt, and from nothing else. */
  function ReceiptVerdict(r: Receipt): Verdict
  {
    VerdictOf(r.body.decision, ClassifyAll(r.body.constitutionRules))
  }

  datatype ActionInfo = ActionInfo(kind: string, target: string, inputHash: string)
  datatype MerkleInfo = MerkleInfo(sequence: u64, leafHash: string, prevHash: string, isGenesis: bool)

  /** A structured explanation of a single receipt. */
  datatype Explanation = Explanation(
    receiptId: string,
    canonicalUrl: string,
    issuer: string,
    issuedAt: string,
    verified: bool,
    action: ActionInfo,
    decision: Decision,
    rules: seq<RuleEntry>,
    verdict: Verdict,
    merkle: MerkleInfo,
    provenance: seq<ProvenanceEdge>)

  function ActionInfoOf(a: Action): ActionInfo { ActionInfo(a.kind, a.target, Hex(a.inputHash)) }

  function MerkleInfoOf(l: MerkleLeaf): MerkleInfo
  {
    MerkleInfo(l.sequence, Hex(l.leafHash), Hex(l.prevHash), AllZero(l.prevHash))
  }

  predicate AllZero(d: Digest) { forall i :: 0 <= i < |d| ==> d[i] == 0 }

  /** The explanation quotes the receipt, and adds only the id, the signature check, the
      classified rules and the verdict. */
  method ExplainReceipt(c: Crypto, r: Receipt) returns (e: Explanation)
    ensures e.verdict == ReceiptVerdict(r) && e.rules == ClassifyAll(r.body.constitutionRules)
    ensures e.receiptId == Hex(ContentId(c, r)) && e.canonicalUrl == "boardproof://receipt/" + e.receiptId
    ensures e.verified == c.verify(r) && e.issuer == Hex(r.issuer)
    ensures e.issuedAt == r.body.issuedAt && e.decision == r.body.decision && e.provenance == r.body.provenance
    ensures e.action == ActionInfo(r.body.action.kind, r.body.action.target, Hex(r.body.action.inputHash))
    ensures var leaf := r.body.merkleLeaf;
      e.merkle == MerkleInfo(leaf.sequence, Hex(leaf.leafHash), Hex(leaf.prevHash), leaf.prevHash == ZERO)
    ensures e.action == ActionInfoOf(r.body.action) && e.merkle == MerkleInfoOf(r.body.merkleLeaf)
  {
    var rules: seq<RuleEntry> := [];
    var i := 0;
    while i < |r.body.constitutionRules|
      invariant 0 <= i <= |r.body.constitutionRules| && |rules| == i
      invariant forall j :: 0 <= j < i ==> rules[j] == ClassifyRule(r.body.constitutionRules[j])
    {
      rules := rules + [ClassifyRule(r.body.constitutionRules[i])];
      i := i + 1;
    }
    assert rules == ClassifyAll(r.body.constitutionRules);
    GenesisIff(r.body.merkleLeaf);
    var verdict := ComputeVerdict(r.body.decision, rules);
    var id := Hex(ContentId(c, r));
    e := Explanation(id, "boardproof://receipt/" + id, Hex(r.issuer), r.body.issuedAt, c.verify(r),
                     ActionInfoOf(r.body.action), r.body.decision, rules, verdict,
                     MerkleInfoOf(r.body.merkleLeaf), r.body.provenance);
  }

  /** What an explanation shows pins down everything its receipt's leaf hash covers. */
  lemma ExplanationShowsLeaf(r: Receipt, s: Receipt)
    requires ActionInfoOf(r.body.action) == ActionInfoOf(s.body.action)
    requires MerkleInfoOf(r.body.merkleLeaf) == MerkleInfoOf(s.body.merkleLeaf)
    requires r.body.issuedAt == s.body.issuedAt && r.body.decision == s.body.decision
    ensures Fields(r) == Fields(s) && LeafOf(r) == LeafOf(s)
  {
    HexInjective(r.body.action.inputHash, s.body.action.inputHash);
    HexInjective(r.body.merkleLeaf.leafHash, s.body.merkleLeaf.leafHash);
    HexInjective(r.body.merkleLeaf.prevHash, s.body.merkleLeaf.prevHash);
  }

  lemma GenesisIff(l: MerkleLeaf)
    ensures MerkleInfoOf(l).isGenesis <==> l.prevHash == ZERO
  {
    assert AllZero(ZERO);
    if AllZero(l.prevHash) {
      assert forall i :: 0 <= i < 32 ==> l.prevHash[i] == ZERO[i];
    }
  }

  // ---------- what a verdict says, rule by rule ----------

  /** The phrase for a budget word; none for a word that names no resource. */
  function Phrase(word: string): string
  {
    if word == "net_bytes_exhausted" then "net_bytes budget exhausted"
    else if word == "file_writes_exhausted" then "file_writes budget exhausted"
    else if word == "llm_tokens_exhausted" then "llm_tokens budget exhausted"
    else if word == "wall_time_exhausted" then "wall_ms budget exhausted"
    else if word == "uses_exhausted" then "max_uses budget exhausted"
    else if word == "delegation_exceeds_parent" then "delegated budget exceeds parent's remaining"
    else if word == "lease_revoked" then "capability lease has been revoked"
    else ""
  }

  predicate OperatorMark(r: RuleRef) { r.matched && r.id == "$kernel/approval/denied_by_operator" }

  predicate BudgetMark(r: RuleRef) { r.matched && |r.id| >= 15 && r.id[..15] == "$kernel/budget/" }

  predicate PlainMark(r: RuleRef) { r.matched && !(r.id != "" && r.id[0] == '$') }

  lemma MarksIff(r: RuleRef)
    ensures Blames(ClassifyRule(r), ByOperator) <==> OperatorMark(r)
    ensures Blames(ClassifyRule(r), ByBudget) <==> BudgetMark(r)
    ensures Blames(ClassifyRule(r), ByConstitution) <==> PlainMark(r)
  {
    NameCauseIs(r, ByOperator);
    NameCauseIs(r, ByBudget);
    NameCauseIs(r, ByConstitution);
    OperatorName(r.id);
    PrefixesApart(r.id);
  }

  lemma BudgetEntry(r: RuleRef)
    requires BudgetMark(r)
    ensures ClassifyRule(r) == RuleEntry(r.id, true, KernelBudget(ReasonInfo(r.id[15..], Phrase(r.id[15..]))))
  {
  }

  lemma MarkedIff(rs: seq<RuleRef>, cause: Cause)
    ensures FirstOf(ClassifyAll(rs), cause).Some? <==> exists x :: x in rs && Blames(ClassifyRule(x), cause)
  {
    var es := ClassifyAll(rs);
    if x :| x in rs && Blames(ClassifyRule(x), cause) {
      var i :| 0 <= i < |rs| && rs[i] == x;
      assert es[i] in es;
    }
    if e :| e in es && Blames(e, cause) {
      var i :| 0 <= i < |es| && es[i] == e;
      assert rs[i] in rs;
    }
  }

  lemma MarksFound(rs: seq<RuleRef>)
    ensures FirstOf(ClassifyAll(rs), ByOperator).Some? <==> exists x :: x in rs && OperatorMark(x)
    ensures FirstOf(ClassifyAll(rs), ByBudget).Some? <==> exists x :: x in rs && BudgetMark(x)
    ensures FirstOf(ClassifyAll(rs), ByConstitution).Some? <==> exists x :: x in rs && PlainMark(x)
  {
    forall x | x in rs
      ensures Blames(ClassifyRule(x), ByOperator) <==> OperatorMark(x)
      ensures Blames(ClassifyRule(x), ByBudget) <==> BudgetMark(x)
      ensures Blames(ClassifyRule(x), ByConstitution) <==> PlainMark(x)
    {
      MarksIff(x);
    }
    MarkedIff(rs, ByOperator);
    MarkedIff(rs, ByBudget);
    MarkedIff(rs, ByConstitution);
  }

  predicate LastBudgetMark(rs: seq<RuleRef>, i: nat)
  {
    i < |rs| && BudgetMark(rs[i]) && forall j :: i < j < |rs| ==> !BudgetMark(rs[j])
  }

  predicate FirstPlainMark(rs: seq<RuleRef>, i: nat)
  {
    i < |rs| && PlainMark(rs[i]) && forall j :: 0 <= j < i ==> !PlainMark(rs[j])
  }

  lemma LastBudgetEntry(rs: seq<RuleRef>, i: nat)
    requires LastBudgetMark(rs, i)
    ensures var e := LastOf(ClassifyAll(rs), ByBudget);
      e.Some? && e.value.kind == KernelBudget(ReasonInfo(rs[i].id[15..], Phrase(rs[i].id[15..])))
  {
    var es := ClassifyAll(rs);
    MarksIff(rs[i]);
    BudgetEntry(rs[i]);
    forall j | i < j < |rs| ensures !Blames(es[j], ByBudget) { MarksIff(rs[j]); }
    LastFound(es, i, ByBudget);
  }

  lemma FirstPlainEntry(rs: seq<RuleRef>, i: nat)
    requires FirstPlainMark(rs, i)
    ensures var e := FirstOf(ClassifyAll(rs), ByConstitution); e.Some? && e.value.id == rs[i].id
  {
    var es := ClassifyAll(rs);
    MarksIff(rs[i]);
    forall j | 0 <= j < i ensures !Blames(es[j], ByConstitution) { MarksIff(rs[j]); }
    FirstFound(es, i, ByConstitution);
  }

  /** A denial, explained from the recorded rules alone: the operator if any rule says so; else the
      last budget rule, in words; else the first rule that is not the kernel's; else the caller. */
  lemma DenialReads(r: Receipt)
    requires r.body.decision == Denied
    ensures var v, rs := ReceiptVerdict(r), r.body.constitutionRules;
      var operator, budget := exists x :: x in rs && OperatorMark(x), exists x :: x in rs && BudgetMark(x);
      && (v == ExplainedOperator <==> operator)
      && (forall i: nat :: !operator && LastBudgetMark(rs, i) ==>
           v == ExplainedBudget(ReasonInfo(rs[i].id[15..], Phrase(rs[i].id[15..]))))
      && (forall i: nat :: !operator && !budget && FirstPlainMark(rs, i) ==> v == ExplainedConstitution(rs[i].id))
      && (v == ExplainedAsProposed <==> !operator && !budget && !exists x :: x in rs && PlainMark(x))
  {
    var rs := r.body.constitutionRules;
    MarksFound(rs);
    FirstAndLast(ClassifyAll(rs), ByBudget);
    forall i: nat | LastBudgetMark(rs, i)
      ensures LastOf(ClassifyAll(rs), ByBudget).Some?
      ensures LastOf(ClassifyAll(rs), ByBudget).value.kind == KernelBudget(ReasonInfo(rs[i].id[15..], Phrase(rs[i].id[15..])))
    {
      LastBudgetEntry(rs, i);
    }
    forall i: nat | FirstPlainMark(rs, i)
      ensures FirstOf(ClassifyAll(rs), ByConstitution).Some? && FirstOf(ClassifyAll(rs), ByConstitution).value.id == rs[i].id
    {
      FirstPlainEntry(rs, i);
    }
  }

  /** Any other decision is explained by itself, with the number of rules on record. */
  lemma OthersRead(r: Receipt)
    ensures var v, n := ReceiptVerdict(r), |r.body.constitutionRules|;
      && (v == ExplainedAllowed(n) <==> r.body.decision == Allowed)
      && (v == ExplainedPending(n) <==> r.body.decision == Pending)
      && (v == ExplainedApproved <==> r.body.decision == Approved)
  {
  }

  // ---------- agreement ----------

  /** The verdict names the kernel's own reason; for a budget denial the same resource. */
  predicate Agrees(v: Verdict, k: K.OutcomeKind)
  {
    match k
    case OutcomeAllowed => v.ExplainedAllowed?
    case SleepCompleted(_, _) => v.ExplainedAllowed?
    case ToolExecutedAllowed(_, _) => v.ExplainedAllowed?
    case ToolExecutedFailed(_) => v.ExplainedAllowed?
    case DeniedByConstitution => v.ExplainedConstitution?
    case DeniedByBudget(e) => v == ExplainedBudget(ReasonInfo(K.ShortName(e), Display(e)))
    case DeniedByBudgetAtApproveTime(e) => v == ExplainedBudget(ReasonInfo(K.ShortName(e), Display(e)))
    case AllowedAsDenied => v.ExplainedAsProposed?
    case PendingApproval => v.ExplainedPending?
    case ApprovedAfterPending => v.ExplainedApproved?
    case DeniedByOperator => v.ExplainedOperator?
  }

  /** What a rule id stands for, by its name. */
  function NameCause(id: string): Cause
  {
    if id == K.OPERATOR_RULE.id then ByOperator
    else if StartsWith(id, K.BUDGET_PREFIX) then ByBudget
    else if StartsWith(id, "$") then NoCause
    else ByConstitution
  }

  /** Some matched rule's name stands for `cause`. */
  predicate Mentions(rs: seq<RuleRef>, cause: Cause)
  {
    exists r :: r in rs && r.matched && NameCause(r.id) == cause
  }

  lemma OperatorName(id: string)
    ensures id == K.OPERATOR_RULE.id <==> StartsWith(id, K.APPROVAL_PREFIX) && id[|K.APPROVAL_PREFIX|..] == DENIED_BY_OPERATOR
  {
    var n := |K.APPROVAL_PREFIX|;
    assert K.OPERATOR_RULE.id[..n] == K.APPROVAL_PREFIX && K.OPERATOR_RULE.id[n..] == DENIED_BY_OPERATOR;
    assert n <= |id| ==> id == id[..n] + id[n..];
    assert K.OPERATOR_RULE.id == K.APPROVAL_PREFIX + DENIED_BY_OPERATOR;
  }

  lemma PrefixesApart(id: string)
    ensures StartsWith(id, K.BUDGET_PREFIX) || StartsWith(id, K.APPROVAL_PREFIX) ==> StartsWith(id, "$")
    ensures !(StartsWith(id, K.BUDGET_PREFIX) && StartsWith(id, K.APPROVAL_PREFIX))
  {
    if StartsWith(id, K.BUDGET_PREFIX) {
      assert id[..|K.BUDGET_PREFIX|][0] == '$' && id[..|K.BUDGET_PREFIX|][8] == 'b';
    }
    if StartsWith(id, K.APPROVAL_PREFIX) {
      assert id[..|K.APPROVAL_PREFIX|][0] == '$' && id[..|K.APPROVAL_PREFIX|][8] == 'a';
    }
  }

  lemma NameCauseIs(r: RuleRef, cause: Cause)
    ensures Blames(ClassifyRule(r), cause) <==> r.matched && NameCause(r.id) == cause
  {
    OperatorName(r.id);
    PrefixesApart(r.id);
  }

  lemma FirstAndLast(es: seq<RuleEntry>, cause: Cause)
    ensures FirstOf(es, cause).Some? <==> LastOf(es, cause).Some?
  {
  }

  lemma MentionsIff(rs: seq<RuleRef>, cause: Cause)
    ensures Mentions(rs, cause) <==> FirstOf(ClassifyAll(rs), cause).Some?
  {
    var es := ClassifyAll(rs);
    if Mentions(rs, cause) {
      var r :| r in rs && r.matched && NameCause(r.id) == cause;
      var i :| 0 <= i < |rs| && rs[i] == r;
      NameCauseIs(r, cause);
      assert es[i] in es;
    }
    if e :| e in es && Blames(e, cause) {
      var i :| 0 <= i < |es| && es[i] == e;
      NameCauseIs(rs[i], cause);
      assert rs[i] in rs;
    }
  }

  /** What a caller can check before proposing: the rule ids recorded in the receipt will not
      be taken for another reason. */
  predicate Telling(rules: seq<Rule>, p: K.Proposal)
  {
    var verdict := Evaluate(rules, p.action);
    match verdict.overrideDecision
    case Some(o) =>
      o == Denied ==>
        !Mentions(verdict.matchedRules, ByOperator) && !Mentions(verdict.matchedRules, ByBudget) &&
        Mentions(verdict.matchedRules, ByConstitution)
    case None =>
      if p.decision == Denied then
        !Mentions(p.constitutionRules, ByOperator) && !Mentions(p.constitutionRules, ByBudget) &&
        !Mentions(p.constitutionRules, ByConstitution)
      else if K.LeaseError(p.lease, p.charge).Some? then !Mentions(p.constitutionRules, ByOperator)
      else p.decision != Approved
  }

  lemma ShortNameRoundTrips(e: BudgetError)
    ensures FromShortName(K.ShortName(e)) == Some(e)
  {
    // The names differ in length or in their first letter.
    var s := K.ShortName(e);
    assert (|s|, s[0]) == match e
      case NetBytesExhausted => (19, 'n')
      case FileWritesExhausted => (21, 'f')
      case LlmTokensExhausted => (20, 'l')
      case WallTimeExhausted => (19, 'w')
      case UsesExhausted => (14, 'u')
      case DelegationExceedsParent => (25, 'd')
      case Revoked => (13, 'l');
  }

  lemma BudgetRuleKind(e: BudgetError)
    ensures ClassifyRule(K.BudgetRule(e)) == RuleEntry(K.BudgetRule(e).id, true, KernelBudget(ReasonInfo(K.ShortName(e), Display(e))))
  {
    var id := K.BUDGET_PREFIX + K.ShortName(e);
    assert id[..|K.BUDGET_PREFIX|] == K.BUDGET_PREFIX && id[|K.BUDGET_PREFIX|..] == K.ShortName(e);
    ShortNameRoundTrips(e);
  }

  lemma OperatorRuleKind()
    ensures Blames(ClassifyRule(K.OPERATOR_RULE), ByOperator)
  {
    NameCauseIs(K.OPERATOR_RULE, ByOperator);
  }

  lemma ClassifyConcat(xs: seq<RuleRef>, ys: seq<RuleRef>)
    ensures ClassifyAll(xs + ys) == ClassifyAll(xs) + ClassifyAll(ys)
  {
  }

  lemma ClassifySingle(r: RuleRef)
    ensures ClassifyAll([r]) == [ClassifyRule(r)]
  {
  }

  /** A budget rule appended last is the one blamed, unless an operator denial is recorded. */
  lemma BudgetBlamed(rs: seq<RuleRef>, e: BudgetError)
    ensures var v := VerdictOf(Denied, ClassifyAll(rs + [K.BudgetRule(e)]));
      v == if Mentions(rs, ByOperator) then ExplainedOperator else ExplainedBudget(ReasonInfo(K.ShortName(e), Display(e)))
  {
    BudgetRuleKind(e);
    ClassifyConcat(rs, [K.BudgetRule(e)]);
    ClassifySingle(K.BudgetRule(e));
    LastBlamed(ClassifyAll(rs), ClassifyRule(K.BudgetRule(e)));
    MentionsIff(rs, ByOperator);
  }

  lemma {:induction false} FirstOfConcat(xs: seq<RuleEntry>, ys: seq<RuleEntry>, cause: Cause)
    ensures FirstOf(xs + ys, cause) == if FirstOf(xs, cause).Some? then FirstOf(xs, cause) else FirstOf(ys, cause)
  {
    if xs == [] {
      assert xs + ys == ys;
    } else {
      assert (xs + ys)[1..] == xs[1..] + ys && (xs + ys)[0] == xs[0];
      FirstOfConcat(xs[1..], ys, cause);
    }
  }

  lemma LastBlamed(es: seq<RuleEntry>, e: RuleEntry)
    requires Blames(e, ByBudget)
    ensures VerdictOf(Denied, es + [e]) == if FirstOf(es, ByOperator).Some? then ExplainedOperator else ExplainedBudget(e.kind.reason)
  {
    FirstOfConcat(es, [e], ByOperator);
    assert LastOf(es + [e], ByBudget) == Some(e);
  }

  lemma PlainDenial(rs: seq<RuleRef>)
    ensures var v := VerdictOf(Denied, ClassifyAll(rs));
      && (v.ExplainedConstitution? <==> !Mentions(rs, ByOperator) && !Mentions(rs, ByBudget) && Mentions(rs, ByConstitution))
      && (v.ExplainedAsProposed? <==> !Mentions(rs, ByOperator) && !Mentions(rs, ByBudget) && !Mentions(rs, ByConstitution))
  {
    FirstAndLast(ClassifyAll(rs), ByBudget);
    MentionsIff(rs, ByOperator);
    MentionsIff(rs, ByBudget);
    MentionsIff(rs, ByConstitution);
  }

  function DraftVerdict(d: K.Draft): Verdict { VerdictOf(d.decision, ClassifyAll(d.rules)) }

  lemma OverriddenAgreesIff(rules: seq<Rule>, p: K.Proposal)
    requires Evaluate(rules, p.action).overrideDecision.Some?
    ensures var d := K.DecideProposal(rules, p); Agrees(DraftVerdict(d), d.kind) <==> Telling(rules, p)
  {
    OverriddenDraft(rules, p);
    OverriddenDraftAgrees(rules, p, K.DecideProposal(rules, p));
  }

  lemma OverriddenDraft(rules: seq<Rule>, p: K.Proposal)
    requires Evaluate(rules, p.action).overrideDecision.Some?
    ensures var d, verdict := K.DecideProposal(rules, p), Evaluate(rules, p.action);
      d.rules == verdict.matchedRules && Some(d.decision) == verdict.overrideDecision &&
      d.kind == if d.decision == Pending then K.PendingApproval else K.DeniedByConstitution
  {
  }

  lemma OverriddenDraftAgrees(rules: seq<Rule>, p: K.Proposal, d: K.Draft)
    requires var verdict := Evaluate(rules, p.action);
      d.rules == verdict.matchedRules && Some(d.decision) == verdict.overrideDecision &&
      d.kind == if d.decision == Pending then K.PendingApproval else K.DeniedByConstitution
    ensures Agrees(DraftVerdict(d), d.kind) <==> Telling(rules, p)
  {
    PlainDenial(d.rules);
  }

  lemma ProposedAgreesIff(rules: seq<Rule>, p: K.Proposal)
    requires Evaluate(rules, p.action).overrideDecision.None?
    requires p.decision == Denied || K.LeaseError(p.lease, p.charge).None?
    ensures var d := K.DecideProposal(rules, p); Agrees(DraftVerdict(d), d.kind) <==> Telling(rules, p)
  {
    var d := K.DecideProposal(rules, p);
    assert d.rules == p.constitutionRules && d.decision == p.decision;
    PlainDenial(p.constitutionRules);
  }

  lemma OverspentAgreesIff(rules: seq<Rule>, p: K.Proposal)
    requires Evaluate(rules, p.action).overrideDecision.None?
    requires p.decision != Denied && K.LeaseError(p.lease, p.charge).Some?
    ensures var d := K.DecideProposal(rules, p); Agrees(DraftVerdict(d), d.kind) <==> Telling(rules, p)
  {
    var d, e := K.DecideProposal(rules, p), K.LeaseError(p.lease, p.charge).value;
    assert d.rules == p.constitutionRules + [K.BudgetRule(e)] && d.decision == Denied && d.kind == K.DeniedByBudget(e);
    BudgetBlamed(p.constitutionRules, e);
  }

  lemma ProposalAgreesIff(rules: seq<Rule>, p: K.Proposal)
    ensures var d := K.DecideProposal(rules, p); Agrees(DraftVerdict(d), d.kind) <==> Telling(rules, p)
  {
    if Evaluate(rules, p.action).overrideDecision.Some? {
      OverriddenAgreesIff(rules, p);
    } else if p.decision != Denied && K.LeaseError(p.lease, p.charge).Some? {
      OverspentAgreesIff(rules, p);
    } else {
      ProposedAgreesIff(rules, p);
    }
  }

  lemma ApprovalAgrees(c: Crypto, a: K.Approval)
    ensures var d := K.DecideApproval(c, a); Agrees(DraftVerdict(d), d.kind)
  {
    match a.response
    case Approve =>
      var error := K.LeaseError(a.originalProposal.lease, a.originalProposal.charge);
      if error.Some? {
        BudgetBlamed([], error.value);
        assert [] + [K.BudgetRule(error.value)] == [K.BudgetRule(error.value)];
      }
    case Refuse =>
      OperatorRuleKind();
      ClassifySingle(K.OPERATOR_RULE);
  }

  /** Exactly when the explanation read off a receipt is the kernel's own reason: always for
      resolutions, sleep passes and tool executions, and for proposals exactly when the rule
      ids they record are telling and an unhindered caller did not itself propose Approved. */
  lemma ExplanationAgreesIff(cfg: K.Config, st: K.KernelState, ev: K.Event, now: string)
    requires SignerContract(cfg.crypto) && K.Handled(cfg, st, ev, now).1.Ok?
    ensures var o := K.Handled(cfg, st, ev, now).1.value;
      Agrees(ReceiptVerdict(o.receipt), o.kind) <==> (ev.EvaluateProposal? ==> Telling(cfg.rules, ev.proposal))
  {
    var d := K.Decide(cfg, ev).value;
    DraftShown(cfg, st, now, d);
    match ev
    case EvaluateProposal(p) => ProposalAgreesIff(cfg.rules, p);
    case ResolveApproval(a) => ApprovalAgrees(cfg.crypto, a);
    case RunSleep(_, _) =>
    case RecordToolExecution(_) =>
  }

  lemma DraftShown(cfg: K.Config, st: K.KernelState, now: string, d: K.Draft)
    requires SignerContract(cfg.crypto)
    ensures ReceiptVerdict(K.Minted(cfg, st, now, d)) == DraftVerdict(d)
  {
    assert K.Minted(cfg, st, now, d).body == K.MintBody(cfg, st, now, d);
  }

  /** The usual case: caller rules unmatched, decision Allowed or Denied, and no operator rule
      id starting with `$`. */
  lemma PlainProposalsAgree(cfg: K.Config, st: K.KernelState, p: K.Proposal, now: string)
    requires SignerContract(cfg.crypto)
    requires forall r :: r in p.constitutionRules ==> !r.matched
    requires p.decision == Allowed || p.decision == Denied
    requires forall r :: r in cfg.rules ==> !StartsWith(r.id, "$")
    ensures var o := K.Handled(cfg, st, K.EvaluateProposal(p), now).1.value; Agrees(ReceiptVerdict(o.receipt), o.kind)
  {
    UnmatchedUnmentioned(p.constitutionRules);
    PlainRulesTelling(cfg.rules, p.action);
    ExplanationAgreesIff(cfg, st, K.EvaluateProposal(p), now);
  }

  lemma UnmatchedUnmentioned(rs: seq<RuleRef>)
    requires forall r :: r in rs ==> !r.matched
    ensures forall cause :: !Mentions(rs, cause)
  {
  }

  lemma PlainRulesTelling(rules: seq<Rule>, a: Action)
    requires forall r :: r in rules ==> !StartsWith(r.id, "$")
    ensures var ms := MatchedRules(rules, a);
      !Mentions(ms, ByOperator) && !Mentions(ms, ByBudget) && (ms != [] ==> Mentions(ms, ByConstitution))
  {
    var ms := MatchedRules(rules, a);
    MatchedAreRules(rules, a);
    forall m | m in ms ensures m.matched && NameCause(m.id) == ByConstitution {
      var r :| r in rules && r.id == m.id;
      PlainId(m.id);
    }
    assert ms != [] ==> ms[0] in ms;
  }

  lemma PlainId(id: string)
    requires !StartsWith(id, "$")
    ensures NameCause(id) == ByConstitution && ClassifyId(id) == ConstitutionRule
  {
    OperatorName(id);
    PrefixesApart(id);
  }

  lemma {:induction false} MatchedAreRules(rules: seq<Rule>, a: Action)
    ensures forall m :: m in MatchedRules(rules, a) ==> exists r :: r in rules && r.id == m.id
  {
    if rules != [] {
      var last := |rules| - 1;
      MatchedAreRules(rules[..last], a);
      forall m | m in MatchedRules(rules, a) ensures exists r :: r in rules && r.id == m.id {
        if m in MatchedRules(rules[..last], a) {
          var r :| r in rules[..last] && r.id == m.id;
          assert r in rules;
        } else {
          assert m.id == rules[last].id && rules[last] in rules;
        }
      }
    }
  }

  /** A proposal whose caller asks for Approved is the one plain kind never explained as what
      the kernel reports. */
  lemma ProposedApprovedMisread(cfg: K.Config, st: K.KernelState, a: Action, now: string)
    requires SignerContract(cfg.crypto) && cfg.rules == []
    ensures var o := K.Handled(cfg, st, K.EvaluateProposal(K.Proposal(a, Approved, [], [], None, ZERO_USE)), now).1.value;
      o.kind == K.OutcomeAllowed && ReceiptVerdict(o.receipt) == ExplainedApproved
  {
    var p := K.Proposal(a, Approved, [], [], None, ZERO_USE);
    assert MatchedRules(cfg.rules, a) == [];
    DraftShown(cfg, st, now, K.DecideProposal(cfg.rules, p));
  }

  // ---------- which rule is blamed ----------

  /** The first rule in document order that matches and is not named like a kernel rule. */
  predicate FirstPlainMatch(rules: seq<Rule>, a: Action, i: nat)
  {
    i < |rules| && PlainMatch(rules[i], a) && forall j :: 0 <= j < i ==> !PlainMatch(rules[j], a)
  }

  predicate PlainMatch(r: Rule, a: Action) { Matches(r.clause, a) && ClassifyId(r.id) == ConstitutionRule }

  /** The entry a rule leaves when it matches. */
  function OwnEntry(r: Rule, a: Action): seq<RuleEntry>
  {
    if Matches(r.clause, a) then [RuleEntry(r.id, true, ClassifyId(r.id))] else []
  }

  /** The entries of the matched rules, rule by rule. */
  lemma MatchedEntries(rules: seq<Rule>, a: Action)
    requires rules != []
    ensures ClassifyAll(MatchedRules(rules, a)) ==
      ClassifyAll(MatchedRules(rules[..|rules| - 1], a)) + OwnEntry(rules[|rules| - 1], a)
  {
    var last := rules[|rules| - 1];
    var own := if Matches(last.clause, a) then [RuleRef(last.id, true)] else [];
    ClassifyConcat(MatchedRules(rules[..|rules| - 1], a), own);
  }

  lemma FirstWithOwn(es: seq<RuleEntry>, r: Rule, a: Action)
    ensures var f := FirstOf(es + OwnEntry(r, a), ByConstitution);
      && (FirstOf(es, ByConstitution).Some? ==> f == FirstOf(es, ByConstitution))
      && (FirstOf(es, ByConstitution).None? ==> (f.Some? <==> PlainMatch(r, a)) && (f.Some? ==> f.value.id == r.id))
  {
    FirstOfConcat(es, OwnEntry(r, a), ByConstitution);
  }

  /** The first plainly named rule on record. */
  function FirstPlain(rules: seq<Rule>, a: Action): Option<RuleEntry>
  {
    FirstOf(ClassifyAll(MatchedRules(rules, a)), ByConstitution)
  }

  lemma FirstPlainStep(rules: seq<Rule>, a: Action, init: seq<Rule>, r: Rule)
    requires rules == init + [r]
    ensures FirstPlain(init, a).Some? ==> FirstPlain(rules, a) == FirstPlain(init, a)
    ensures FirstPlain(init, a).None? ==> (FirstPlain(rules, a).Some? <==> PlainMatch(r, a))
    ensures FirstPlain(init, a).None? && FirstPlain(rules, a).Some? ==> FirstPlain(rules, a).value.id == r.id
  {
    assert rules[..|rules| - 1] == init;
    MatchedEntries(rules, a);
    FirstWithOwn(ClassifyAll(MatchedRules(init, a)), r, a);
  }

  lemma {:induction false} FirstMatchedIs(rules: seq<Rule>, a: Action, i: nat)
    requires FirstPlainMatch(rules, a, i)
    ensures FirstPlain(rules, a).Some? && FirstPlain(rules, a).value.id == rules[i].id
  {
    var last := |rules| - 1;
    var init := rules[..last];
    assert forall j :: 0 <= j < last ==> init[j] == rules[j];
    FirstPlainStep(rules, a, init, rules[last]);
    if i < last {
      FirstMatchedIs(init, a, i);
    } else {
      NoPlainMatch(init, a);
    }
  }

  lemma {:induction false} NoPlainMatch(rules: seq<Rule>, a: Action)
    requires forall j :: 0 <= j < |rules| ==> !PlainMatch(rules[j], a)
    ensures FirstPlain(rules, a).None?
  {
    if rules != [] {
      var last := |rules| - 1;
      NoPlainMatch(rules[..last], a);
      FirstPlainStep(rules, a, rules[..last], rules[last]);
    }
  }

  /** A denial by the constitution is blamed on the first plainly named rule that matches,
      whatever that rule's own verdict. */
  lemma BlamedRule(cfg: K.Config, st: K.KernelState, p: K.Proposal, now: string, i: nat)
    requires SignerContract(cfg.crypto) && SomeRuleSays(cfg.rules, Deny, p.action) && Telling(cfg.rules, p)
    requires FirstPlainMatch(cfg.rules, p.action, i)
    ensures ReceiptVerdict(K.Handled(cfg, st, K.EvaluateProposal(p), now).1.value.receipt) == ExplainedConstitution(cfg.rules[i].id)
  {
    ProposalShown(cfg, st, p, now);
    BlamedDraft(cfg.rules, p, i);
  }

  lemma ProposalShown(cfg: K.Config, st: K.KernelState, p: K.Proposal, now: string)
    requires SignerContract(cfg.crypto)
    ensures var o := K.Handled(cfg, st, K.EvaluateProposal(p), now).1;
      o.Ok? && ReceiptVerdict(o.value.receipt) == DraftVerdict(K.DecideProposal(cfg.rules, p))
  {
    DraftShown(cfg, st, now, K.DecideProposal(cfg.rules, p));
  }

  lemma BlamedDraft(rules: seq<Rule>, p: K.Proposal, i: nat)
    requires SomeRuleSays(rules, Deny, p.action) && Telling(rules, p) && FirstPlainMatch(rules, p.action, i)
    ensures DraftVerdict(K.DecideProposal(rules, p)) == ExplainedConstitution(rules[i].id)
  {
    DeniedDraft(rules, p);
    FirstMatchedIs(rules, p.action, i);
    PlainDenial(MatchedRules(rules, p.action));
  }

  lemma DeniedDraft(rules: seq<Rule>, p: K.Proposal)
    requires SomeRuleSays(rules, Deny, p.action)
    ensures var d := K.DecideProposal(rules, p); d.decision == Denied && d.rules == MatchedRules(rules, p.action)
  {
  }

  /** The verdict names a rule that matches and denies. */
  predicate NamesDenier(v: Verdict, rules: seq<Rule>, a: Action)
  {
    v.ExplainedConstitution? && DeniesAs(rules, a, v.ruleId)
  }

  /** Some matching Deny rule carries the id. */
  predicate DeniesAs(rules: seq<Rule>, a: Action, id: string)
  {
    exists j :: 0 <= j < |rules| && rules[j].id == id && rules[j].verdict == Deny && Matches(rules[j].clause, a)
  }

  /** The first plainly named match carries the id of a matching Deny rule. */
  predicate DenierFirst(rules: seq<Rule>, a: Action)
  {
    exists i :: 0 <= i < |rules| && FirstPlainMatch(rules, a, i) && DeniesAs(rules, a, rules[i].id)
  }

  lemma {:induction false} LeastPlainMatch(rules: seq<Rule>, a: Action, j: nat) returns (i: nat)
    requires j < |rules| && PlainMatch(rules[j], a)
    ensures FirstPlainMatch(rules, a, i)
    decreases j
  {
    if k :| 0 <= k < j && PlainMatch(rules[k], a) {
      i := LeastPlainMatch(rules, a, k);
    } else {
      i := j;
    }
  }

  lemma SomePlainMatch(rules: seq<Rule>, p: K.Proposal) returns (i: nat)
    requires SomeRuleSays(rules, Deny, p.action) && Telling(rules, p)
    ensures FirstPlainMatch(rules, p.action, i)
  {
    MentionsIff(MatchedRules(rules, p.action), ByConstitution);
    if forall j :: 0 <= j < |rules| ==> !PlainMatch(rules[j], p.action) {
      NoPlainMatch(rules, p.action);
    }
    var j :| 0 <= j < |rules| && PlainMatch(rules[j], p.action);
    i := LeastPlainMatch(rules, p.action, j);
  }

  lemma OnlyFirst(rules: seq<Rule>, a: Action, i: nat, j: nat)
    requires FirstPlainMatch(rules, a, i) && FirstPlainMatch(rules, a, j)
    ensures i == j
  {
  }

  lemma DenierFirstIs(rules: seq<Rule>, a: Action, i: nat)
    requires FirstPlainMatch(rules, a, i)
    ensures DenierFirst(rules, a) <==> DeniesAs(rules, a, rules[i].id)
  {
    if DenierFirst(rules, a) {
      var j :| 0 <= j < |rules| && FirstPlainMatch(rules, a, j) && DeniesAs(rules, a, rules[j].id);
      OnlyFirst(rules, a, i, j);
    }
  }

  lemma UntellingDenial(rules: seq<Rule>, p: K.Proposal)
    requires SomeRuleSays(rules, Deny, p.action)
    ensures DraftVerdict(K.DecideProposal(rules, p)).ExplainedConstitution? <==> Telling(rules, p)
  {
    DeniedDraft(rules, p);
    PlainDenial(MatchedRules(rules, p.action));
  }

  /** Exactly when the rule presented for a denial by the constitution is one that denies: the
      matched ids are telling, and the first plainly named match carries a denier's id. */
  lemma NamesDenierIff(cfg: K.Config, st: K.KernelState, p: K.Proposal, now: string)
    requires SignerContract(cfg.crypto) && SomeRuleSays(cfg.rules, Deny, p.action)
    ensures NamesDenier(ReceiptVerdict(K.Handled(cfg, st, K.EvaluateProposal(p), now).1.value.receipt), cfg.rules, p.action) <==>
      Telling(cfg.rules, p) && DenierFirst(cfg.rules, p.action)
  {
    if Telling(cfg.rules, p) {
      var i := SomePlainMatch(cfg.rules, p);
      BlamedRule(cfg, st, p, now, i);
      DenierFirstIs(cfg.rules, p.action, i);
    } else {
      ProposalShown(cfg, st, p, now);
      UntellingDenial(cfg.rules, p);
    }
  }

  predicate DistinctIds(rules: seq<Rule>)
  {
    forall i, j :: 0 <= i < j < |rules| ==> rules[i].id != rules[j].id
  }

  lemma DenierByIndex(rules: seq<Rule>, a: Action, i: nat)
    requires DistinctIds(rules) && i < |rules| && Matches(rules[i].clause, a)
    ensures DeniesAs(rules, a, rules[i].id) <==> rules[i].verdict == Deny
  {
  }

  /** With distinct rule ids: exactly when the first plainly named match is itself a Deny rule. */
  lemma NamesDenierDistinct(cfg: K.Config, st: K.KernelState, p: K.Proposal, now: string, i: nat)
    requires SignerContract(cfg.crypto) && SomeRuleSays(cfg.rules, Deny, p.action) && Telling(cfg.rules, p)
    requires DistinctIds(cfg.rules) && FirstPlainMatch(cfg.rules, p.action, i)
    ensures NamesDenier(ReceiptVerdict(K.Handled(cfg, st, K.EvaluateProposal(p), now).1.value.receipt), cfg.rules, p.action) <==>
      cfg.rules[i].verdict == Deny
  {
    BlamedRule(cfg, st, p, now, i);
    DenierByIndex(cfg.rules, p.action, i);
  }

  /** So a rule that only asks for approval can be blamed for a denial. */
  lemma BlameCanMiss(cfg: K.Config, st: K.KernelState, p: K.Proposal, now: string)
    requires SignerContract(cfg.crypto)
    requires cfg.rules == [Rule("ask", RequireApproval, MatchClause(None, None)), Rule("no", Deny, MatchClause(None, None))]
    ensures var o := K.Handled(cfg, st, K.EvaluateProposal(p), now).1.value;
      o.receipt.body.decision == Denied && ReceiptVerdict(o.receipt) == ExplainedConstitution("ask")
  {
    var rules := cfg.rules;
    assert rules[1].verdict == Deny && Matches(rules[1].clause, p.action);
    assert rules[0].id[..1][0] == 'a' && rules[1].id[..1][0] == 'n';
    PlainId(rules[0].id);
    PlainRulesTelling(rules, p.action);
    DeniedDraft(rules, p);
    BlamedRule(cfg, st, p, now, 0);
  }
}
