/** What each event leaves in its receipt and outcome, told in the event's own fields. */
module Outcomes {
  import opened Wrappers
  import opened Json
  import opened Receipts
  import opened Crypto
  import opened Budgets
  import opened Constitution
  import opened Capabilities
  import opened Kernel

  // ---------- every accepted event ----------

  function AnswerOf(cfg: Config, st: KernelState, ev: Event, now: string): Result<Outcome, KernelError>
  {
    Handled(cfg, st, ev, now).1
  }

  lemma DraftInReceipt(cfg: Config, st: KernelState, ev: Event, now: string, d: Draft)
    requires SignerContract(cfg.crypto) && Decide(cfg, ev) == Ok(d)
    ensures AnswerOf(cfg, st, ev, now).Ok?
    ensures var o := AnswerOf(cfg, st, ev, now).value;
      && o.receipt.body.action == d.action && o.receipt.body.decision == d.decision
      && o.receipt.body.constitutionRules == d.rules && o.receipt.body.provenance == d.provenance
      && o.receipt.body.redactorStackHash == d.redactor && o.kind == d.kind && o.leaseAfter == d.leaseAfter
  {
    var b := MintBody(cfg, st, now, d);
    assert cfg.crypto.sign(b).body == b;
  }

  /** Every receipt carries the current version, the clock reading, the signer's key id and its
      place in the chain, and verifies under the kernel's key; the state moves just past it, except
      that the number stops at the largest.  A rejected event leaves the state as it was. */
  lemma EnvelopeOf(cfg: Config, st: KernelState, ev: Event, now: string)
    requires SignerContract(cfg.crypto)
    ensures var (st', answer) := Handled(cfg, st, ev, now);
      && (answer.Err? ==> st' == st)
      && (answer.Ok? ==>
           var r := answer.value.receipt;
           && r.version == 2 && r.issuer == cfg.crypto.publicKey && cfg.crypto.verify(r)
           && r.body.schemaVersion == 2 && r.body.issuedAt == now && r.body.keyId == cfg.keyId
           && r.body.merkleLeaf.sequence == st.sequence && r.body.merkleLeaf.prevHash == st.prevHash
           && r.body.merkleLeaf.leafHash ==
              cfg.crypto.leafHash(LeafFields(st.sequence, now, r.body.action, r.body.decision, st.prevHash))
           && st'.sequence == (if st.sequence == U64_MAX then U64_MAX else st.sequence + 1) && st'.prevHash == r.body.merkleLeaf.leafHash)
  {
    if Decide(cfg, ev).Ok? {
      var b := MintBody(cfg, st, now, Decide(cfg, ev).value);
      var r := cfg.crypto.sign(b);
      assert r.body == b && r.issuer == cfg.crypto.publicKey && r.version == RECEIPT_FORMAT_VERSION && cfg.crypto.verify(r);
    }
  }

  // ---------- proposals ----------

  function BudgetRuleId(e: BudgetError): string
  {
    "$kernel/budget/" +
    match e
    case NetBytesExhausted => "net_bytes_exhausted"
    case FileWritesExhausted => "file_writes_exhausted"
    case LlmTokensExhausted => "llm_tokens_exhausted"
    case WallTimeExhausted => "wall_time_exhausted"
    case UsesExhausted => "uses_exhausted"
    case DelegationExceedsParent => "delegation_exceeds_parent"
    case Revoked => "lease_revoked"
  }

  lemma BudgetRuleSpelled(e: BudgetError)
    ensures BudgetRule(e) == RuleRef(BudgetRuleId(e), true)
  {
  }

  /** The lease after one accepted charge: the same lease with exactly that much more consumed. */
  predicate PaidOnce(before: Lease, charge: ResourceUse, after: Lease)
  {
    && after.id == before.id && after.budget == before.budget && after.parent == before.parent && after.revoked == before.revoked
    && UseAmount(after.consumed) == Plus(UseAmount(before.consumed), UseAmount(charge))
  }

  /** The lease, if there is one, refuses the charge for that reason. */
  predicate CannotPay(lease: Option<Lease>, charge: ResourceUse, e: BudgetError)
  {
    lease.Some? && ChargeFails(lease.value, charge, e)
  }

  /** What an accepted charge leaves: no lease if there was none, else the lease paid from once. */
  predicate Paid(before: Option<Lease>, charge: ResourceUse, after: Option<Lease>)
  {
    if before.None? then after.None? else after.Some? && PaidOnce(before.value, charge, after.value)
  }

  lemma LeaseRefusedWhy(lease: Option<Lease>, charge: ResourceUse)
    ensures forall e :: LeaseError(lease, charge) == Some(e) <==> CannotPay(lease, charge, e)
    ensures LeaseError(lease, charge).None? ==> Paid(lease, charge, LeaseCharged(lease, charge))
    ensures LeaseError(lease, charge).Some? ==> LeaseCharged(lease, charge) == lease
  {
    if lease.Some? {
      ChargeRefusedWhy(lease.value, charge);
    }
  }

  /** A rule fired: its word stands, the lease is not touched, and only the firing rules are
      recorded. */
  lemma RuledProposal(cfg: Config, st: KernelState, p: Proposal, now: string)
    requires SignerContract(cfg.crypto)
    requires SomeFires(cfg.rules, Deny, p.action) || SomeFires(cfg.rules, RequireApproval, p.action)
    ensures AnswerOf(cfg, st, EvaluateProposal(p), now).Ok?
    ensures var o := AnswerOf(cfg, st, EvaluateProposal(p), now).value;
      var b := o.receipt.body;
      && b.action == p.action && b.provenance == p.provenance && b.redactorStackHash == None
      && o.leaseAfter == p.lease && b.constitutionRules == Evaluate(cfg.rules, p.action).matchedRules
      && (SomeFires(cfg.rules, Deny, p.action) ==> b.decision == Denied && o.kind == DeniedByConstitution)
      && (!SomeFires(cfg.rules, Deny, p.action) ==> b.decision == Pending && o.kind == PendingApproval)
  {
    VerdictMeans(cfg.rules, p.action);
    DraftInReceipt(cfg, st, EvaluateProposal(p), now, DecideProposal(cfg.rules, p));
  }

  /** No rule fired: the caller's decision stands unless it asks for more than the lease allows.
      A refused charge denies, names its reason in the outcome and as the last recorded rule, and
      leaves the lease; an accepted one is paid exactly once. */
  lemma UnruledProposal(cfg: Config, st: KernelState, p: Proposal, now: string)
    requires SignerContract(cfg.crypto)
    requires !SomeFires(cfg.rules, Deny, p.action) && !SomeFires(cfg.rules, RequireApproval, p.action)
    ensures AnswerOf(cfg, st, EvaluateProposal(p), now).Ok?
    ensures var o := AnswerOf(cfg, st, EvaluateProposal(p), now).value;
      var b := o.receipt.body;
      && b.action == p.action && b.provenance == p.provenance && b.redactorStackHash == None
      && (p.decision == Denied ==>
           b.decision == Denied && o.kind == AllowedAsDenied && o.leaseAfter == p.lease && b.constitutionRules == p.constitutionRules)
      && (p.decision != Denied ==>
           && (forall e :: o.kind == DeniedByBudget(e) <==> CannotPay(p.lease, p.charge, e))
           && (forall e :: CannotPay(p.lease, p.charge, e) ==>
                b.decision == Denied && o.leaseAfter == p.lease &&
                b.constitutionRules == p.constitutionRules + [RuleRef(BudgetRuleId(e), true)]))
      && (p.decision != Denied && !o.kind.DeniedByBudget? ==>
           && b.decision == p.decision && b.constitutionRules == p.constitutionRules
           && o.kind == (if p.decision == Pending then PendingApproval else OutcomeAllowed)
           && Paid(p.lease, p.charge, o.leaseAfter))
  {
    VerdictMeans(cfg.rules, p.action);
    DraftInReceipt(cfg, st, EvaluateProposal(p), now, DecideProposal(cfg.rules, p));
    LeaseRefusedWhy(p.lease, p.charge);
    if LeaseError(p.lease, p.charge).Some? {
      BudgetRuleSpelled(LeaseError(p.lease, p.charge).value);
    }
    assert p.constitutionRules + [] == p.constitutionRules;
  }

  // ---------- resolutions ----------

  /** Why a resolution is rejected: the first of the four checks that fails. */
  lemma ResolutionRejectedWhy(cfg: Config, st: KernelState, a: Approval, now: string)
    ensures var answer, p := AnswerOf(cfg, st, ResolveApproval(a), now), a.pendingReceipt;
      var bad, foreign, settled := !cfg.crypto.verify(p), p.issuer != cfg.crypto.publicKey, p.body.decision != Pending;
      var other := a.originalProposal.action != p.body.action;
      && (answer == Err(ResolveApprovalRejected(PendingSignatureInvalid)) <==> bad)
      && (answer == Err(ResolveApprovalRejected(PendingIssuerMismatch)) <==> !bad && foreign)
      && (answer == Err(ResolveApprovalRejected(NotAPendingReceipt)) <==> !bad && !foreign && settled)
      && (answer == Err(ResolveApprovalRejected(ApprovalActionMismatch)) <==> !bad && !foreign && !settled && other)
      && (answer.Ok? <==> !bad && !foreign && !settled && !other)
  {
  }

  /** An accepted resolution: the operator's answer decides, an approval only if the lease pays. */
  lemma ResolutionOutcome(cfg: Config, st: KernelState, a: Approval, now: string)
    requires SignerContract(cfg.crypto) && AnswerOf(cfg, st, ResolveApproval(a), now).Ok?
    ensures var o := AnswerOf(cfg, st, ResolveApproval(a), now).value;
      var b, p := o.receipt.body, a.originalProposal;
      && b.action == a.pendingReceipt.body.action && b.redactorStackHash == None
      && b.provenance == p.provenance +
         [ProvenanceEdge("receipt:" + Hex(cfg.crypto.contentId(a.pendingReceipt.body)), "decision", "approval_response")]
      && (a.response == Refuse ==>
           && b.decision == Denied && o.kind == DeniedByOperator && o.leaseAfter == p.lease
           && b.constitutionRules == [RuleRef("$kernel/approval/denied_by_operator", true)])
      && (a.response == Approve ==>
           && (forall e :: o.kind == DeniedByBudgetAtApproveTime(e) <==> CannotPay(p.lease, p.charge, e))
           && (forall e :: CannotPay(p.lease, p.charge, e) ==>
                b.decision == Denied && o.leaseAfter == p.lease && b.constitutionRules == [RuleRef(BudgetRuleId(e), true)]))
      && (a.response == Approve && !o.kind.DeniedByBudgetAtApproveTime? ==>
           && b.decision == Approved && o.kind == ApprovedAfterPending && b.constitutionRules == []
           && Paid(p.lease, p.charge, o.leaseAfter))
  {
    var p := a.originalProposal;
    DraftInReceipt(cfg, st, ResolveApproval(a), now, DecideApproval(cfg.crypto, a));
    LeaseRefusedWhy(p.lease, p.charge);
    if LeaseError(p.lease, p.charge).Some? {
      BudgetRuleSpelled(LeaseError(p.lease, p.charge).value);
    }
  }

  // ---------- sleep passes ----------

  function LightEdge(pass: SleepPass): ProvenanceEdge
  {
    match pass.outcome
    case Ok((rows, bytes)) =>
      ProvenanceEdge("cleaner:" + pass.name, "rows=" + NatText(rows) + " bytes=" + NatText(bytes), "light_sleep_pass")
    case Err(message) => ProvenanceEdge("cleaner:" + pass.name, "error: " + message, "light_sleep_failure")
  }

  function DeepEdge(pass: SleepPass): ProvenanceEdge
  {
    match pass.outcome
    case Ok((items, bytes)) =>
      ProvenanceEdge("walker:" + pass.name, "items=" + NatText(items) + " bytes=" + NatText(bytes), "deep_sleep_pass")
    case Err(message) => ProvenanceEdge("walker:" + pass.name, "error: " + message, "deep_sleep_failure")
  }

  function SleepEdge(depth: SleepDepth, pass: SleepPass): ProvenanceEdge
  {
    if depth.Light? then LightEdge(pass) else DeepEdge(pass)
  }

  /** Totals and failures add up over the passes, one pass counting its own figures. */
  lemma {:induction false} FiguresAddUp(xs: seq<SleepPass>, pass: SleepPass)
    ensures ExactTotal(xs + [pass], false) == ExactTotal(xs, false) + (match pass.outcome case Ok((n, _)) => n case Err(_) => 0)
    ensures ExactTotal(xs + [pass], true) == ExactTotal(xs, true) + (match pass.outcome case Ok((_, size)) => size case Err(_) => 0)
    ensures FailedPasses(xs + [pass]) == FailedPasses(xs) + (if pass.outcome.Err? then 1 else 0)
    ensures FailedPasses([]) == 0 && forall bytes :: ExactTotal([], bytes) == 0
  {
    if xs == [] {
      assert xs + [pass] == [pass] && [pass][1..] == [];
    } else {
      assert (xs + [pass])[0] == xs[0] && (xs + [pass])[1..] == xs[1..] + [pass];
      FiguresAddUp(xs[1..], pass);
    }
  }

  lemma EdgeWords()
    ensures "light_sleep" + "_pass" == "light_sleep_pass" && "light_sleep" + "_failure" == "light_sleep_failure"
    ensures "deep_sleep" + "_pass" == "deep_sleep_pass" && "deep_sleep" + "_failure" == "deep_sleep_failure"
  {
  }

  lemma PassEdgeIs(depth: SleepDepth, pass: SleepPass)
    ensures PassEdge(depth, pass) == SleepEdge(depth, pass)
  {
    EdgeWords();
  }

  function Wrapped(n: nat): nat { n % 0x1_0000_0000_0000_0000 }

  /** The action of a sleep receipt: how many passes ran, and their figures summed in u64
      arithmetic. */
  function SleepAction(depth: SleepDepth, passes: seq<SleepPass>): Action
  {
    var n, items, bytes, failed := NatText(|passes|), NatText(Wrapped(ExactTotal(passes, false))),
      NatText(Wrapped(ExactTotal(passes, true))), NatText(FailedPasses(passes));
    match depth
    case Light => Action("$kernel/sleep/light", "cleaners=" + n + " rows=" + items + " bytes=" + bytes + " failed=" + failed, ZERO)
    case Deep => Action("$kernel/sleep/deep", "walkers=" + n + " items=" + items + " bytes=" + bytes + " failed=" + failed, ZERO)
  }

  lemma SleepActionIs(depth: SleepDepth, passes: seq<SleepPass>)
    ensures DecideSleep(depth, passes).action == SleepAction(depth, passes)
  {
    PassTotalWraps(passes, false);
    PassTotalWraps(passes, true);
  }

  /** A sleep pass is Allowed and keeps one edge per cleaner or walker, in order. */
  lemma SleepOutcome(cfg: Config, st: KernelState, depth: SleepDepth, passes: seq<SleepPass>, now: string)
    requires SignerContract(cfg.crypto)
    ensures AnswerOf(cfg, st, RunSleep(depth, passes), now).Ok?
    ensures var o := AnswerOf(cfg, st, RunSleep(depth, passes), now).value;
      var b := o.receipt.body;
      && b.action == SleepAction(depth, passes) && b.decision == Allowed && b.constitutionRules == []
      && b.redactorStackHash == None && o.leaseAfter == None && o.kind == SleepCompleted(depth, FailedPasses(passes))
      && |b.provenance| == |passes|
      && forall i :: 0 <= i < |passes| ==> b.provenance[i] == SleepEdge(depth, passes[i])
  {
    SleepActionIs(depth, passes);
    DraftInReceipt(cfg, st, RunSleep(depth, passes), now, DecideSleep(depth, passes));
    forall i | 0 <= i < |passes| ensures PassEdge(depth, passes[i]) == SleepEdge(depth, passes[i]) {
      PassEdgeIs(depth, passes[i]);
    }
  }

  // ---------- tool executions ----------

  /** Why a recording is rejected: the first of the five checks that fails. */
  lemma RecordingRejectedWhy(cfg: Config, st: KernelState, e: ToolExecution, now: string)
    ensures var answer, r := AnswerOf(cfg, st, RecordToolExecution(e), now), e.allowedReceipt;
      var kind := r.body.action.kind;
      var bad, foreign, refused := !cfg.crypto.verify(r), r.issuer != cfg.crypto.publicKey, r.body.decision != Allowed;
      var plain, other := !(|kind| >= 5 && kind[..5] == "tool."), e.originalProposal.action != r.body.action;
      && (answer == Err(RecordToolExecutionRejected(AllowedSignatureInvalid)) <==> bad)
      && (answer == Err(RecordToolExecutionRejected(AllowedIssuerMismatch)) <==> !bad && foreign)
      && (answer == Err(RecordToolExecutionRejected(NotAnAllowedReceipt)) <==> !bad && !foreign && refused)
      && (answer == Err(RecordToolExecutionRejected(NotAToolAction)) <==> !bad && !foreign && !refused && plain)
      && (answer == Err(RecordToolExecutionRejected(ToolActionMismatch)) <==> !bad && !foreign && !refused && !plain && other)
      && (answer.Ok? <==> !bad && !foreign && !refused && !plain && !other)
  {
  }

  function RedactionMark(node: string, m: RuleMatch): ProvenanceEdge
  {
    ProvenanceEdge(node, "redaction:" + m.ruleId + ":count=" + NatText(m.count), "redaction_applied")
  }

  /** The rules that matched something, in order. */
  function Applied(ms: seq<RuleMatch>): seq<RuleMatch>
  {
    if ms == [] then [] else if ms[0].count > 0 then [ms[0]] + Applied(ms[1..]) else Applied(ms[1..])
  }

  /** One mark for each of these rules. */
  predicate MarksShown(marks: seq<ProvenanceEdge>, node: string, ms: seq<RuleMatch>)
  {
    |marks| == |ms| && forall k :: 0 <= k < |ms| ==> marks[k] == RedactionMark(node, ms[k])
  }

  lemma MarkInFront(marks: seq<ProvenanceEdge>, node: string, m: RuleMatch, ms: seq<RuleMatch>)
    requires MarksShown(marks, node, ms)
    ensures MarksShown([RedactionMark(node, m)] + marks, node, [m] + ms)
  {
  }

  lemma {:induction false} RedactionMarks(node: string, ms: seq<RuleMatch>)
    ensures MarksShown(RedactionEdges(node, ms), node, Applied(ms))
  {
    if ms != [] {
      var rest := RedactionEdges(node, ms[1..]);
      RedactionMarks(node, ms[1..]);
      if ms[0].count > 0 {
        MarkInFront(rest, node, ms[0], Applied(ms[1..]));
      } else {
        assert [] + rest == rest;
      }
    }
  }

  function CapabilityWord(c: Capability): string
  {
    match c
    case NetConnect(_) => "net_connect"
    case FileRead(_) => "file_read"
    case FileWrite(_) => "file_write"
    case ShellExec(_) => "shell_exec"
    case EnvRead(_) => "env_read"
    case LlmQuery(_) => "llm_query"
    case SecretRead(_) => "secret_read"
  }

  function FailureWord(e: ToolError): string
  {
    match e
    case ToolNotFound(_) => "not_found"
    case InvalidInput(_) => "invalid_input"
    case Failed(_) => "failed"
    case Timeout => "timeout"
    case CapabilityDenied(_) => "capability_denied"
  }

  /** The failure edge's text. */
  function FailureText(e: ToolError): string
  {
    "error[" + FailureWord(e) + "]: " +
    match e
    case ToolNotFound(name) => "tool not found: " + name
    case InvalidInput(message) => message
    case Failed(message) => message
    case Timeout => "timeout"
    case CapabilityDenied(attempted) => "capability denied: " + CapabilityWord(attempted)
  }

  lemma FailureSpelled(e: ToolError)
    ensures ErrorName(e) == FailureWord(e) && "error[" + ErrorName(e) + "]: " + ErrorMessage(e) == FailureText(e)
  {
  }

  /** The node a recording's edges start from. */
  function NodeOf(cfg: Config, r: Receipt): string { "receipt:" + Hex(cfg.crypto.contentId(r.body)) }

  /** The secrets used, one edge each and in order, and the redaction rules that applied. */
  predicate AuditShown(
    used: seq<ProvenanceEdge>, marks: seq<ProvenanceEdge>, node: string, secrets: seq<string>, redaction: Option<RedactionReport>)
  {
    && |used| == |secrets|
    && (forall i :: 0 <= i < |used| ==> used[i] == ProvenanceEdge(node, "secret:" + secrets[i], "secret_used"))
    && match redaction case None => marks == [] case Some(report) => MarksShown(marks, node, Applied(report.matches))
  }

  /** A recorded success shows what was run on what input with what output, the redacted hash if
      there was a redaction, every secret used and every redaction rule that applied, and
      nothing else. */
  ghost predicate ShowsSuccess(
    b: ReceiptBody, node: string, name: string, input: Digest, output: ToolOutput, redaction: Option<RedactionReport>)
  {
    var hash := match redaction case Some(report) => report.redactedOutputHash case None => output.outputHash;
    && b.action == Action("$kernel/tool/executed", "tool=" + name + " status=ok", ZERO)
    && exists used, marks :: AuditShown(used, marks, node, output.secretsUsed, redaction) &&
         b.provenance == [ProvenanceEdge(node, "tool:" + name, "tool_execution"),
                          ProvenanceEdge(node, "input:" + Hex(input), "tool_input"),
                          ProvenanceEdge(node, "output:" + Hex(hash), "tool_output")] + (used + marks)
  }

  lemma KindsKnown(
      used: seq<ProvenanceEdge>, marks: seq<ProvenanceEdge>, node: string, secrets: seq<string>, redaction: Option<RedactionReport>)
    requires AuditShown(used, marks, node, secrets, redaction)
    ensures forall x :: x in used + marks ==> x.kind == "secret_used" || x.kind == "redaction_applied"
  {
  }

  // Three edges in front of others.
  lemma ThreeInFront(es: seq<ProvenanceEdge>, x: ProvenanceEdge, y: ProvenanceEdge, z: ProvenanceEdge, more: seq<ProvenanceEdge>)
    requires es == [x, y, z] + more
    ensures es[0] == x && es[1] == y && es[2] == z && forall i :: 3 <= i < |es| ==> es[i] in more
  {
    forall i | 3 <= i < |es| ensures es[i] in more {
      assert es[i] == more[i - 3];
    }
  }

  /** There is exactly one edge for the tool, one for the input and one for the output. */
  lemma OneEdgeEach(b: ReceiptBody, node: string, name: string, input: Digest, output: ToolOutput, redaction: Option<RedactionReport>)
    requires ShowsSuccess(b, node, name, input, output, redaction)
    ensures var es := b.provenance;
      forall i :: 0 <= i < |es| ==>
        && (es[i].kind == "tool_execution" <==> i == 0) && (es[i].kind == "tool_input" <==> i == 1)
        && (es[i].kind == "tool_output" <==> i == 2)
  {
    var hash := match redaction case Some(report) => report.redactedOutputHash case None => output.outputHash;
    var x, y, z := ProvenanceEdge(node, "tool:" + name, "tool_execution"), ProvenanceEdge(node, "input:" + Hex(input), "tool_input"),
      ProvenanceEdge(node, "output:" + Hex(hash), "tool_output");
    var used, marks :| AuditShown(used, marks, node, output.secretsUsed, redaction) && b.provenance == [x, y, z] + (used + marks);
    KindsApart();
    KindsKnown(used, marks, node, output.secretsUsed, redaction);
    ThreeInFront(b.provenance, x, y, z, used + marks);
  }

  // The kinds of edge differ in length or in their first letter.
  lemma KindsApart()
    ensures |"tool_execution"| == 14 && |"tool_input"| == 10 && |"tool_output"| == 11
    ensures |"secret_used"| == 11 && |"redaction_applied"| == 17 && "tool_output" != "secret_used"
  {
    assert "tool_output"[0] == 't' && "secret_used"[0] == 's';
  }

  lemma AuditTrailShown(node: string, secrets: seq<string>, redaction: Option<RedactionReport>)
      returns (used: seq<ProvenanceEdge>, marks: seq<ProvenanceEdge>)
    ensures AuditShown(used, marks, node, secrets, redaction) && AuditTrail(node, secrets, redaction) == used + marks
  {
    used, marks := SecretEdges(node, secrets), [];
    if redaction.Some? {
      marks := RedactionEdges(node, redaction.value.matches);
      RedactionMarks(node, redaction.value.matches);
    }
  }

  /** A recorded failure shows the tool, the kind of failure and its message, and nothing else. */
  predicate ShowsFailure(b: ReceiptBody, node: string, name: string, err: ToolError)
  {
    && b.provenance == [ProvenanceEdge(node, "tool:" + name, "tool_execution"),
                        ProvenanceEdge(node, FailureText(err), "tool_execution_failure")]
    && b.action == Action("$kernel/tool/executed", "tool=" + name + " status=failed kind=" + FailureWord(err), ZERO)
  }

  lemma SuccessDraft(c: Crypto, e: ToolExecution, output: ToolOutput, name: string)
    requires e.result == Ok(output) && StripTool(e.allowedReceipt.body.action.kind) == name
    ensures var d, r := DecideTool(c, e), e.allowedReceipt;
      var hash, node := FinalOutputHash(output, e.redaction), "receipt:" + Hex(c.contentId(r.body));
      && d.action == Action("$kernel/tool/executed", "tool=" + name + " status=ok", ZERO)
      && d.provenance == ExecutionEdges(c, r, hash) + AuditTrail(node, output.secretsUsed, e.redaction)
      && d.kind == ToolExecutedAllowed(r.body.action.inputHash, hash)
  {
  }

  lemma SuccessShown(c: Crypto, e: ToolExecution, output: ToolOutput, name: string, b: ReceiptBody)
    requires e.result == Ok(output) && StripTool(e.allowedReceipt.body.action.kind) == name
    requires b.action == DecideTool(c, e).action && b.provenance == DecideTool(c, e).provenance
    ensures ShowsSuccess(b, "receipt:" + Hex(c.contentId(e.allowedReceipt.body)), name, e.allowedReceipt.body.action.inputHash, output, e.redaction)
  {
    var node := "receipt:" + Hex(c.contentId(e.allowedReceipt.body));
    SuccessDraft(c, e, output, name);
    var used, marks := AuditTrailShown(node, output.secretsUsed, e.redaction);
  }

  lemma FailureDraft(c: Crypto, e: ToolExecution, err: ToolError, name: string)
    requires e.result == Err(err) && StripTool(e.allowedReceipt.body.action.kind) == name
    ensures var d, r := DecideTool(c, e), e.allowedReceipt;
      var node := "receipt:" + Hex(c.contentId(r.body));
      && d.action == Action("$kernel/tool/executed", "tool=" + name + " status=failed kind=" + FailureWord(err), ZERO)
      && d.provenance == [ProvenanceEdge(node, "tool:" + name, "tool_execution"),
                          ProvenanceEdge(node, FailureText(err), "tool_execution_failure")]
      && d.kind == ToolExecutedFailed(r.body.action.inputHash)
  {
    FailureSpelled(err);
  }

  /** What an accepted recording mints.  A success commits, in edge and outcome alike, to the
      redacted hash if there was a redaction and to the tool's own hash otherwise. */
  lemma ExecutionShown(cfg: Config, st: KernelState, e: ToolExecution, now: string)
    requires SignerContract(cfg.crypto) && AnswerOf(cfg, st, RecordToolExecution(e), now).Ok?
    ensures var o, r := AnswerOf(cfg, st, RecordToolExecution(e), now).value, e.allowedReceipt;
      var b, node, kind := o.receipt.body, NodeOf(cfg, r), r.body.action.kind;
      && |kind| >= 5 && kind[..5] == "tool." && b.decision == Allowed && b.constitutionRules == [] && o.leaseAfter == None
      && b.redactorStackHash == (match e.redaction case None => None case Some(report) => Some(report.stackHash))
      && match e.result
         case Ok(output) =>
           ShowsSuccess(b, node, kind[5..], r.body.action.inputHash, output, e.redaction)
           && o.kind == ToolExecutedAllowed(r.body.action.inputHash, match e.redaction
             case Some(report) => report.redactedOutputHash
             case None => output.outputHash)
         case Err(err) => ShowsFailure(b, node, kind[5..], err) && o.kind == ToolExecutedFailed(r.body.action.inputHash)
  {
    RecordingRejectedWhy(cfg, st, e, now);
    var d := DecideTool(cfg.crypto, e);
    var name := e.allowedReceipt.body.action.kind[5..];
    DraftInReceipt(cfg, st, RecordToolExecution(e), now, d);
    match e.result
    case Ok(output) =>
      SuccessDraft(cfg.crypto, e, output, name);
      SuccessShown(cfg.crypto, e, output, name, AnswerOf(cfg, st, RecordToolExecution(e), now).value.receipt.body);
    case Err(err) => FailureDraft(cfg.crypto, e, err, name);
  }
}
