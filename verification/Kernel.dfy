/** The kernel: what each event decides, and how every accepted event mints one signed,
    chained receipt. */
module Kernel {
  import opened Wrappers
  import opened Texts
  import opened Json
  import opened Receipts
  import opened Crypto
  import opened Budgets
  import opened Constitution
  import opened Capabilities

  // ---------- events ----------

  datatype Proposal = Proposal(
    action: Action,
    decision: Decision,
    constitutionRules: seq<RuleRef>,
    provenance: seq<ProvenanceEdge>,
    lease: Option<Lease>,
    charge: ResourceUse)

  datatype Response = Approve | Refuse
  datatype Approval = Approval(pendingReceipt: Receipt, originalProposal: Proposal, response: Response)

  datatype ToolError =
    | ToolNotFound(toolName: string)
    | InvalidInput(message: string)
    | Failed(message: string)
    | Timeout
    | CapabilityDenied(attempted: Capability)

  datatype ToolOutput = ToolOutput(outputHash: Digest, secretsUsed: seq<string>)
  datatype RuleMatch = RuleMatch(ruleId: string, count: u32)
  datatype RedactionReport = RedactionReport(redactedOutputHash: Digest, matches: seq<RuleMatch>, stackHash: Digest)
  datatype ToolExecution = ToolExecution(
    allowedReceipt: Receipt,
    originalProposal: Proposal,
    result: Result<ToolOutput, ToolError>,
    redaction: Option<RedactionReport>)

  // One cleaner's or walker's pass: rows (or items) and bytes, or an error message.
  datatype SleepPass = SleepPass(name: string, outcome: Result<(u64, u64), string>)
  datatype SleepDepth = Light | Deep

  datatype Event =
    | EvaluateProposal(proposal: Proposal)
    | ResolveApproval(approval: Approval)
    | RunSleep(depth: SleepDepth, passes: seq<SleepPass>)
    | RecordToolExecution(execution: ToolExecution)

  // ---------- outcomes ----------

  datatype OutcomeKind =
    | OutcomeAllowed
    | DeniedByConstitution
    | DeniedByBudget(error: BudgetError)
    | AllowedAsDenied
    | PendingApproval
    | ApprovedAfterPending
    | DeniedByOperator
    | DeniedByBudgetAtApproveTime(error: BudgetError)
    | SleepCompleted(depth: SleepDepth, failed: nat)
    | ToolExecutedAllowed(inputHash: Digest, outputHash: Digest)
    | ToolExecutedFailed(inputHash: Digest)

  datatype ApprovalRejection = PendingSignatureInvalid | PendingIssuerMismatch | NotAPendingReceipt | ApprovalActionMismatch
  datatype ToolRejection =
    AllowedSignatureInvalid | AllowedIssuerMismatch | NotAnAllowedReceipt | NotAToolAction | ToolActionMismatch
  datatype KernelError = ResolveApprovalRejected(approval: ApprovalRejection) | RecordToolExecutionRejected(tool: ToolRejection)

  datatype Outcome = Outcome(receipt: Receipt, leaseAfter: Option<Lease>, kind: OutcomeKind)

  // ---------- configuration and state ----------

  datatype Config = Config(crypto: Crypto, keyId: Option<string>, rules: seq<Rule>)

  datatype KernelState = KernelState(sequence: u64, prevHash: Digest)

  function Genesis(): KernelState { KernelState(0, ZERO) }

  function Advance(st: KernelState, leaf: Digest): KernelState
  {
    KernelState(SatAdd64(st.sequence, 1), leaf)
  }

  /** Everything an accepted event settles before the receipt is minted. */
  datatype Draft = Draft(
    action: Action,
    decision: Decision,
    rules: seq<RuleRef>,
    provenance: seq<ProvenanceEdge>,
    redactor: Option<Digest>,
    leaseAfter: Option<Lease>,
    kind: OutcomeKind)

  // ---------- proposals ----------

  function ShortName(e: BudgetError): string
  {
    match e
    case NetBytesExhausted => "net_bytes_exhausted"
    case FileWritesExhausted => "file_writes_exhausted"
    case LlmTokensExhausted => "llm_tokens_exhausted"
    case WallTimeExhausted => "wall_time_exhausted"
    case UsesExhausted => "uses_exhausted"
    case DelegationExceedsParent => "delegation_exceeds_parent"
    case Revoked => "lease_revoked"
  }

  const BUDGET_PREFIX := "$kernel/budget/"
  const APPROVAL_PREFIX := "$kernel/approval/"

  function BudgetRule(e: BudgetError): RuleRef { RuleRef(BUDGET_PREFIX + ShortName(e), true) }

  const OPERATOR_RULE := RuleRef("$kernel/approval/denied_by_operator", true)

  function MergeRules(caller: seq<RuleRef>, matched: seq<RuleRef>): seq<RuleRef>
  {
    if matched == [] then caller else matched
  }

  /** The error of charging an optional lease. */
  function LeaseError(lease: Option<Lease>, charge: ResourceUse): Option<BudgetError>
  {
    if lease.None? then None else ChargeError(lease.value, charge)
  }

  function LeaseCharged(lease: Option<Lease>, charge: ResourceUse): Option<Lease>
  {
    if lease.None? then None else Some(Charged(lease.value, charge))
  }

  /** The constitution first, then the budget unless the constitution denied or asked for
      approval.  A pending decision proposed by the caller is charged. */
  function DecideProposal(rules: seq<Rule>, p: Proposal): Draft
  {
    var verdict := Evaluate(rules, p.action);
    var proposed := if verdict.overrideDecision.Some? then verdict.overrideDecision.value else p.decision;
    var merged := MergeRules(p.constitutionRules, verdict.matchedRules);
    var charging := proposed != Denied && verdict.overrideDecision != Some(Pending);
    var error := if charging then LeaseError(p.lease, p.charge) else None;
    var lease := if charging then LeaseCharged(p.lease, p.charge) else p.lease;
    var decision := if error.Some? then Denied else proposed;
    Draft(p.action, decision, merged + (if error.Some? then [BudgetRule(error.value)] else []), p.provenance, None, lease,
          if error.Some? then DeniedByBudget(error.value)
          else if decision == Pending then PendingApproval
          else if verdict.overrideDecision.Some? then DeniedByConstitution
          else if decision == Denied then AllowedAsDenied
          else OutcomeAllowed)
  }

  // ---------- approvals ----------

  function ReceiptNode(c: Crypto, r: Receipt): string { "receipt:" + Hex(ContentId(c, r)) }

  function ApprovalEdge(c: Crypto, pending: Receipt): ProvenanceEdge
  {
    ProvenanceEdge(ReceiptNode(c, pending), "decision", "approval_response")
  }

  function ApprovalGate(c: Crypto, a: Approval): Option<ApprovalRejection>
  {
    if !c.verify(a.pendingReceipt) then Some(PendingSignatureInvalid)
    else if a.pendingReceipt.issuer != c.publicKey then Some(PendingIssuerMismatch)
    else if a.pendingReceipt.body.decision != Pending then Some(NotAPendingReceipt)
    else if a.originalProposal.action != a.pendingReceipt.body.action then Some(ApprovalActionMismatch)
    else None
  }

  function DecideApproval(c: Crypto, a: Approval): Draft
  {
    var p := a.originalProposal;
    var provenance := p.provenance + [ApprovalEdge(c, a.pendingReceipt)];
    match a.response
    case Refuse => Draft(p.action, Denied, [OPERATOR_RULE], provenance, None, p.lease, DeniedByOperator)
    case Approve =>
      var error := LeaseError(p.lease, p.charge);
      Draft(p.action, if error.Some? then Denied else Approved, if error.Some? then [BudgetRule(error.value)] else [],
            provenance, None, LeaseCharged(p.lease, p.charge),
            if error.Some? then DeniedByBudgetAtApproveTime(error.value) else ApprovedAfterPending)
  }

  // ---------- sleep passes ----------

  /** What one pass adds to a total: nothing if it failed. */
  function PassAmount(pass: SleepPass, bytes: bool): u64
  {
    match pass.outcome
    case Ok((items, size)) => if bytes then size else items
    case Err(_) => 0
  }

  /** A total over the passes, in u64 arithmetic that wraps around. */
  function PassTotal(passes: seq<SleepPass>, bytes: bool): u64
  {
    if passes == [] then 0 else (PassAmount(passes[0], bytes) + PassTotal(passes[1..], bytes)) % 0x1_0000_0000_0000_0000
  }

  function ExactTotal(passes: seq<SleepPass>, bytes: bool): nat
  {
    if passes == [] then 0 else PassAmount(passes[0], bytes) + ExactTotal(passes[1..], bytes)
  }

  /** The total is exact exactly while the exact sum fits, and otherwise that sum modulo 2^64. */
  lemma {:induction false} PassTotalWraps(passes: seq<SleepPass>, bytes: bool)
    ensures PassTotal(passes, bytes) == ExactTotal(passes, bytes) % 0x1_0000_0000_0000_0000
    ensures PassTotal(passes, bytes) == ExactTotal(passes, bytes) <==> ExactTotal(passes, bytes) < 0x1_0000_0000_0000_0000
  {
    if passes != [] {
      PassTotalWraps(passes[1..], bytes);
      WrapsAgain(PassAmount(passes[0], bytes), ExactTotal(passes[1..], bytes));
    }
  }

  lemma TwoPasses(a: SleepPass, b: SleepPass, bytes: bool)
    ensures ExactTotal([a, b], bytes) == PassAmount(a, bytes) + PassAmount(b, bytes)
  {
    assert [a, b][1..] == [b] && [b][1..] == [];
    assert ExactTotal([b], bytes) == PassAmount(b, bytes) + ExactTotal([], bytes);
  }

  /** Two passes of 2^63 bytes each report a total of 0. */
  lemma PassTotalWrapsOn(first: string, second: string)
    ensures var a := SleepPass(first, Ok((1, 0x8000_0000_0000_0000)));
      var b := SleepPass(second, Ok((1, 0x8000_0000_0000_0000)));
      ExactTotal([a, b], true) == 0x1_0000_0000_0000_0000 && PassTotal([a, b], true) == 0
  {
    var a := SleepPass(first, Ok((1, 0x8000_0000_0000_0000)));
    var b := SleepPass(second, Ok((1, 0x8000_0000_0000_0000)));
    TwoPasses(a, b, true);
    PassTotalWraps([a, b], true);
  }

  lemma WrapsAgain(a: nat, b: nat)
    ensures (a + b % 0x1_0000_0000_0000_0000) % 0x1_0000_0000_0000_0000 == (a + b) % 0x1_0000_0000_0000_0000
  {
  }

  function FailedPasses(passes: seq<SleepPass>): nat
  {
    if passes == [] then 0 else (if passes[0].outcome.Err? then 1 else 0) + FailedPasses(passes[1..])
  }

  function PassEdge(depth: SleepDepth, pass: SleepPass): ProvenanceEdge
  {
    var who, rows, tag := if depth.Light? then "cleaner:" else "walker:", if depth.Light? then "rows=" else "items=",
      if depth.Light? then "light_sleep" else "deep_sleep";
    match pass.outcome
    case Ok((items, size)) => ProvenanceEdge(who + pass.name, rows + NatText(items) + " bytes=" + NatText(size), tag + "_pass")
    case Err(message) => ProvenanceEdge(who + pass.name, "error: " + message, tag + "_failure")
  }

  function DecideSleep(depth: SleepDepth, passes: seq<SleepPass>): Draft
  {
    var counted, rows := if depth.Light? then "cleaners=" else "walkers=", if depth.Light? then " rows=" else " items=";
    Draft(Action(if depth.Light? then "$kernel/sleep/light" else "$kernel/sleep/deep",
                 counted + NatText(|passes|) + rows + NatText(PassTotal(passes, false)) +
                 " bytes=" + NatText(PassTotal(passes, true)) + " failed=" + NatText(FailedPasses(passes)), ZERO),
          Allowed, [], seq(|passes|, i requires 0 <= i < |passes| => PassEdge(depth, passes[i])), None, None,
          SleepCompleted(depth, FailedPasses(passes)))
  }

  // ---------- tool executions ----------

  function ToolGate(c: Crypto, e: ToolExecution): Option<ToolRejection>
  {
    var r := e.allowedReceipt;
    if !c.verify(r) then Some(AllowedSignatureInvalid)
    else if r.issuer != c.publicKey then Some(AllowedIssuerMismatch)
    else if r.body.decision != Allowed then Some(NotAnAllowedReceipt)
    else if !StartsWith(r.body.action.kind, "tool.") then Some(NotAToolAction)
    else if e.originalProposal.action != r.body.action then Some(ToolActionMismatch)
    else None
  }

  function StripTool(kind: string): string { if StartsWith(kind, "tool.") then kind[5..] else kind }

  function ErrorName(e: ToolError): string
  {
    match e
    case ToolNotFound(_) => "not_found"
    case InvalidInput(_) => "invalid_input"
    case Failed(_) => "failed"
    case Timeout => "timeout"
    case CapabilityDenied(_) => "capability_denied"
  }

  function ErrorMessage(e: ToolError): string
  {
    match e
    case ToolNotFound(name) => "tool not found: " + name
    case InvalidInput(m) => m
    case Failed(m) => m
    case Timeout => "timeout"
    case CapabilityDenied(attempted) => "capability denied: " + VariantName(attempted)
  }

  function ToolEdge(c: Crypto, r: Receipt): ProvenanceEdge
  {
    ProvenanceEdge(ReceiptNode(c, r), "tool:" + StripTool(r.body.action.kind), "tool_execution")
  }

  function SecretEdges(node: string, secrets: seq<string>): seq<ProvenanceEdge>
  {
    seq(|secrets|, i requires 0 <= i < |secrets| => ProvenanceEdge(node, "secret:" + secrets[i], "secret_used"))
  }

  // A rule that matched nothing leaves no edge.
  function RedactionEdge(node: string, m: RuleMatch): seq<ProvenanceEdge>
  {
    if m.count == 0 then []
    else [ProvenanceEdge(node, "redaction:" + m.ruleId + ":count=" + NatText(m.count), "redaction_applied")]
  }

  function RedactionEdges(node: string, matches: seq<RuleMatch>): seq<ProvenanceEdge>
  {
    if matches == [] then [] else RedactionEdge(node, matches[0]) + RedactionEdges(node, matches[1..])
  }

  function FinalOutputHash(output: ToolOutput, redaction: Option<RedactionReport>): Digest
  {
    if redaction.Some? then redaction.value.redactedOutputHash else output.outputHash
  }

  /** The edges every successful execution has: which receipt allowed it, on what input, with
      what output. */
  function ExecutionEdges(c: Crypto, r: Receipt, hash: Digest): seq<ProvenanceEdge>
  {
    [ToolEdge(c, r), ProvenanceEdge(ReceiptNode(c, r), "input:" + Hex(r.body.action.inputHash), "tool_input"),
     ProvenanceEdge(ReceiptNode(c, r), "output:" + Hex(hash), "tool_output")]
  }

  function FailureEdges(c: Crypto, r: Receipt, err: ToolError): seq<ProvenanceEdge>
  {
    [ToolEdge(c, r),
     ProvenanceEdge(ReceiptNode(c, r), "error[" + ErrorName(err) + "]: " + ErrorMessage(err), "tool_execution_failure")]
  }

  function AuditTrail(node: string, secrets: seq<string>, redaction: Option<RedactionReport>): seq<ProvenanceEdge>
  {
    SecretEdges(node, secrets) + (if redaction.Some? then RedactionEdges(node, redaction.value.matches) else [])
  }

  function DecideTool(c: Crypto, e: ToolExecution): Draft
  {
    var r := e.allowedReceipt;
    var name, input := StripTool(r.body.action.kind), r.body.action.inputHash;
    var redactor := if e.redaction.Some? then Some(e.redaction.value.stackHash) else None;
    match e.result
    case Ok(output) =>
      var hash := FinalOutputHash(output, e.redaction);
      Draft(Action("$kernel/tool/executed", "tool=" + name + " status=ok", ZERO), Allowed, [],
            ExecutionEdges(c, r, hash) + AuditTrail(ReceiptNode(c, r), output.secretsUsed, e.redaction),
            redactor, None, ToolExecutedAllowed(input, hash))
    case Err(err) =>
      Draft(Action("$kernel/tool/executed", "tool=" + name + " status=failed kind=" + ErrorName(err), ZERO), Allowed, [],
            FailureEdges(c, r, err), redactor, None, ToolExecutedFailed(input))
  }

  // ---------- one event ----------

  function Decide(cfg: Config, ev: Event): Result<Draft, KernelError>
  {
    match ev
    case EvaluateProposal(p) => Ok(DecideProposal(cfg.rules, p))
    case ResolveApproval(a) =>
      var rejection := ApprovalGate(cfg.crypto, a);
      if rejection.Some? then Err(ResolveApprovalRejected(rejection.value)) else Ok(DecideApproval(cfg.crypto, a))
    case RunSleep(depth, passes) => Ok(DecideSleep(depth, passes))
    case RecordToolExecution(e) =>
      var rejection := ToolGate(cfg.crypto, e);
      if rejection.Some? then Err(RecordToolExecutionRejected(rejection.value)) else Ok(DecideTool(cfg.crypto, e))
  }

  function NextLeaf(cfg: Config, st: KernelState, now: string, d: Draft): Digest
  {
    cfg.crypto.leafHash(LeafFields(st.sequence, now, d.action, d.decision, st.prevHash))
  }

  function MintBody(cfg: Config, st: KernelState, now: string, d: Draft): ReceiptBody
  {
    ReceiptBody(RECEIPT_FORMAT_VERSION, now, d.action, d.decision, d.rules, d.provenance, d.redactor, cfg.keyId,
                MerkleLeaf(st.sequence, NextLeaf(cfg, st, now, d), st.prevHash))
  }

  function Minted(cfg: Config, st: KernelState, now: string, d: Draft): Receipt
  {
    cfg.crypto.sign(MintBody(cfg, st, now, d))
  }

  /** The whole kernel step. */
  function Handled(cfg: Config, st: KernelState, ev: Event, now: string): (KernelState, Result<Outcome, KernelError>)
  {
    match Decide(cfg, ev)
    case Err(e) => (st, Err(e))
    case Ok(d) =>
      (Advance(st, NextLeaf(cfg, st, now, d)), Ok(Outcome(Minted(cfg, st, now, d), d.leaseAfter, d.kind)))
  }
}
