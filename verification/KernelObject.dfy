/** The kernel as the object it is: one method per event, a shared `mint`, and state that
    only `mint` advances. */
module KernelObject {
  import opened Wrappers
  import opened Texts
  import opened Json
  import opened Receipts
  import opened Crypto
  import opened Budgets
  import opened Constitution
  import opened Kernel

  class KernelObject {
    const cfg: Config
    var state: KernelState

    constructor New(c: Config)
      ensures cfg == c && state == Genesis()
    {
      cfg := c;
      state := KernelState(0, ZERO);
    }

    constructor Resume(c: Config, st: KernelState)
      ensures cfg == c && state == st
    {
      cfg := c;
      state := st;
    }

    method Mint(issuedAt: string, action: Action, decision: Decision, rules: seq<RuleRef>, provenance: seq<ProvenanceEdge>,
                redactor: Option<Digest>, ghost d: Draft) returns (receipt: Receipt)
      requires d.action == action && d.decision == decision && d.rules == rules && d.provenance == provenance
      requires d.redactor == redactor
      modifies this
      ensures receipt == Minted(cfg, old(state), issuedAt, d)
      ensures state == Advance(old(state), NextLeaf(cfg, old(state), issuedAt, d))
    {
      var leafHash := cfg.crypto.leafHash(LeafFields(state.sequence, issuedAt, action, decision, state.prevHash));
      var body := ReceiptBody(RECEIPT_FORMAT_VERSION, issuedAt, action, decision, rules, provenance, redactor, cfg.keyId,
                              MerkleLeaf(state.sequence, leafHash, state.prevHash));
      receipt := cfg.crypto.sign(body);
      state := KernelState(SatAdd64(state.sequence, 1), leafHash);
    }

    method HandleProposal(p: Proposal, now: string) returns (outcome: Outcome)
      modifies this
      ensures (state, Ok(outcome)) == Handled(cfg, old(state), EvaluateProposal(p), now)
    {
      // 1. Constitution.
      var verdict := EvaluateRules(cfg.rules, p.action);
      var finalDecision := if verdict.overrideDecision.Some? then verdict.overrideDecision.value else p.decision;
      var rules := if verdict.matchedRules == [] then p.constitutionRules else verdict.matchedRules;
      var constitutionOverrode := verdict.overrideDecision.Some?;
      var constitutionSetPending := verdict.overrideDecision == Some(Pending);

      // 2. Budget.
      var leaseAfter := p.lease;
      var budgetError: Option<BudgetError> := None;
      if finalDecision != Denied && !constitutionSetPending && leaseAfter.Some? {
        var lease := new CapabilityLease(leaseAfter.value);
        var charged := lease.TryCharge(p.charge);
        leaseAfter := Some(lease.View());
        if charged.Err? {
          finalDecision := Denied;
          budgetError := Some(charged.error);
          rules := rules + [RuleRef("$kernel/budget/" + ShortName(charged.error), true)];
        }
      }

      // 3. The receipt.
      var kind :=
        if budgetError.Some? then DeniedByBudget(budgetError.value)
        else if finalDecision == Pending then PendingApproval
        else if constitutionOverrode then DeniedByConstitution
        else if finalDecision == Denied then AllowedAsDenied
        else OutcomeAllowed;
      var receipt := Mint(now, p.action, finalDecision, rules, p.provenance, None, DecideProposal(cfg.rules, p));
      outcome := Outcome(receipt, leaseAfter, kind);
    }

    method HandleResolveApproval(a: Approval, now: string) returns (r: Result<Outcome, KernelError>)
      modifies this
      ensures (state, r) == Handled(cfg, old(state), ResolveApproval(a), now)
    {
      if !cfg.crypto.verify(a.pendingReceipt) {
        return Err(ResolveApprovalRejected(PendingSignatureInvalid));
      }
      if a.pendingReceipt.issuer != cfg.crypto.publicKey {
        return Err(ResolveApprovalRejected(PendingIssuerMismatch));
      }
      if a.pendingReceipt.body.decision != Pending {
        return Err(ResolveApprovalRejected(NotAPendingReceipt));
      }
      if a.originalProposal.action != a.pendingReceipt.body.action {
        return Err(ResolveApprovalRejected(ApprovalActionMismatch));
      }
      var edge := ProvenanceEdge("receipt:" + Hex(ContentId(cfg.crypto, a.pendingReceipt)), "decision", "approval_response");
      var provenance := a.originalProposal.provenance + [edge];
      var leaseAfter := a.originalProposal.lease;
      var budgetError: Option<BudgetError> := None;
      var rules: seq<RuleRef> := [];
      var finalDecision;
      match a.response {
        case Approve =>
          finalDecision := Approved;
          if leaseAfter.Some? {
            var lease := new CapabilityLease(leaseAfter.value);
            var charged := lease.TryCharge(a.originalProposal.charge);
            leaseAfter := Some(lease.View());
            if charged.Err? {
              budgetError := Some(charged.error);
              rules := [RuleRef("$kernel/budget/" + ShortName(charged.error), true)];
              finalDecision := Denied;
            }
          }
        case Refuse =>
          rules := [RuleRef("$kernel/approval/denied_by_operator", true)];
          finalDecision := Denied;
      }
      var kind := match a.response
        case Approve => if budgetError.Some? then DeniedByBudgetAtApproveTime(budgetError.value) else ApprovedAfterPending
        case Refuse => DeniedByOperator;
      var receipt := Mint(now, a.originalProposal.action, finalDecision, rules, provenance, None, DecideApproval(cfg.crypto, a));
      r := Ok(Outcome(receipt, leaseAfter, kind));
    }

    method HandleSleep(depth: SleepDepth, passes: seq<SleepPass>, now: string) returns (outcome: Outcome)
      modifies this
      ensures (state, Ok(outcome)) == Handled(cfg, old(state), RunSleep(depth, passes), now)
    {
      var d := DecideSleep(depth, passes);
      var provenance := PassEdges(depth, passes);
      var receipt := Mint(now, d.action, Allowed, [], provenance, None, d);
      outcome := Outcome(receipt, None, SleepCompleted(depth, FailedPasses(passes)));
    }

    /** One edge per pass. */
    method PassEdges(depth: SleepDepth, passes: seq<SleepPass>) returns (es: seq<ProvenanceEdge>)
      ensures es == DecideSleep(depth, passes).provenance
    {
      es := [];
      var i := 0;
      while i < |passes|
        invariant 0 <= i <= |passes| && |es| == i
        invariant forall j :: 0 <= j < i ==> es[j] == PassEdge(depth, passes[j])
      {
        es := es + [PassEdge(depth, passes[i])];
        i := i + 1;
      }
    }

    method HandleRecordToolExecution(e: ToolExecution, now: string) returns (r: Result<Outcome, KernelError>)
      modifies this
      ensures (state, r) == Handled(cfg, old(state), RecordToolExecution(e), now)
    {
      var allowed := e.allowedReceipt;
      if !cfg.crypto.verify(allowed) {
        return Err(RecordToolExecutionRejected(AllowedSignatureInvalid));
      }
      if allowed.issuer != cfg.crypto.publicKey {
        return Err(RecordToolExecutionRejected(AllowedIssuerMismatch));
      }
      if allowed.body.decision != Allowed {
        return Err(RecordToolExecutionRejected(NotAnAllowedReceipt));
      }
      if !StartsWith(allowed.body.action.kind, "tool.") {
        return Err(RecordToolExecutionRejected(NotAToolAction));
      }
      if e.originalProposal.action != allowed.body.action {
        return Err(RecordToolExecutionRejected(ToolActionMismatch));
      }
      var provenance, kind, target := ToolEvidence(e);
      var action := Action("$kernel/tool/executed", target, ZERO);
      var redactor := if e.redaction.Some? then Some(e.redaction.value.stackHash) else None;
      var receipt := Mint(now, action, Allowed, [], provenance, redactor, DecideTool(cfg.crypto, e));
      r := Ok(Outcome(receipt, None, kind));
    }

    /** The edges of an execution, its outcome kind and its summary. */
    method ToolEvidence(e: ToolExecution) returns (provenance: seq<ProvenanceEdge>, kind: OutcomeKind, target: string)
      ensures var d := DecideTool(cfg.crypto, e);
        provenance == d.provenance && kind == d.kind && d.action == Action("$kernel/tool/executed", target, ZERO)
    {
      var node := "receipt:" + Hex(ContentId(cfg.crypto, e.allowedReceipt));
      var toolName := StripTool(e.allowedReceipt.body.action.kind);
      var input := e.allowedReceipt.body.action.inputHash;
      provenance := [ProvenanceEdge(node, "tool:" + toolName, "tool_execution")];
      match e.result {
        case Ok(output) =>
          var finalHash := if e.redaction.Some? then e.redaction.value.redactedOutputHash else output.outputHash;
          provenance := provenance + [ProvenanceEdge(node, "input:" + Hex(input), "tool_input")];
          provenance := provenance + [ProvenanceEdge(node, "output:" + Hex(finalHash), "tool_output")];
          assert provenance == ExecutionEdges(cfg.crypto, e.allowedReceipt, finalHash);
          var more := AuditEdges(node, output.secretsUsed, e.redaction);
          provenance := provenance + more;
          kind, target := ToolExecutedAllowed(input, finalHash), "tool=" + toolName + " status=ok";
        case Err(err) =>
          provenance := provenance +
            [ProvenanceEdge(node, "error[" + ErrorName(err) + "]: " + ErrorMessage(err), "tool_execution_failure")];
          assert provenance == FailureEdges(cfg.crypto, e.allowedReceipt, err);
          kind, target := ToolExecutedFailed(input), "tool=" + toolName + " status=failed kind=" + ErrorName(err);
      }
    }

    /** One edge per secret name, then one per redaction rule that matched. */
    method AuditEdges(node: string, secrets: seq<string>, redaction: Option<RedactionReport>) returns (es: seq<ProvenanceEdge>)
      ensures es == AuditTrail(node, secrets, redaction)
    {
      es := [];
      var i := 0;
      while i < |secrets|
        invariant 0 <= i <= |secrets| && |es| == i
        invariant forall j :: 0 <= j < i ==> es[j] == SecretEdges(node, secrets)[j]
      {
        es := es + [ProvenanceEdge(node, "secret:" + secrets[i], "secret_used")];
        i := i + 1;
      }
      assert es == SecretEdges(node, secrets);
      if redaction.Some? {
        var more := RedactionAudit(node, redaction.value.matches);
        es := es + more;
      }
    }

    method RedactionAudit(node: string, matches: seq<RuleMatch>) returns (es: seq<ProvenanceEdge>)
      ensures es == RedactionEdges(node, matches)
    {
      es := [];
      var j := 0;
      while j < |matches|
        invariant 0 <= j <= |matches| && es + RedactionEdges(node, matches[j..]) == RedactionEdges(node, matches)
      {
        RedactionStep(node, matches, j, es);
        if matches[j].count != 0 {
          es := es + [ProvenanceEdge(node, "redaction:" + matches[j].ruleId + ":count=" + NatText(matches[j].count), "redaction_applied")];
        }
        j := j + 1;
      }
    }

    lemma RedactionStep(node: string, matches: seq<RuleMatch>, j: nat, es: seq<ProvenanceEdge>)
      requires j < |matches|
      ensures es + RedactionEdges(node, matches[j..]) == (es + RedactionEdge(node, matches[j])) + RedactionEdges(node, matches[j + 1..])
      ensures matches[j].count == 0 ==> es + RedactionEdge(node, matches[j]) == es
    {
      assert matches[j..][1..] == matches[j + 1..];
      Assoc(es, RedactionEdge(node, matches[j]), RedactionEdges(node, matches[j + 1..]));
    }

    method Handle(ev: Event, now: string) returns (r: Result<Outcome, KernelError>)
      modifies this
      ensures (state, r) == Handled(cfg, old(state), ev, now)
    {
      match ev {
        case EvaluateProposal(p) =>
          var outcome := HandleProposal(p, now);
          r := Ok(outcome);
        case ResolveApproval(a) => r := HandleResolveApproval(a, now);
        case RunSleep(depth, passes) =>
          var outcome := HandleSleep(depth, passes, now);
          r := Ok(outcome);
        case RecordToolExecution(e) => r := HandleRecordToolExecution(e, now);
      }
    }
  }
}
