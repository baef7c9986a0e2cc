/** What a request leads to, from the moment it begins to the receipt it holds, whatever other
    requests do in between. */
module HostRequests {
  import opened Wrappers
  import opened Receipts
  import opened Crypto
  import opened Constitution
  import opened Kernel
  import opened Outcomes
  import opened Log
  import opened Host
  import opened HostRuns

  // ---------- a request and its surroundings ----------

  /** The policy of the last boot. */
  function PolicyInForce(policy: Policy, steps: seq<Step>): Policy
    decreases |steps|
  {
    if steps == [] then policy
    else PolicyInForce(if steps[0].Restart? then steps[0].policy else policy, steps[1..])
  }

  /** Steps of other requests only, on the same boot. */
  predicate Others(t: nat, steps: seq<Step>)
  {
    forall s :: s in steps ==> !s.Restart? && s.id != t
  }

  /** The request begun, other requests served meanwhile, and then its event minted. */
  function Asked(c: Crypto, h: Host, t: nat, req: Request, between: seq<Step>, now: string): Host
  {
    Next(c, RunHost(c, Next(c, h, Begin(t, req)), between), Mint(t, now))
  }

  lemma {:induction false} PolicyKept(c: Crypto, h: Host, steps: seq<Step>)
    ensures RunHost(c, h, steps).policy == PolicyInForce(h.policy, steps)
    decreases |steps|
  {
    if steps != [] {
      PolicyKept(c, Next(c, h, steps[0]), steps[1..]);
    }
  }

  lemma {:induction false} OthersLeave(c: Crypto, h: Host, t: nat, steps: seq<Step>)
    requires Others(t, steps)
    ensures var h' := RunHost(c, h, steps);
      && h'.policy == h.policy && (t in h'.tasks <==> t in h.tasks) && (t in h.tasks ==> h'.tasks[t] == h.tasks[t])
    decreases |steps|
  {
    if steps != [] {
      assert steps[0] in steps;
      forall s | s in steps[1..] ensures s in steps {}
      OthersLeave(c, Next(c, h, steps[0]), t, steps[1..]);
    }
  }

  /** The state a request finds, and the one its event is minted in. */
  lemma Surroundings(c: Crypto, policy: Policy, before: seq<Step>, t: nat, req: Request, between: seq<Step>)
    requires SignerContract(c) && |before| + 1 + |between| < U64_MAX && Others(t, between)
    ensures var h := AfterRun(c, policy, before);
      var h1 := RunHost(c, Next(c, h, Begin(t, req)), between);
      && Sound(c, h) && Sound(c, h1) && h.policy == PolicyInForce(policy, before) && h1.policy == h.policy
      && (t !in h.tasks && BuildEvent(c, h.log, req).Some? ==>
           t in h1.tasks && h1.tasks[t] == Ready(BuildEvent(c, h.log, req).value))
      && (t !in h.tasks && BuildEvent(c, h.log, req).None? ==> t !in h1.tasks && Next(c, h, Begin(t, req)) == h)
  {
    var h := AfterRun(c, policy, before);
    var h0 := Next(c, h, Begin(t, req));
    RunSound(c, policy, before);
    PolicyKept(c, Boot(policy, []), before);
    BeginKeeps(c, h, t, req);
    RunKeeps(c, h0, between);
    OthersLeave(c, h0, t, between);
  }

  /** What the request holds once its event is handled. */
  lemma MintHolds(c: Crypto, h: Host, t: nat, now: string)
    requires t in h.tasks && h.tasks[t].Ready?
    ensures var answer, h' := AnswerOf(Setup(c, h), h.kernel, h.tasks[t].event, now), Next(c, h, Mint(t, now));
      && h'.log == h.log
      && (answer.Ok? ==> HoldsReceipt(h', t) && h'.tasks[t].receipt == answer.value.receipt)
  {
  }

  /** Every receipt of a request is stamped with the clock reading and the key id in force. */
  predicate Stamped(r: Receipt, policy: Policy, now: string)
  {
    r.body.issuedAt == now && r.body.keyId == policy.keyId
  }

  // ---------- lookups ----------

  lemma {:induction false} FoundById(c: Crypto, rs: seq<Receipt>, i: nat)
    requires UniqueIds(c, rs) && i < |rs|
    ensures ById(c, rs, ContentId(c, rs[i])) == Some(rs[i])
  {
    var last := |rs| - 1;
    if i < last {
      FoundById(c, rs[..last], i);
    }
  }

  /** A logged receipt, as the kernel will check it. */
  lemma LoggedReceipt(c: Crypto, h: Host, i: nat)
    requires Inv(c, h) && i < |h.log|
    ensures ById(c, h.log, c.contentId(h.log[i].body)) == Some(h.log[i])
    ensures c.verify(h.log[i]) && h.log[i].issuer == c.publicKey
  {
    FoundById(c, h.log, i);
    assert GoodAt(c, h.log, i) && Pinned(c.publicKey, h.log);
  }

  // ---------- proposals ----------

  /** A proposal's receipt: denied if a Deny rule fires on the action, pending if only an
      approval rule does, and allowed if no rule does; it records the rules that fired and has
      no edges. */
  ghost predicate Ruled(r: Receipt, policy: Policy, action: Action)
  {
    var deny, ask := SomeFires(policy.rules, Deny, action), SomeFires(policy.rules, RequireApproval, action);
    && r.body.action == action && r.body.provenance == [] && r.body.redactorStackHash == None
    && r.body.constitutionRules == Evaluate(policy.rules, action).matchedRules
    && (deny ==> r.body.decision == Denied) && (!deny && ask ==> r.body.decision == Pending)
    && (!deny && !ask ==> r.body.decision == Allowed)
  }

  /** A proposal is always answered, by the rules of the last boot. */
  lemma ProposalAnswered(c: Crypto, policy: Policy, before: seq<Step>, t: nat, action: Action, between: seq<Step>, now: string)
    requires SignerContract(c) && |before| + 1 + |between| < U64_MAX && Others(t, between)
    ensures var h := AfterRun(c, policy, before);
      var h' := Asked(c, h, t, Propose(action), between, now);
      t !in h.tasks ==>
        && HoldsReceipt(h', t) && Ruled(h'.tasks[t].receipt, PolicyInForce(policy, before), action)
        && Stamped(h'.tasks[t].receipt, PolicyInForce(policy, before), now)
  {
    var h := AfterRun(c, policy, before);
    Surroundings(c, policy, before, t, Propose(action), between);
    if t !in h.tasks {
      ProposalMinted(c, RunHost(c, Next(c, h, Begin(t, Propose(action))), between), t, action, now);
    }
  }

  lemma ProposalMinted(c: Crypto, h: Host, t: nat, action: Action, now: string)
    requires SignerContract(c) && Sound(c, h)
    requires t in h.tasks && h.tasks[t] == Ready(EvaluateProposal(Unbounded(action, Allowed, [], [])))
    ensures var h' := Next(c, h, Mint(t, now));
      HoldsReceipt(h', t) && Ruled(h'.tasks[t].receipt, h.policy, action) && Stamped(h'.tasks[t].receipt, h.policy, now)
  {
    var p := Unbounded(action, Allowed, [], []);
    MintHolds(c, h, t, now);
    EnvelopeOf(Setup(c, h), h.kernel, EvaluateProposal(p), now);
    VerdictMeans(h.policy.rules, action);
    if SomeFires(h.policy.rules, Deny, action) || SomeFires(h.policy.rules, RequireApproval, action) {
      RuledProposal(Setup(c, h), h.kernel, p, now);
    } else {
      UnruledProposal(Setup(c, h), h.kernel, p, now);
    }
  }

  // ---------- resolutions ----------

  /** The operator's answer to a pending receipt, as its resolution shows it. */
  predicate Resolved(c: Crypto, pending: Receipt, response: Response, r: Receipt)
  {
    && r.body.action == pending.body.action && r.body.redactorStackHash == None
    && r.body.provenance == pending.body.provenance +
       [ProvenanceEdge("receipt:" + Hex(c.contentId(pending.body)), "decision", "approval_response")]
    && (response == Approve ==> r.body.decision == Approved && r.body.constitutionRules == [])
    && (response == Refuse ==>
         r.body.decision == Denied && r.body.constitutionRules == [RuleRef("$kernel/approval/denied_by_operator", true)])
  }

  /** Answering a logged pending receipt leads to that answer: approved exactly when the operator
      approves, and otherwise denied in the operator's name. */
  lemma ResolutionAnswered(c: Crypto, policy: Policy, before: seq<Step>, t: nat, i: nat, response: Response,
                           between: seq<Step>, now: string)
    requires SignerContract(c) && |before| + 1 + |between| < U64_MAX && Others(t, between)
    ensures var h := AfterRun(c, policy, before);
      t !in h.tasks && i < |h.log| && h.log[i].body.decision == Pending ==>
        var h' := Asked(c, h, t, Resolve(c.contentId(h.log[i].body), response), between, now);
        && HoldsReceipt(h', t) && Resolved(c, h.log[i], response, h'.tasks[t].receipt)
        && Stamped(h'.tasks[t].receipt, PolicyInForce(policy, before), now)
  {
    var h := AfterRun(c, policy, before);
    if t !in h.tasks && i < |h.log| && h.log[i].body.decision == Pending {
      var req := Resolve(c.contentId(h.log[i].body), response);
      Surroundings(c, policy, before, t, req, between);
      LoggedReceipt(c, h, i);
      ResolutionBegins(c, h.log, req.id, h.log[i], response);
      ResolutionMinted(c, RunHost(c, Next(c, h, Begin(t, req)), between), t, h.log[i], response, now);
    }
  }

  /** The event of a resolution request. */
  function ResolutionOf(p: Receipt, response: Response): Event
  {
    ResolveApproval(Approval(p, Unbounded(p.body.action, Pending, p.body.constitutionRules, p.body.provenance), response))
  }

  lemma ResolutionBegins(c: Crypto, log: seq<Receipt>, id: Digest, p: Receipt, response: Response)
    requires ById(c, log, id) == Some(p) && p.body.decision == Pending
    ensures BuildEvent(c, log, Resolve(id, response)) == Some(ResolutionOf(p, response))
  {
  }

  lemma ResolutionMinted(c: Crypto, h: Host, t: nat, p: Receipt, response: Response, now: string)
    requires SignerContract(c) && Sound(c, h) && t in h.tasks && h.tasks[t] == Ready(ResolutionOf(p, response))
    requires c.verify(p) && p.issuer == c.publicKey && p.body.decision == Pending
    ensures var h' := Next(c, h, Mint(t, now));
      HoldsReceipt(h', t) && Resolved(c, p, response, h'.tasks[t].receipt) && Stamped(h'.tasks[t].receipt, h.policy, now)
  {
    var a := ResolutionOf(p, response).approval;
    MintHolds(c, h, t, now);
    EnvelopeOf(Setup(c, h), h.kernel, ResolveApproval(a), now);
    ResolutionRejectedWhy(Setup(c, h), h.kernel, a, now);
    ResolutionOutcome(Setup(c, h), h.kernel, a, now);
  }

  // ---------- recordings ----------

  /** A recorded execution, as its receipt shows it: the reported output with its secrets and its
      redaction, or the reported message. */
  ghost predicate Recorded(
    c: Crypto, allowed: Receipt, outcome: Result<ToolOutput, string>, redaction: Option<RedactionReport>, r: Receipt)
    requires |allowed.body.action.kind| >= 5
  {
    var node, name := "receipt:" + Hex(c.contentId(allowed.body)), allowed.body.action.kind[5..];
    && r.body.decision == Allowed && r.body.constitutionRules == []
    && r.body.redactorStackHash == (match redaction case None => None case Some(report) => Some(report.stackHash))
    && match outcome
       case Ok(output) => ShowsSuccess(r.body, node, name, allowed.body.action.inputHash, output, redaction)
       case Err(message) => ShowsFailure(r.body, node, name, Failed(message))
  }

  predicate AllowsTool(r: Receipt)
  {
    r.body.decision == Allowed && |r.body.action.kind| >= 5 && r.body.action.kind[..5] == "tool."
  }

  /** Recording an execution of a logged allowed tool call leads to a receipt that shows it. */
  lemma RecordingAnswered(c: Crypto, policy: Policy, before: seq<Step>, t: nat, i: nat, outcome: Result<ToolOutput, string>,
                          redaction: Option<RedactionReport>, between: seq<Step>, now: string)
    requires SignerContract(c) && |before| + 1 + |between| < U64_MAX && Others(t, between)
    ensures var h := AfterRun(c, policy, before);
      t !in h.tasks && i < |h.log| && AllowsTool(h.log[i]) ==>
        var h' := Asked(c, h, t, RecordTool(c.contentId(h.log[i].body), outcome, redaction), between, now);
        && HoldsReceipt(h', t) && Recorded(c, h.log[i], outcome, redaction, h'.tasks[t].receipt)
        && Stamped(h'.tasks[t].receipt, PolicyInForce(policy, before), now)
  {
    var h := AfterRun(c, policy, before);
    if t !in h.tasks && i < |h.log| && AllowsTool(h.log[i]) {
      var req := RecordTool(c.contentId(h.log[i].body), outcome, redaction);
      Surroundings(c, policy, before, t, req, between);
      LoggedReceipt(c, h, i);
      RecordingBegins(c, h.log, req.toolId, h.log[i], outcome, redaction);
      RecordingMinted(c, RunHost(c, Next(c, h, Begin(t, req)), between), t, h.log[i], outcome, redaction, now);
    }
  }

  /** The event of a recording request. */
  function RecordingOf(p: Receipt, outcome: Result<ToolOutput, string>, redaction: Option<RedactionReport>): Event
  {
    var result := match outcome case Ok(output) => Ok(output) case Err(message) => Err(Failed(message));
    RecordToolExecution(
      ToolExecution(p, Unbounded(p.body.action, Allowed, p.body.constitutionRules, p.body.provenance), result, redaction))
  }

  lemma RecordingBegins(c: Crypto, log: seq<Receipt>, id: Digest, p: Receipt, outcome: Result<ToolOutput, string>,
                        redaction: Option<RedactionReport>)
    requires ById(c, log, id) == Some(p) && AllowsTool(p)
    ensures BuildEvent(c, log, RecordTool(id, outcome, redaction)) == Some(RecordingOf(p, outcome, redaction))
  {
  }

  lemma RecordingMinted(c: Crypto, h: Host, t: nat, p: Receipt, outcome: Result<ToolOutput, string>,
                        redaction: Option<RedactionReport>, now: string)
    requires SignerContract(c) && Sound(c, h) && t in h.tasks && h.tasks[t] == Ready(RecordingOf(p, outcome, redaction))
    requires c.verify(p) && p.issuer == c.publicKey && AllowsTool(p)
    ensures var h' := Next(c, h, Mint(t, now));
      && HoldsReceipt(h', t) && Recorded(c, p, outcome, redaction, h'.tasks[t].receipt)
      && Stamped(h'.tasks[t].receipt, h.policy, now)
  {
    var e := RecordingOf(p, outcome, redaction).execution;
    MintHolds(c, h, t, now);
    EnvelopeOf(Setup(c, h), h.kernel, RecordToolExecution(e), now);
    RecordingRejectedWhy(Setup(c, h), h.kernel, e, now);
    ExecutionShown(Setup(c, h), h.kernel, e, now);
  }

  // ---------- requests that come to nothing ----------

  /** Some logged receipt with that id can be answered so. */
  predicate Answerable(c: Crypto, log: seq<Receipt>, req: Request)
  {
    match req
    case Propose(_) => true
    case Resolve(id, _) => exists i :: 0 <= i < |log| && c.contentId(log[i].body) == id && log[i].body.decision == Pending
    case RecordTool(id, _, _) => exists i :: 0 <= i < |log| && c.contentId(log[i].body) == id && AllowsTool(log[i])
  }

  /** A request becomes an event exactly when it is answerable. */
  lemma BuildsIff(c: Crypto, log: seq<Receipt>, req: Request)
    requires UniqueIds(c, log)
    ensures BuildEvent(c, log, req).Some? <==> Answerable(c, log, req)
  {
    match req
    case Propose(_) =>
    case Resolve(id, _) =>
      if i :| 0 <= i < |log| && c.contentId(log[i].body) == id && log[i].body.decision == Pending {
        FoundById(c, log, i);
      }
    case RecordTool(id, _, _) =>
      if i :| 0 <= i < |log| && c.contentId(log[i].body) == id && AllowsTool(log[i]) {
        FoundById(c, log, i);
      }
  }

  /** A request begins exactly when the log holds a receipt it can answer; otherwise it leaves no
      trace. */
  lemma BeginsIffAnswerable(c: Crypto, policy: Policy, before: seq<Step>, t: nat, req: Request)
    requires SignerContract(c) && |before| < U64_MAX
    ensures var h := AfterRun(c, policy, before);
      var h' := Next(c, h, Begin(t, req));
      && (t !in h.tasks ==> (t in h'.tasks <==> Answerable(c, h.log, req)))
      && (t !in h'.tasks ==> h' == h)
  {
    RunSound(c, policy, before);
    BuildsIff(c, AfterRun(c, policy, before).log, req);
  }
}
