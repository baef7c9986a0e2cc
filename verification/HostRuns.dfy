/** What holds in every run of the host from an empty log. */
module HostRuns {
  import opened Wrappers
  import opened Receipts
  import opened Crypto
  import opened Constitution
  import opened Kernel
  import opened KernelRuns
  import opened Log
  import opened Host

  /** The state a run from an empty log ends in. */
  function AfterRun(c: Crypto, policy: Policy, steps: seq<Step>): Host { RunHost(c, Boot(policy, []), steps) }

  /** The invariant, with room left to mint. */
  ghost predicate Sound(c: Crypto, h: Host)
  {
    Inv(c, h) && h.boot + |h.minted| < U64_MAX
  }

  lemma RunSound(c: Crypto, policy: Policy, steps: seq<Step>)
    requires SignerContract(c) && |steps| < U64_MAX
    ensures Sound(c, AfterRun(c, policy, steps))
    ensures var h := AfterRun(c, policy, steps); h.boot + |h.minted| <= |steps|
  {
    BootKeeps(c, policy, []);
    RunKeeps(c, Boot(policy, []), steps);
  }

  // ---------- the log ----------

  /** A valid chain, made of the log at boot and a prefix of the receipts minted since, which
      are themselves numbered and linked from the head the log had at boot. */
  ghost predicate ValidPrefix(c: Crypto, h: Host)
  {
    && GoodLog(c, c.publicKey, h.log)
    && h.boot <= |h.log| <= h.boot + |h.minted| && h.boot <= U64_MAX
    && h.log == h.log[..h.boot] + h.minted[..|h.log| - h.boot]
    && Chained(BootState(h), h.minted)
  }

  lemma SoundIsValidPrefix(c: Crypto, h: Host)
    requires Sound(c, h)
    ensures ValidPrefix(c, h)
  {
    assert h.log == h.log[..h.boot] + h.log[h.boot..];
  }

  /** Under any interleaving of requests, cancellations and restarts the log is a valid chain
      and the boot log continued by a prefix of the receipts minted since. */
  lemma LogIsValidPrefix(c: Crypto, policy: Policy, steps: seq<Step>)
    requires SignerContract(c) && |steps| < U64_MAX
    ensures ValidPrefix(c, AfterRun(c, policy, steps))
  {
    RunSound(c, policy, steps);
    SoundIsValidPrefix(c, AfterRun(c, policy, steps));
  }

  /** A member of a prefix sits at an earlier position. */
  lemma Earlier(log: seq<Receipt>, i: nat, p: Receipt) returns (j: nat)
    requires i < |log| && p in log[..i]
    ensures j < i && log[j] == p
  {
    j :| 0 <= j < i && log[..i][j] == p;
  }

  lemma SoundApproval(c: Crypto, h: Host, i: nat)
    requires Sound(c, h) && i < |h.log| && h.log[i].body.decision == Approved
    ensures exists j :: 0 <= j < i && Approves(c, h.log[j], h.log[i])
  {
    assert Traced(c, h.log[..i], h.log[i]);
    var p :| p in h.log[..i] && Approves(c, p, h.log[i]);
    var j := Earlier(h.log, i, p);
    assert Approves(c, h.log[j], h.log[i]);
  }

  lemma SoundExecution(c: Crypto, h: Host, i: nat, e: ProvenanceEdge)
    requires Sound(c, h) && i < |h.log| && e in h.log[i].body.provenance && e.kind == "tool_execution"
    ensures exists j :: 0 <= j < i && Authorizes(c, h.log[j], e)
  {
    assert Traced(c, h.log[..i], h.log[i]);
    var p :| p in h.log[..i] && Authorizes(c, p, e);
    var j := Earlier(h.log, i, p);
    assert Authorizes(c, h.log[j], e);
  }

  /** Every Approved receipt in the log is preceded there by a Pending receipt for the same
      action, and its last edge carries that receipt's id. */
  lemma ApprovalsTraced(c: Crypto, policy: Policy, steps: seq<Step>, i: nat)
    requires SignerContract(c) && |steps| < U64_MAX
    ensures var log := AfterRun(c, policy, steps).log;
      i < |log| && log[i].body.decision == Approved ==>
        exists j :: 0 <= j < i && Approves(c, log[j], log[i])
  {
    var h := AfterRun(c, policy, steps);
    RunSound(c, policy, steps);
    if i < |h.log| && h.log[i].body.decision == Approved {
      SoundApproval(c, h, i);
    }
  }

  /** Every execution edge in the log points to an earlier logged Allowed receipt whose action
      kind starts with `tool.`. */
  lemma ExecutionsTraced(c: Crypto, policy: Policy, steps: seq<Step>, i: nat, e: ProvenanceEdge)
    requires SignerContract(c) && |steps| < U64_MAX
    ensures var log := AfterRun(c, policy, steps).log;
      i < |log| && e in log[i].body.provenance && e.kind == "tool_execution" ==>
        exists j :: 0 <= j < i && Authorizes(c, log[j], e)
  {
    var h := AfterRun(c, policy, steps);
    RunSound(c, policy, steps);
    if i < |h.log| && e in h.log[i].body.provenance && e.kind == "tool_execution" {
      SoundExecution(c, h, i, e);
    }
  }

  // ---------- Deny rules ----------

  /** The rules of every boot in the run have a Deny rule matching the action. */
  predicate AlwaysDenied(policy: Policy, steps: seq<Step>, a: Action)
  {
    SomeRuleSays(policy.rules, Deny, a) && forall s :: s in steps && s.Restart? ==> SomeRuleSays(s.policy.rules, Deny, a)
  }

  /** For the action, the receipt neither asks for nor gives approval. */
  predicate Quiet(r: Receipt, a: Action)
  {
    r.body.action == a ==> r.body.decision != Pending && r.body.decision != Approved
  }

  predicate AllQuiet(rs: seq<Receipt>, a: Action) { forall r :: r in rs ==> Quiet(r, a) }

  predicate NeverPends(h: Host, a: Action)
  {
    SomeRuleSays(h.policy.rules, Deny, a) && AllQuiet(h.log, a) && AllQuiet(h.minted, a)
  }

  lemma DraftQuiet(cfg: Config, log: seq<Receipt>, ev: Event, d: Draft, a: Action)
    requires SomeRuleSays(cfg.rules, Deny, a) && AllQuiet(log, a) && Backed(log, ev) && Decide(cfg, ev) == Ok(d)
    ensures d.action == a ==> d.decision != Pending && d.decision != Approved
  {
    match ev
    case EvaluateProposal(p) =>
      if p.action == a {
        DenyDecides(cfg.rules, p);
      }
    case ResolveApproval(approval) => assert Quiet(approval.pendingReceipt, a);
    case RecordToolExecution(_) =>
  }

  lemma MintQuiet(c: Crypto, h: Host, id: nat, now: string, a: Action)
    requires SignerContract(c) && Sound(c, h) && NeverPends(h, a)
    ensures NeverPends(Next(c, h, Mint(id, now)), a)
  {
    if id in h.tasks && h.tasks[id].Ready? {
      if Decide(Setup(c, h), h.tasks[id].event).Ok? {
        var r := MintedReceipt(c, h, id, now);
        DraftQuiet(Setup(c, h), h.log, h.tasks[id].event, Decide(Setup(c, h), h.tasks[id].event).value, a);
        assert Quiet(r, a);
      } else {
        RejectedEvent(c, h, id, now);
      }
    }
  }

  lemma AppendQuiet(c: Crypto, h: Host, id: nat, a: Action)
    requires Sound(c, h) && NeverPends(h, a)
    ensures NeverPends(Next(c, h, Append(id)), a)
  {
    if HoldsReceipt(h, id) {
      var r := h.tasks[id].receipt;
      assert Waiting(h, r) && r in h.minted;
      assert Quiet(r, a);
    }
  }

  lemma StepQuiet(c: Crypto, h: Host, s: Step, a: Action)
    requires SignerContract(c) && Sound(c, h) && NeverPends(h, a)
    requires s.Restart? ==> SomeRuleSays(s.policy.rules, Deny, a)
    ensures NeverPends(Next(c, h, s), a)
  {
    match s
    case Mint(id, now) => MintQuiet(c, h, id, now, a);
    case Append(id) => AppendQuiet(c, h, id, a);
    case Begin(_, _) =>
    case Cancel(_) =>
    case Restart(_) =>
  }

  lemma {:induction false} RunQuiet(c: Crypto, h: Host, steps: seq<Step>, a: Action)
    requires SignerContract(c) && Inv(c, h) && h.boot + |h.minted| + |steps| <= U64_MAX
    requires NeverPends(h, a) && AlwaysDenied(h.policy, steps, a)
    ensures NeverPends(RunHost(c, h, steps), a)
    decreases |steps|
  {
    if steps != [] {
      var h' := Next(c, h, steps[0]);
      assert steps[0] in steps;
      StepQuiet(c, h, steps[0], a);
      StepKeeps(c, h, steps[0]);
      forall s | s in steps[1..] ensures s in steps {}
      RunQuiet(c, h', steps[1..], a);
    }
  }

  /** An action that a Deny rule matches at every boot is never pending and never approved,
      whatever else the operator changes in the rules between boots. */
  lemma DeniedNeverApproved(c: Crypto, policy: Policy, steps: seq<Step>, a: Action, i: nat)
    requires SignerContract(c) && |steps| < U64_MAX && AlwaysDenied(policy, steps, a)
    ensures var log := AfterRun(c, policy, steps).log;
      i < |log| && log[i].body.action == a ==> log[i].body.decision != Pending && log[i].body.decision != Approved
  {
    BootKeeps(c, policy, []);
    RunQuiet(c, Boot(policy, []), steps, a);
    var h := AfterRun(c, policy, steps);
    if i < |h.log| {
      assert h.log[i] in h.log && Quiet(h.log[i], a);
    }
  }

  /** The rules stay the same across restarts. */
  predicate FixedRules(policy: Policy, steps: seq<Step>)
  {
    forall s :: s in steps && s.Restart? ==> s.policy.rules == policy.rules
  }

  /** With fixed rules, no Deny rule matches the action of an approval in the log. */
  lemma ApprovalsUndenied(c: Crypto, policy: Policy, steps: seq<Step>, i: nat)
    requires SignerContract(c) && |steps| < U64_MAX && FixedRules(policy, steps)
    ensures var log := AfterRun(c, policy, steps).log;
      i < |log| && log[i].body.decision == Approved ==> !SomeRuleSays(policy.rules, Deny, log[i].body.action)
  {
    var log := AfterRun(c, policy, steps).log;
    if i < |log| && SomeRuleSays(policy.rules, Deny, log[i].body.action) {
      DeniedNeverApproved(c, policy, steps, log[i].body.action, i);
    }
  }

  // ---------- executions ----------

  /** The receipt opens with an execution edge that points to a logged receipt allowing it. */
  ghost predicate CarriesExecution(c: Crypto, log: seq<Receipt>, r: Receipt)
  {
    |r.body.provenance| > 0 && r.body.provenance[0].kind == "tool_execution" &&
    exists j :: 0 <= j < |log| && Authorizes(c, log[j], r.body.provenance[0])
  }

  predicate AboutToRecord(h: Host, id: nat)
  {
    id in h.tasks && h.tasks[id].Ready? && h.tasks[id].event.RecordToolExecution?
  }

  lemma FirstToolEdge(c: Crypto, e: ToolExecution)
    requires ToolGate(c, e).None?
    ensures var edges := DecideTool(c, e).provenance;
      |edges| > 0 && edges[0].kind == "tool_execution" && Authorizes(c, e.allowedReceipt, edges[0])
  {
  }

  lemma SoundRecording(c: Crypto, h: Host, id: nat, now: string)
    requires SignerContract(c) && Sound(c, h) && AboutToRecord(h, id)
    requires Decide(Setup(c, h), h.tasks[id].event).Ok?
    ensures var h' := Next(c, h, Mint(id, now));
      HoldsReceipt(h', id) && CarriesExecution(c, h.log, h'.tasks[id].receipt)
  {
    var e := h.tasks[id].event.execution;
    var r := MintedReceipt(c, h, id, now);
    FirstToolEdge(c, e);
    assert Backed(h.log, h.tasks[id].event);
    var j :| 0 <= j < |h.log| && h.log[j] == e.allowedReceipt;
    assert Authorizes(c, h.log[j], r.body.provenance[0]);
  }

  /** Whenever a recorded execution is minted, its receipt does carry such an edge: the first
      one, to a receipt already in the log. */
  lemma RecordingsCarryEdge(c: Crypto, policy: Policy, steps: seq<Step>, id: nat, now: string)
    requires SignerContract(c) && |steps| < U64_MAX
    ensures var h := AfterRun(c, policy, steps);
      var h' := Next(c, h, Mint(id, now));
      AboutToRecord(h, id) && HoldsReceipt(h', id) ==> CarriesExecution(c, h.log, h'.tasks[id].receipt)
  {
    var h := AfterRun(c, policy, steps);
    RunSound(c, policy, steps);
    if AboutToRecord(h, id) {
      if Decide(Setup(c, h), h.tasks[id].event).Ok? {
        SoundRecording(c, h, id, now);
      } else {
        RejectedEvent(c, h, id, now);
      }
    }
  }

  // ---------- appending ----------

  /** Some logged receipt with another body has the same content id. */
  ghost predicate Clashes(c: Crypto, log: seq<Receipt>, r: Receipt)
  {
    exists p :: p in log && IdClash(c, p.body, r.body)
  }

  predicate HoldsReceipt(h: Host, id: nat)
  {
    id in h.tasks && h.tasks[id].Appending?
  }

  predicate Holds(h: Host, id: nat, n: nat)
  {
    HoldsReceipt(h, id) && Seq(h.tasks[id].receipt) == n
  }

  /** The verdict the log has for the receipt a request holds. */
  function VerdictOn(c: Crypto, h: Host, id: nat): Option<AppendError>
    requires HoldsReceipt(h, id)
  {
    AppendCheck(c, c.publicKey, h.log, h.tasks[id].receipt)
  }

  lemma NextLinks(c: Crypto, h: Host, r: Receipt)
    requires PrefixOfMinted(h) && KernelAhead(c, h) && Waiting(h, r) && Seq(r) == |h.log|
    ensures Prev(r) == Head(h.log)
  {
    var k := |h.log| - h.boot;
    assert LinkedAt(BootState(h), h.minted, k);
    if k == 0 {
      assert h.log[..h.boot] == h.log;
    } else {
      assert h.log[h.boot..][k - 1] == h.minted[..k][k - 1];
    }
  }

  lemma SoundVerdict(c: Crypto, h: Host, id: nat)
    requires Inv(c, h) && HoldsReceipt(h, id)
    ensures var n, verdict := Seq(h.tasks[id].receipt), VerdictOn(c, h, id);
      if n != |h.log| then n > |h.log| && verdict == Some(OutOfOrder(|h.log|, n))
      else verdict.None? || Clashes(c, h.log, h.tasks[id].receipt)
  {
    var r := h.tasks[id].receipt;
    assert Waiting(h, r);
    assert Genuine(c, h.minted[Seq(r) - h.boot]);
    if Seq(r) == |h.log| {
      NextLinks(c, h, r);
      if HasId(c, h.log, ContentId(c, r)) {
        var i :| 0 <= i < |h.log| && ContentId(c, h.log[i]) == ContentId(c, r);
        assert GoodAt(c, h.log, i);
        assert IdClash(c, h.log[i].body, r.body);
      }
    }
  }

  /** A minted receipt is accepted exactly when it is next in mint order; otherwise the verdict
      is out-of-order.  The only exception needs two bodies with one content id. */
  lemma AcceptedIffNext(c: Crypto, policy: Policy, steps: seq<Step>, id: nat)
    requires SignerContract(c) && |steps| < U64_MAX
    ensures var h := AfterRun(c, policy, steps);
      HoldsReceipt(h, id) && !Clashes(c, h.log, h.tasks[id].receipt) ==>
        var n := Seq(h.tasks[id].receipt);
        VerdictOn(c, h, id) == if n == |h.log| then None else Some(OutOfOrder(|h.log|, n))
  {
    var h := AfterRun(c, policy, steps);
    RunSound(c, policy, steps);
    if HoldsReceipt(h, id) {
      SoundVerdict(c, h, id);
    }
  }

  // ---------- dropped receipts ----------

  ghost predicate Held(h: Host, n: nat) { exists id :: Holds(h, id, n) }

  /** Receipt number `n` was minted since boot, is not in the log, and no request holds it. */
  ghost predicate Lost(h: Host, n: nat)
  {
    |h.log| <= n < h.boot + |h.minted| && !Held(h, n)
  }

  /** The step cancels the request, or has the log refuse its receipt. */
  predicate Drops(c: Crypto, h: Host, id: nat, s: Step)
    requires HoldsReceipt(h, id)
  {
    s == Cancel(id) || (s == Append(id) && VerdictOn(c, h, id).Some?)
  }

  lemma DroppedIsLost(c: Crypto, h: Host, id: nat, s: Step)
    requires Sound(c, h) && HoldsReceipt(h, id) && Drops(c, h, id, s)
    ensures Lost(Next(c, h, s), Seq(h.tasks[id].receipt))
  {
    var n, h' := Seq(h.tasks[id].receipt), Next(c, h, s);
    assert Waiting(h, h.tasks[id].receipt);
    assert h' == h.(tasks := h.tasks - {id});
    forall other ensures !Holds(h', other, n) {}
  }

  lemma MintedNumber(c: Crypto, h: Host, id: nat, now: string)
    requires SignerContract(c) && Sound(c, h)
    requires id in h.tasks && h.tasks[id].Ready? && Decide(Setup(c, h), h.tasks[id].event).Ok?
    ensures var h' := Next(c, h, Mint(id, now));
      && HoldsReceipt(h', id) && h'.tasks == h.tasks[id := h'.tasks[id]]
      && h'.minted == h.minted + [h'.tasks[id].receipt] && h'.log == h.log && h'.boot == h.boot
      && Holds(h', id, h.boot + |h.minted|)
      && h'.tasks[id].receipt.body == MintBody(Setup(c, h), h.kernel, now, Decide(Setup(c, h), h.tasks[id].event).value)
  {
    var _ := MintedReceipt(c, h, id, now);
  }

  lemma LostFrame(h: Host, h': Host, n: nat)
    requires Lost(h, n) && |h'.log| <= n < h'.boot + |h'.minted|
    requires forall id :: HoldsReceipt(h', id) && Seq(h'.tasks[id].receipt) == n ==> Holds(h, id, n)
    ensures Lost(h', n)
  {
    forall id ensures !Holds(h', id, n) { assert !Holds(h, id, n); }
  }

  lemma MintKeepsLost(c: Crypto, h: Host, n: nat, id: nat, now: string)
    requires SignerContract(c) && Sound(c, h) && Lost(h, n)
    ensures Lost(Next(c, h, Mint(id, now)), n)
  {
    var h' := Next(c, h, Mint(id, now));
    if id in h.tasks && h.tasks[id].Ready? {
      if Decide(Setup(c, h), h.tasks[id].event).Ok? {
        MintedNumber(c, h, id, now);
      } else {
        RejectedEvent(c, h, id, now);
      }
      LostFrame(h, h', n);
    }
  }

  lemma AppendKeepsLost(c: Crypto, h: Host, n: nat, id: nat)
    requires Sound(c, h) && Lost(h, n)
    ensures Lost(Next(c, h, Append(id)), n)
  {
    if HoldsReceipt(h, id) {
      SoundVerdict(c, h, id);
      assert Waiting(h, h.tasks[id].receipt) && !Holds(h, id, n);
      LostFrame(h, Next(c, h, Append(id)), n);
    }
  }

  lemma LostStays(c: Crypto, h: Host, n: nat, s: Step)
    requires SignerContract(c) && Sound(c, h) && Lost(h, n) && !s.Restart?
    ensures Lost(Next(c, h, s), n)
  {
    match s
    case Mint(id, now) => MintKeepsLost(c, h, n, id, now);
    case Append(id) => AppendKeepsLost(c, h, n, id);
    case Begin(_, _) => LostFrame(h, Next(c, h, s), n);
    case Cancel(_) => LostFrame(h, Next(c, h, s), n);
    case Restart(_) =>
  }

  predicate NoRestart(steps: seq<Step>) { forall s :: s in steps ==> !s.Restart? }

  lemma {:induction false} LostBlocks(c: Crypto, h: Host, n: nat, steps: seq<Step>)
    requires SignerContract(c) && Inv(c, h) && h.boot + |h.minted| + |steps| <= U64_MAX
    requires Lost(h, n) && NoRestart(steps)
    ensures Lost(RunHost(c, h, steps), n)
    decreases |steps|
  {
    if steps != [] {
      LostStays(c, h, n, steps[0]);
      StepKeeps(c, h, steps[0]);
      LostBlocks(c, Next(c, h, steps[0]), n, steps[1..]);
    }
  }

  /** Once a minted receipt is dropped, by cancellation or refusal, the log never grows past
      its number in any further steps without a restart. */
  lemma DropBlocksLog(c: Crypto, policy: Policy, before: seq<Step>, id: nat, s: Step, after: seq<Step>)
    requires SignerContract(c) && |before| + 1 + |after| <= U64_MAX && NoRestart(after)
    ensures var h := AfterRun(c, policy, before);
      HoldsReceipt(h, id) && Drops(c, h, id, s) ==>
        |RunHost(c, Next(c, h, s), after).log| <= Seq(h.tasks[id].receipt)
  {
    var h := AfterRun(c, policy, before);
    RunSound(c, policy, before);
    if HoldsReceipt(h, id) && Drops(c, h, id, s) {
      DroppedIsLost(c, h, id, s);
      StepKeeps(c, h, s);
      LostBlocks(c, Next(c, h, s), Seq(h.tasks[id].receipt), after);
    }
  }

  // ---------- restart ----------

  /** A proposal served on its own: begun, minted, appended. */
  function Serve(c: Crypto, h: Host, id: nat, action: Action, now: string): Host
  {
    Next(c, Next(c, Next(c, h, Begin(id, Propose(action))), Mint(id, now)), Append(id))
  }

  /** A receipt for the action was appended, or refused for sharing a content id. */
  ghost predicate Served(c: Crypto, before: seq<Receipt>, after: seq<Receipt>, action: Action)
  {
    exists r: Receipt :: r.body.action == action && (after == before + [r] || (after == before && Clashes(c, before, r)))
  }

  lemma AppendsNext(c: Crypto, h: Host, id: nat)
    requires Inv(c, h) && HoldsReceipt(h, id) && Seq(h.tasks[id].receipt) == |h.log|
    ensures var r, log := h.tasks[id].receipt, Next(c, h, Append(id)).log;
      log == h.log + [r] || (log == h.log && Clashes(c, h.log, r))
  {
    SoundVerdict(c, h, id);
  }

  lemma BeginsProposal(c: Crypto, h: Host, id: nat, action: Action)
    requires id !in h.tasks
    ensures Next(c, h, Begin(id, Propose(action))) ==
      h.(tasks := h.tasks[id := Ready(EvaluateProposal(Unbounded(action, Allowed, [], [])))])
  {
  }

  lemma ProposalMints(c: Crypto, h: Host, id: nat, action: Action, now: string) returns (r: Receipt)
    requires SignerContract(c) && Sound(c, h)
    requires id in h.tasks && h.tasks[id] == Ready(EvaluateProposal(Unbounded(action, Allowed, [], [])))
    ensures var h' := Next(c, h, Mint(id, now));
      Inv(c, h') && h'.log == h.log && HoldsReceipt(h', id) && h'.tasks[id].receipt == r
    ensures r.body.action == action && Seq(r) == h.boot + |h.minted|
  {
    r := MintedReceipt(c, h, id, now);
    MintKeeps(c, h, id, now);
  }

  lemma FreshBootServes(c: Crypto, h: Host, id: nat, action: Action, now: string)
    requires SignerContract(c) && Sound(c, h) && h == Boot(h.policy, h.log)
    ensures Served(c, h.log, Serve(c, h, id, action, now).log, action)
  {
    BeginsProposal(c, h, id, action);
    BeginKeeps(c, h, id, Propose(action));
    var h1 := Next(c, h, Begin(id, Propose(action)));
    var r := ProposalMints(c, h1, id, action, now);
    AppendsNext(c, Next(c, h1, Mint(id, now)), id);
  }

  /** A restart resynchronises kernel and log: the log is kept, nothing counts as lost any
      more, and the next proposal served on its own is appended. */
  lemma RestartResyncs(c: Crypto, policy: Policy, steps: seq<Step>, next: Policy, id: nat, action: Action, now: string)
    requires SignerContract(c) && |steps| < U64_MAX
    ensures var h := AfterRun(c, policy, steps);
      var h' := Next(c, h, Restart(next));
      (forall n: nat :: !Lost(h', n)) && h'.log == h.log && Served(c, h.log, Serve(c, h', id, action, now).log, action)
  {
    RunSound(c, policy, steps);
    SoundRestart(c, AfterRun(c, policy, steps), next, id, action, now);
  }

  lemma SoundRestart(c: Crypto, h: Host, next: Policy, id: nat, action: Action, now: string)
    requires SignerContract(c) && Sound(c, h)
    ensures var h' := Next(c, h, Restart(next));
      (forall n: nat :: !Lost(h', n)) && h'.log == h.log && Served(c, h.log, Serve(c, h', id, action, now).log, action)
  {
    BootKeeps(c, next, h.log);
    FreshBootServes(c, Boot(next, h.log), id, action, now);
    RestartLosesNothing(c, h, next);
  }

  lemma RestartLosesNothing(c: Crypto, h: Host, next: Policy)
    ensures Next(c, h, Restart(next)) == Boot(next, h.log) && forall n: nat :: !Lost(Boot(next, h.log), n)
  {
  }

  // ---------- appending in mint order ----------

  /** Every minted receipt is in the log or held by some request. */
  ghost predicate NothingLost(h: Host)
  {
    forall n: nat :: |h.log| <= n < h.boot + |h.minted| ==> Held(h, n)
  }

  /** No request is cancelled once it holds a receipt, appends take the oldest receipt, and it
      shares no content id with another logged body. */
  ghost predicate Orderly(c: Crypto, h: Host, s: Step)
  {
    match s
    case Append(id) =>
      HoldsReceipt(h, id) ==>
        (forall other :: HoldsReceipt(h, other) ==> Seq(h.tasks[id].receipt) <= Seq(h.tasks[other].receipt)) &&
        !Clashes(c, h.log, h.tasks[id].receipt)
    case Cancel(id) => !HoldsReceipt(h, id)
    case _ => true
  }

  predicate Refused(c: Crypto, h: Host, s: Step)
  {
    s.Append? && HoldsReceipt(h, s.id) && VerdictOn(c, h, s.id).Some?
  }

  lemma OrderlyAccepted(c: Crypto, h: Host, s: Step)
    requires Sound(c, h) && NothingLost(h) && Orderly(c, h, s)
    ensures !Refused(c, h, s)
    ensures s.Append? && HoldsReceipt(h, s.id) ==> Seq(h.tasks[s.id].receipt) == |h.log|
  {
    if s.Append? && HoldsReceipt(h, s.id) {
      assert Waiting(h, h.tasks[s.id].receipt);
      assert Held(h, |h.log|);
      var other :| Holds(h, other, |h.log|);
      SoundVerdict(c, h, s.id);
    }
  }

  lemma HeldFrame(h: Host, h': Host)
    requires NothingLost(h) && |h.log| <= |h'.log| && h'.boot + |h'.minted| == h.boot + |h.minted|
    requires forall id :: HoldsReceipt(h, id) && |h'.log| <= Seq(h.tasks[id].receipt) ==> id in h'.tasks && h'.tasks[id] == h.tasks[id]
    ensures NothingLost(h')
  {
    forall n: nat | |h'.log| <= n < h'.boot + |h'.minted| ensures Held(h', n) {
      assert Held(h, n);
      var id :| Holds(h, id, n);
      assert Holds(h', id, n);
    }
  }

  lemma MintLosesNothing(c: Crypto, h: Host, id: nat, now: string)
    requires SignerContract(c) && Sound(c, h) && NothingLost(h)
    requires id in h.tasks && h.tasks[id].Ready? && Decide(Setup(c, h), h.tasks[id].event).Ok?
    ensures NothingLost(Next(c, h, Mint(id, now)))
  {
    var h' := Next(c, h, Mint(id, now));
    MintedNumber(c, h, id, now);
    forall n: nat | |h'.log| <= n < h'.boot + |h'.minted| ensures Held(h', n) {
      if n < h.boot + |h.minted| {
        assert Held(h, n);
        var other :| Holds(h, other, n);
        assert Holds(h', other, n);
      } else {
        assert Holds(h', id, n);
      }
    }
  }

  lemma AcceptedNext(c: Crypto, h: Host, id: nat)
    requires HoldsReceipt(h, id) && VerdictOn(c, h, id).None?
    ensures Appended(h, Next(c, h, Append(id)), id, h.tasks[id].receipt)
  {
  }

  lemma AppendedLosesNothing(h: Host, h': Host, id: nat, r: Receipt)
    requires NothingLost(h) && Appended(h, h', id, r) && Seq(r) == |h.log|
    ensures NothingLost(h')
  {
    HeldFrame(h, h');
  }

  lemma AppendLosesNothing(c: Crypto, h: Host, id: nat)
    requires Sound(c, h) && NothingLost(h) && Orderly(c, h, Append(id)) && HoldsReceipt(h, id)
    ensures NothingLost(Next(c, h, Append(id)))
  {
    OrderlyAccepted(c, h, Append(id));
    AcceptedNext(c, h, id);
    AppendedLosesNothing(h, Next(c, h, Append(id)), id, h.tasks[id].receipt);
  }

  lemma NothingLostStays(c: Crypto, h: Host, s: Step)
    requires SignerContract(c) && Sound(c, h) && NothingLost(h) && Orderly(c, h, s)
    ensures NothingLost(Next(c, h, s))
  {
    match s
    case Mint(id, now) =>
      if id in h.tasks && h.tasks[id].Ready? {
        if Decide(Setup(c, h), h.tasks[id].event).Ok? {
          MintLosesNothing(c, h, id, now);
        } else {
          RejectedEvent(c, h, id, now);
          HeldFrame(h, Next(c, h, s));
        }
      }
    case Append(id) =>
      if HoldsReceipt(h, id) {
        AppendLosesNothing(c, h, id);
      }
    case Begin(_, _) => HeldFrame(h, Next(c, h, s));
    case Cancel(_) => HeldFrame(h, Next(c, h, s));
    case Restart(next) => RestartLosesNothing(c, h, next);
  }

  ghost predicate OrderlyRun(c: Crypto, h: Host, steps: seq<Step>)
    decreases |steps|
  {
    steps == [] || (Orderly(c, h, steps[0]) && OrderlyRun(c, Next(c, h, steps[0]), steps[1..]))
  }

  /** Some step of the run has an append refused. */
  ghost predicate SomeRefusal(c: Crypto, h: Host, steps: seq<Step>)
    decreases |steps|
  {
    steps != [] && (Refused(c, h, steps[0]) || SomeRefusal(c, Next(c, h, steps[0]), steps[1..]))
  }

  lemma {:induction false} OrderlyKeeps(c: Crypto, h: Host, steps: seq<Step>)
    requires SignerContract(c) && Inv(c, h) && h.boot + |h.minted| + |steps| <= U64_MAX
    requires NothingLost(h) && OrderlyRun(c, h, steps)
    ensures !SomeRefusal(c, h, steps)
    decreases |steps|
  {
    if steps != [] {
      OrderlyAccepted(c, h, steps[0]);
      NothingLostStays(c, h, steps[0]);
      StepKeeps(c, h, steps[0]);
      OrderlyKeeps(c, Next(c, h, steps[0]), steps[1..]);
    }
  }

  /** If appends happen in mint order, no append is ever refused, however requests interleave
      and restarts intervene. */
  lemma InOrderNeverRefused(c: Crypto, policy: Policy, steps: seq<Step>)
    requires SignerContract(c) && |steps| <= U64_MAX && OrderlyRun(c, Boot(policy, []), steps)
    ensures !SomeRefusal(c, Boot(policy, []), steps)
  {
    BootKeeps(c, policy, []);
    OrderlyKeeps(c, Boot(policy, []), steps);
  }
}
