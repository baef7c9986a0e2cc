/** The host: concurrent requests that look up, mint and append in separate critical
    sections, cancelled requests, and restarts that rebuild the kernel from the log. */
module Host {
  import opened Wrappers
  import opened Texts
  import opened Receipts
  import opened Crypto
  import opened Budgets
  import opened Constitution
  import opened Kernel
  import opened KernelRuns
  import opened Log

  // ---------- requests ----------

  datatype Request =
    | Propose(action: Action)
    | Resolve(id: Digest, response: Response)
    | RecordTool(toolId: Digest, outcome: Result<ToolOutput, string>, redaction: Option<RedactionReport>)

  function Unbounded(action: Action, decision: Decision, rules: seq<RuleRef>, provenance: seq<ProvenanceEdge>): Proposal
  {
    Proposal(action, decision, rules, provenance, None, ZERO_USE)
  }

  /** The log's lookup by content id. */
  function ById(c: Crypto, rs: seq<Receipt>, id: Digest): (r: Option<Receipt>)
    ensures r.Some? ==> r.value in rs && ContentId(c, r.value) == id
    ensures r.None? <==> !HasId(c, rs, id)
  {
    if rs == [] then None
    else
      var last := rs[|rs| - 1];
      if ContentId(c, last) == id then Some(last)
      else
        assert forall i :: 0 <= i < |rs| - 1 ==> rs[..|rs| - 1][i] == rs[i];
        ById(c, rs[..|rs| - 1], id)
  }

  /** The kernel event a request turns into, or nothing when the handler answers with an error. */
  function BuildEvent(c: Crypto, log: seq<Receipt>, req: Request): Option<Event>
  {
    match req
    case Propose(action) => Some(EvaluateProposal(Unbounded(action, Allowed, [], [])))
    case Resolve(id, response) =>
      var found := ById(c, log, id);
      if found.None? || found.value.body.decision != Pending then None
      else
        var b := found.value.body;
        Some(ResolveApproval(Approval(found.value, Unbounded(b.action, Pending, b.constitutionRules, b.provenance), response)))
    case RecordTool(id, outcome, redaction) =>
      var found := ById(c, log, id);
      if found.None? || found.value.body.decision != Allowed || !StartsWith(found.value.body.action.kind, "tool.") then None
      else
        var b := found.value.body;
        var result := match outcome
          case Ok(output) => Ok(output)
          case Err(message) => Err(Failed(message));
        Some(RecordToolExecution(
          ToolExecution(found.value, Unbounded(b.action, Allowed, b.constitutionRules, b.provenance), result, redaction)))
  }

  /** `build_kernel_from_log`. */
  function KernelFromLog(log: seq<Receipt>): KernelState
  {
    if |log| == 0 then Genesis() else KernelState(SatAdd64(Seq(log[|log| - 1]), 1), LeafOf(log[|log| - 1]))
  }

  // ---------- the machine ----------

  /** A request between its critical sections: event built, or receipt minted. */
  datatype Task = Ready(event: Event) | Appending(receipt: Receipt)

  /** What the operator sets at boot, and may change from one boot to the next. */
  datatype Policy = Policy(keyId: Option<string>, rules: seq<Rule>)

  /** `boot` and `minted` are history: the log length at boot, and every receipt minted since. */
  datatype Host = Host(
    policy: Policy,
    kernel: KernelState,
    log: seq<Receipt>,
    tasks: map<nat, Task>,
    boot: nat,
    minted: seq<Receipt>)

  /** The kernel's configuration: the signing key never changes, the policy is that of this boot. */
  function Setup(c: Crypto, h: Host): Config { Config(c, h.policy.keyId, h.policy.rules) }

  datatype Step =
    | Begin(id: nat, request: Request)
    | Mint(id: nat, now: string)
    | Append(id: nat)
    | Cancel(id: nat)
    | Restart(policy: Policy)

  function Boot(policy: Policy, log: seq<Receipt>): Host { Host(policy, KernelFromLog(log), log, map[], |log|, []) }

  /** A step that is not enabled leaves everything as it is. */
  function Next(c: Crypto, h: Host, s: Step): Host
  {
    match s
    case Begin(id, req) =>
      var ev := BuildEvent(c, h.log, req);
      if id in h.tasks || ev.None? then h else h.(tasks := h.tasks[id := Ready(ev.value)])
    case Mint(id, now) =>
      if id !in h.tasks || h.tasks[id].Appending? then h
      else
        var (kernel, r) := Handled(Setup(c, h), h.kernel, h.tasks[id].event, now);
        match r {
          case Err(_) => h.(kernel := kernel, tasks := h.tasks - {id})
          case Ok(o) => h.(kernel := kernel, tasks := h.tasks[id := Appending(o.receipt)], minted := h.minted + [o.receipt])
        }
    case Append(id) =>
      if id !in h.tasks || h.tasks[id].Ready? then h
      else
        var r := h.tasks[id].receipt;
        if AppendCheck(c, c.publicKey, h.log, r).Some? then h.(tasks := h.tasks - {id})
        else h.(log := h.log + [r], tasks := h.tasks - {id})
    case Cancel(id) => h.(tasks := h.tasks - {id})
    case Restart(policy) => Boot(policy, h.log)
  }

  function RunHost(c: Crypto, h: Host, steps: seq<Step>): Host
    decreases |steps|
  {
    if steps == [] then h else RunHost(c, Next(c, h, steps[0]), steps[1..])
  }

  // ---------- the invariant ----------

  /** What a receipt in the log must be able to point back to. */
  ghost predicate Traced(c: Crypto, past: seq<Receipt>, r: Receipt)
  {
    && (r.body.decision == Approved ==> exists p :: p in past && Approves(c, p, r))
    && (forall e :: e in r.body.provenance && e.kind == "tool_execution" ==>
      exists p :: p in past && Authorizes(c, p, e))
  }

  /** `p` is the pending receipt that the approval `r` answers. */
  predicate Approves(c: Crypto, p: Receipt, r: Receipt)
  {
    p.body.decision == Pending && p.body.action == r.body.action &&
    |r.body.provenance| > 0 && r.body.provenance[|r.body.provenance| - 1] == ApprovalEdge(c, p)
  }

  /** `p` is the allowed tool receipt that an execution edge points to. */
  predicate Authorizes(c: Crypto, p: Receipt, e: ProvenanceEdge)
  {
    p.body.decision == Allowed && StartsWith(p.body.action.kind, "tool.") && e.source == ReceiptNode(c, p)
  }

  ghost predicate AllTraced(c: Crypto, log: seq<Receipt>)
  {
    forall i :: 0 <= i < |log| ==> Traced(c, log[..i], log[i])
  }

  /** An event the host built from the log as it was at some earlier moment. */
  predicate Backed(log: seq<Receipt>, ev: Event)
  {
    match ev
    case EvaluateProposal(p) => p == Unbounded(p.action, Allowed, [], [])
    case ResolveApproval(a) =>
      a.pendingReceipt in log && a.originalProposal.provenance == a.pendingReceipt.body.provenance
    case RecordToolExecution(e) => e.allowedReceipt in log
    case RunSleep(_, _) => false
  }

  /** Where the kernel stood at boot. */
  function BootState(h: Host): KernelState
    requires h.boot <= |h.log| && h.boot <= U64_MAX
  {
    KernelState(h.boot, Head(h.log[..h.boot]))
  }

  /** The log is the boot log followed by the first receipts minted since. */
  predicate PrefixOfMinted(h: Host)
  {
    h.boot <= |h.log| <= h.boot + |h.minted| && h.log[h.boot..] == h.minted[..|h.log| - h.boot]
  }

  predicate KernelAhead(c: Crypto, h: Host)
  {
    h.boot <= |h.log| && h.boot <= U64_MAX &&
    Chained(BootState(h), h.minted) && AllGenuine(c, h.minted) && Continues(BootState(h), h.minted, h.kernel)
  }

  /** A minted receipt waiting to be appended is still ahead of the log. */
  predicate Waiting(h: Host, r: Receipt)
  {
    |h.log| <= Seq(r) < h.boot + |h.minted| && h.boot <= Seq(r) && h.minted[Seq(r) - h.boot] == r
  }

  predicate HeldWait(h: Host)
  {
    forall id :: id in h.tasks && h.tasks[id].Appending? ==> Waiting(h, h.tasks[id].receipt)
  }

  /** No two requests hold receipts with one number. */
  predicate HeldDistinct(h: Host)
  {
    forall i, j :: i in h.tasks && j in h.tasks && i != j && h.tasks[i].Appending? && h.tasks[j].Appending? ==>
      Seq(h.tasks[i].receipt) != Seq(h.tasks[j].receipt)
  }

  predicate ReadyBacked(h: Host)
  {
    forall id :: id in h.tasks && h.tasks[id].Ready? ==> Backed(h.log, h.tasks[id].event)
  }

  predicate TasksInOrder(h: Host) { HeldWait(h) && HeldDistinct(h) && ReadyBacked(h) }

  ghost predicate MintedTraced(c: Crypto, h: Host)
  {
    forall i :: 0 <= i < |h.minted| && |h.log| <= h.boot + i ==> Traced(c, h.log, h.minted[i])
  }

  ghost predicate Inv(c: Crypto, h: Host)
  {
    GoodLog(c, c.publicKey, h.log) && AllTraced(c, h.log) &&
    PrefixOfMinted(h) && KernelAhead(c, h) && TasksInOrder(h) && MintedTraced(c, h)
  }

  // ---------- every step keeps it ----------

  lemma BootKeeps(c: Crypto, policy: Policy, log: seq<Receipt>)
    requires GoodLog(c, c.publicKey, log) && AllTraced(c, log) && |log| <= U64_MAX
    ensures Inv(c, Boot(policy, log)) && Boot(policy, log).kernel == BootState(Boot(policy, log))
  {
    if |log| > 0 {
      assert GoodAt(c, log, |log| - 1);
    }
    assert log[..|log|] == log;
  }

  lemma FoundBacked(c: Crypto, log: seq<Receipt>, req: Request)
    requires BuildEvent(c, log, req).Some?
    ensures Backed(log, BuildEvent(c, log, req).value)
  {
  }

  /** Tasks that hold no receipt may come and go. */
  lemma TasksChanged(h: Host, h': Host)
    requires TasksInOrder(h) && h' == h.(tasks := h'.tasks)
    requires forall id :: id in h'.tasks ==> (id in h.tasks && h'.tasks[id] == h.tasks[id]) || h'.tasks[id].Ready?
    requires ReadyBacked(h')
    ensures TasksInOrder(h')
  {
    assert HeldWait(h) && HeldDistinct(h);
    forall id | id in h'.tasks && h'.tasks[id].Appending? ensures Waiting(h', h'.tasks[id].receipt) {
      assert Waiting(h, h.tasks[id].receipt);
    }
  }

  lemma SameButTasks(c: Crypto, h: Host, h': Host)
    requires Inv(c, h) && h' == h.(tasks := h'.tasks) && TasksInOrder(h')
    ensures Inv(c, h')
  {
    assert BootState(h') == BootState(h);
  }

  lemma BeginKeeps(c: Crypto, h: Host, id: nat, req: Request)
    requires Inv(c, h)
    ensures Inv(c, Next(c, h, Begin(id, req)))
  {
    var ev := BuildEvent(c, h.log, req);
    if ev.Some? && id !in h.tasks {
      FoundBacked(c, h.log, req);
      ReadyKeeps(c, h, id, ev.value);
    }
  }

  lemma ReadyKeeps(c: Crypto, h: Host, id: nat, ev: Event)
    requires Inv(c, h) && id !in h.tasks && Backed(h.log, ev)
    ensures Inv(c, h.(tasks := h.tasks[id := Ready(ev)]))
  {
    var h' := h.(tasks := h.tasks[id := Ready(ev)]);
    ReadyStays(h, h', id);
    TasksChanged(h, h');
    SameButTasks(c, h, h');
  }

  lemma ReadyStays(h: Host, h': Host, id: nat)
    requires ReadyBacked(h) && h'.log == h.log
    requires forall other :: other in h'.tasks && other != id ==> other in h.tasks && h'.tasks[other] == h.tasks[other]
    requires id in h'.tasks && h'.tasks[id].Ready? ==> Backed(h.log, h'.tasks[id].event)
    ensures ReadyBacked(h')
  {
  }

  lemma CancelKeeps(c: Crypto, h: Host, id: nat)
    requires Inv(c, h)
    ensures Inv(c, h.(tasks := h.tasks - {id}))
  {
    var h' := h.(tasks := h.tasks - {id});
    ReadyStays(h, h', id);
    TasksChanged(h, h');
    SameButTasks(c, h, h');
  }

  lemma TracedLonger(c: Crypto, past: seq<Receipt>, more: seq<Receipt>, r: Receipt)
    requires Traced(c, past, r)
    ensures Traced(c, past + more, r)
  {
    forall p | p in past ensures p in past + more {}
  }

  lemma LoggedTraced(c: Crypto, log: seq<Receipt>, p: Receipt)
    requires AllTraced(c, log) && p in log
    ensures Traced(c, log, p)
  {
    var i :| 0 <= i < |log| && log[i] == p;
    TracedLonger(c, log[..i], log[i..], p);
    assert log[..i] + log[i..] == log;
  }

  /** What the kernel mints for an event the host built is traced to the log. */
  lemma MintTraced(cfg: Config, log: seq<Receipt>, ev: Event, d: Draft, r: Receipt)
    requires AllTraced(cfg.crypto, log) && Backed(log, ev) && Decide(cfg, ev) == Ok(d)
    requires r.body.action == d.action && r.body.decision == d.decision && r.body.provenance == d.provenance
    ensures Traced(cfg.crypto, log, r)
  {
    match ev
    case EvaluateProposal(p) =>
    case ResolveApproval(a) =>
      LoggedTraced(cfg.crypto, log, a.pendingReceipt);
      assert Approves(cfg.crypto, a.pendingReceipt, r);
      forall e | e in r.body.provenance && e.kind == "tool_execution"
        ensures exists p :: p in log && Authorizes(cfg.crypto, p, e)
      {
        assert e in a.pendingReceipt.body.provenance;
      }
    case RecordToolExecution(e) =>
      ToolEdgesShareSource(cfg.crypto, e);
      forall x | x in r.body.provenance ensures Authorizes(cfg.crypto, e.allowedReceipt, x) {}
  }

  lemma {:induction false} RedactionSource(node: string, ms: seq<RuleMatch>)
    ensures forall e :: e in RedactionEdges(node, ms) ==> e.source == node
  {
    if ms != [] {
      RedactionSource(node, ms[1..]);
      assert forall e :: e in RedactionEdge(node, ms[0]) ==> e.source == node;
    }
  }

  lemma ToolEdgesShareSource(c: Crypto, e: ToolExecution)
    ensures forall x :: x in DecideTool(c, e).provenance ==> x.source == ReceiptNode(c, e.allowedReceipt)
  {
    var node := ReceiptNode(c, e.allowedReceipt);
    if e.redaction.Some? {
      RedactionSource(node, e.redaction.value.matches);
    }
  }

  /** Minting for a waiting event: what the request then holds, and how it extends the chain. */
  lemma MintedReceipt(c: Crypto, h: Host, id: nat, now: string) returns (r: Receipt)
    requires SignerContract(c) && h.kernel.sequence < U64_MAX
    requires id in h.tasks && h.tasks[id].Ready? && Decide(Setup(c, h), h.tasks[id].event).Ok?
    ensures var h' := Next(c, h, Mint(id, now));
      && h' == h.(kernel := h'.kernel, tasks := h.tasks[id := Appending(r)], minted := h.minted + [r])
      && Chained(h.kernel, [r]) && AllGenuine(c, [r]) && Continues(h.kernel, [r], h'.kernel)
    ensures r.body == MintBody(Setup(c, h), h.kernel, now, Decide(Setup(c, h), h.tasks[id].event).value)
    ensures Seq(r) == h.kernel.sequence
  {
    var t := Timed(h.tasks[id].event, now);
    StepChained(Setup(c, h), h.kernel, t);
    r := RecordOf(Setup(c, h), h.kernel, t)[0].receipt;
    assert ReceiptsOf(RecordOf(Setup(c, h), h.kernel, t)) == [r];
    assert LinkedAt(h.kernel, [r], 0);
  }

  lemma RejectedEvent(c: Crypto, h: Host, id: nat, now: string)
    requires id in h.tasks && h.tasks[id].Ready? && Decide(Setup(c, h), h.tasks[id].event).Err?
    ensures Next(c, h, Mint(id, now)) == h.(tasks := h.tasks - {id})
  {
  }

  /** The state holding one more minted receipt, which a request holds. */
  predicate OneMore(h: Host, h': Host, id: nat, r: Receipt)
  {
    h' == h.(kernel := h'.kernel, tasks := h.tasks[id := Appending(r)], minted := h.minted + [r])
  }

  lemma OneMorePrefix(h: Host, h': Host, id: nat, r: Receipt)
    requires OneMore(h, h', id, r) && PrefixOfMinted(h)
    ensures PrefixOfMinted(h')
  {
    var k := |h.log| - h.boot;
    assert h'.minted[..k] == h.minted[..k];
  }

  lemma OneMoreAhead(c: Crypto, h: Host, h': Host, id: nat, r: Receipt)
    requires OneMore(h, h', id, r) && KernelAhead(c, h)
    requires Chained(h.kernel, [r]) && AllGenuine(c, [r]) && Continues(h.kernel, [r], h'.kernel)
    ensures KernelAhead(c, h')
  {
    ChainedConcat(BootState(h), h.minted, h.kernel, [r], h'.kernel);
    GenuineConcat(c, h.minted, [r]);
  }

  lemma OneMoreTasks(h: Host, h': Host, id: nat, r: Receipt)
    requires OneMore(h, h', id, r) && TasksInOrder(h) && PrefixOfMinted(h) && Seq(r) == h.boot + |h.minted|
    ensures TasksInOrder(h')
  {
    assert HeldWait(h) && HeldDistinct(h);
    forall i | i in h.tasks && h.tasks[i].Appending? ensures Waiting(h', h.tasks[i].receipt) && Seq(h.tasks[i].receipt) != Seq(r) {
      assert Waiting(h, h.tasks[i].receipt);
    }
    assert Waiting(h', r);
    ReadyStays(h, h', id);
  }

  lemma OneMoreTraced(c: Crypto, h: Host, h': Host, id: nat, r: Receipt)
    requires OneMore(h, h', id, r) && MintedTraced(c, h) && Traced(c, h.log, r)
    ensures MintedTraced(c, h')
  {
  }

  lemma MintKeeps(c: Crypto, h: Host, id: nat, now: string)
    requires SignerContract(c) && Inv(c, h) && h.boot + |h.minted| < U64_MAX
    ensures Inv(c, Next(c, h, Mint(id, now)))
  {
    if id in h.tasks && h.tasks[id].Ready? {
      var ev := h.tasks[id].event;
      if Decide(Setup(c, h), ev).Ok? {
        var r := MintedReceipt(c, h, id, now);
        MintTraced(Setup(c, h), h.log, ev, Decide(Setup(c, h), ev).value, r);
        OneMoreKeeps(c, h, Next(c, h, Mint(id, now)), id, r);
      } else {
        RejectedEvent(c, h, id, now);
        CancelKeeps(c, h, id);
      }
    }
  }

  lemma OneMoreKeeps(c: Crypto, h: Host, h': Host, id: nat, r: Receipt)
    requires Inv(c, h) && OneMore(h, h', id, r) && Traced(c, h.log, r) && Seq(r) == h.kernel.sequence
    requires Chained(h.kernel, [r]) && AllGenuine(c, [r]) && Continues(h.kernel, [r], h'.kernel)
    ensures Inv(c, h')
  {
    OneMorePrefix(h, h', id, r);
    OneMoreAhead(c, h, h', id, r);
    OneMoreTasks(h, h', id, r);
    OneMoreTraced(c, h, h', id, r);
  }

  /** The state with the next minted receipt moved from its request to the log. */
  predicate Appended(h: Host, h': Host, id: nat, r: Receipt)
  {
    id in h.tasks && h.tasks[id] == Appending(r) && h' == h.(log := h.log + [r], tasks := h.tasks - {id})
  }

  lemma AppendedPrefix(h: Host, h': Host, id: nat, r: Receipt)
    requires Appended(h, h', id, r) && PrefixOfMinted(h) && Waiting(h, r) && Seq(r) == |h.log|
    ensures PrefixOfMinted(h')
  {
    var k := |h.log| - h.boot;
    assert h'.log[h.boot..] == h.log[h.boot..] + [r] == h.minted[..k] + [r] == h.minted[..k + 1];
  }

  lemma AppendedAhead(c: Crypto, h: Host, h': Host, id: nat, r: Receipt)
    requires Appended(h, h', id, r) && KernelAhead(c, h)
    ensures KernelAhead(c, h')
  {
    assert h'.log[..h.boot] == h.log[..h.boot];
  }

  lemma AppendedTasks(h: Host, h': Host, id: nat, r: Receipt)
    requires Appended(h, h', id, r) && TasksInOrder(h) && Seq(r) == |h.log|
    ensures TasksInOrder(h')
  {
    assert HeldWait(h) && HeldDistinct(h) && ReadyBacked(h);
    forall i | i in h'.tasks && h'.tasks[i].Appending? ensures Waiting(h', h'.tasks[i].receipt) {
      assert Waiting(h, h.tasks[i].receipt) && Seq(h.tasks[i].receipt) != Seq(r);
    }
    forall i | i in h'.tasks && h'.tasks[i].Ready? ensures Backed(h'.log, h'.tasks[i].event) {
      BackedLonger(h.log, r, h.tasks[i].event);
    }
  }

  lemma AppendedAllTraced(c: Crypto, log: seq<Receipt>, r: Receipt)
    requires AllTraced(c, log) && Traced(c, log, r)
    ensures AllTraced(c, log + [r])
  {
    var all := log + [r];
    forall i | 0 <= i < |all| ensures Traced(c, all[..i], all[i]) {
      assert all[..i] == if i < |log| then log[..i] else log;
    }
  }

  lemma AppendedMintedTraced(c: Crypto, h: Host, h': Host, id: nat, r: Receipt)
    requires Appended(h, h', id, r) && MintedTraced(c, h)
    ensures MintedTraced(c, h')
  {
    forall i | 0 <= i < |h.minted| && |h'.log| <= h.boot + i ensures Traced(c, h'.log, h.minted[i]) {
      TracedLonger(c, h.log, [r], h.minted[i]);
    }
  }

  lemma AppendedKeeps(c: Crypto, h: Host, h': Host, id: nat, r: Receipt)
    requires Inv(c, h) && Appended(h, h', id, r) && Waiting(h, r)
    requires AppendCheck(c, c.publicKey, h.log, r).None?
    ensures Inv(c, h')
  {
    assert Seq(r) == |h.log| && Traced(c, h.log, h.minted[|h.log| - h.boot]);
    AppendKeepsGood(c, c.publicKey, h.log, r);
    AppendedPrefix(h, h', id, r);
    AppendedAhead(c, h, h', id, r);
    AppendedTasks(h, h', id, r);
    AppendedAllTraced(c, h.log, r);
    AppendedMintedTraced(c, h, h', id, r);
  }

  lemma AppendKeeps(c: Crypto, h: Host, id: nat)
    requires Inv(c, h)
    ensures Inv(c, Next(c, h, Append(id)))
  {
    if id in h.tasks && h.tasks[id].Appending? {
      var r := h.tasks[id].receipt;
      if AppendCheck(c, c.publicKey, h.log, r).None? {
        assert Waiting(h, r);
        AppendedKeeps(c, h, Next(c, h, Append(id)), id, r);
      } else {
        CancelKeeps(c, h, id);
      }
    }
  }

  lemma BackedLonger(log: seq<Receipt>, r: Receipt, ev: Event)
    requires Backed(log, ev)
    ensures Backed(log + [r], ev)
  {
  }

  lemma StepKeeps(c: Crypto, h: Host, s: Step)
    requires SignerContract(c) && Inv(c, h) && h.boot + |h.minted| < U64_MAX
    ensures Inv(c, Next(c, h, s))
    ensures var h' := Next(c, h, s); h'.boot + |h'.minted| <= h.boot + |h.minted| + 1
  {
    StepGrows(c, h, s);
    match s
    case Begin(id, req) => BeginKeeps(c, h, id, req);
    case Mint(id, now) => MintKeeps(c, h, id, now);
    case Append(id) => AppendKeeps(c, h, id);
    case Cancel(id) => CancelKeeps(c, h, id);
    case Restart(policy) => BootKeeps(c, policy, h.log);
  }

  /** A step mints at most one receipt, and a restart counts from a log no longer than that. */
  lemma StepGrows(c: Crypto, h: Host, s: Step)
    requires |h.log| <= h.boot + |h.minted|
    ensures var h' := Next(c, h, s); h'.boot + |h'.minted| <= h.boot + |h.minted| + 1
  {
  }

  lemma {:induction false} RunKeeps(c: Crypto, h: Host, steps: seq<Step>)
    requires SignerContract(c) && Inv(c, h) && h.boot + |h.minted| + |steps| <= U64_MAX
    ensures Inv(c, RunHost(c, h, steps))
    ensures var h' := RunHost(c, h, steps); h'.boot + |h'.minted| <= h.boot + |h.minted| + |steps|
    decreases |steps|
  {
    if steps != [] {
      StepKeeps(c, h, steps[0]);
      RunKeeps(c, Next(c, h, steps[0]), steps[1..]);
    }
  }
}
