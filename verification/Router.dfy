/** Driving a proposal through the operator: evaluate, route the pending receipt, resolve. */
module Router {
  import opened Wrappers
  import opened Receipts
  import opened Crypto
  import opened Budgets
  import opened Constitution
  import K = Kernel
  import KO = KernelObject

  datatype RouterError = Io(detail: string) | InvalidInput(detail: string) | Cancelled | Backend(detail: string)
  datatype OrchestrationError = KernelFailed(kernel: K.KernelError) | RouterFailed(router: RouterError)

  /** What a router was shown: the pending receipt and the proposal behind it. */
  type Question = (Receipt, K.Proposal)

  type Answers = seq<Question> -> Result<K.Response, RouterError>

  /** An operator's channel.  What it answers may depend on everything it was ever asked. */
  class ApprovalRouter {
    const answer: Answers
    var asked: seq<Question>

    constructor (answer: Answers)
      ensures this.answer == answer && asked == []
    {
      this.answer := answer;
      asked := [];
    }

    method Route(pending: Receipt, original: K.Proposal) returns (r: Result<K.Response, RouterError>)
      modifies this
      ensures asked == old(asked) + [(pending, original)] && r == answer(asked)
    {
      asked := asked + [(pending, original)];
      r := answer(asked);
    }
  }

  // ---------- the driver ----------

  datatype Routed = Routed(state: K.KernelState, asked: seq<Question>, result: Result<K.Outcome, OrchestrationError>)

  function AsOrchestration(r: Result<K.Outcome, K.KernelError>): Result<K.Outcome, OrchestrationError>
  {
    match r case Ok(o) => Ok(o) case Err(e) => Err(KernelFailed(e))
  }

  /** The whole exchange as a function of kernel state, router history and the two clock readings. */
  function Drive(cfg: K.Config, st: K.KernelState, answer: Answers,
                 asked: seq<Question>, p: K.Proposal, first: string, second: string): Routed
  {
    var (st1, r1) := K.Handled(cfg, st, K.EvaluateProposal(p), first);
    if r1.Err? || r1.value.kind != K.PendingApproval then Routed(st1, asked, AsOrchestration(r1))
    else
      var pending := r1.value.receipt;
      var asked' := asked + [(pending, p)];
      match answer(asked')
      case Err(e) => Routed(st1, asked', Err(RouterFailed(e)))
      case Ok(response) =>
        var (st2, r2) := K.Handled(cfg, st1, K.ResolveApproval(K.Approval(pending, p, response)), second);
        Routed(st2, asked', AsOrchestration(r2))
  }

  method EvaluateWithRouting(kernel: KO.KernelObject, router: ApprovalRouter, p: K.Proposal, first: string, second: string)
    returns (r: Result<K.Outcome, OrchestrationError>)
    modifies kernel, router
    ensures Routed(kernel.state, router.asked, r) ==
      Drive(kernel.cfg, old(kernel.state), router.answer, old(router.asked), p, first, second)
  {
    var evaluated := kernel.Handle(K.EvaluateProposal(p), first);
    if evaluated.Err? {
      return AsOrchestration(evaluated);
    }
    var outcome := evaluated.value;
    if outcome.kind != K.PendingApproval {
      return Ok(outcome);
    }
    var response := router.Route(outcome.receipt, p);
    if response.Err? {
      return Err(RouterFailed(response.error));
    }
    var resolved := kernel.Handle(K.ResolveApproval(K.Approval(outcome.receipt, p, response.value)), second);
    return AsOrchestration(resolved);
  }

  // ---------- what it guarantees ----------

  /** The proposal comes out pending: the constitution asks for approval, or it is silent, the
      caller asks for approval, and the lease can pay. */
  predicate Pends(rules: seq<Rule>, p: K.Proposal)
  {
    !SomeRuleSays(rules, Deny, p.action) &&
    (SomeRuleSays(rules, RequireApproval, p.action) || (p.decision == Pending && K.LeaseError(p.lease, p.charge).None?))
  }

  lemma PendsIff(rules: seq<Rule>, p: K.Proposal)
    ensures var d := K.DecideProposal(rules, p);
      (d.kind == K.PendingApproval <==> Pends(rules, p)) && (d.decision == Pending <==> Pends(rules, p)) && d.action == p.action
  {
  }

  lemma OwnPendingPasses(cfg: K.Config, st: K.KernelState, p: K.Proposal, now: string, response: K.Response)
    requires SignerContract(cfg.crypto) && Pends(cfg.rules, p)
    ensures var r := K.Minted(cfg, st, now, K.DecideProposal(cfg.rules, p));
      K.ApprovalGate(cfg.crypto, K.Approval(r, p, response)).None?
  {
    PendsIff(cfg.rules, p);
    var b := K.MintBody(cfg, st, now, K.DecideProposal(cfg.rules, p));
    var r := cfg.crypto.sign(b);
    assert r.body == b && r.issuer == cfg.crypto.publicKey && cfg.crypto.verify(r);
  }

  /** The driver never fails with a kernel error on its own pending receipt. */
  lemma NeverKernelError(cfg: K.Config, st: K.KernelState, answer: Answers,
                         asked: seq<Question>, p: K.Proposal, first: string, second: string)
    requires SignerContract(cfg.crypto)
    ensures var result := Drive(cfg, st, answer, asked, p, first, second).result; result.Err? ==> result.error.RouterFailed?
  {
    PendsIff(cfg.rules, p);
    if Pends(cfg.rules, p) {
      OwnPendingPasses(cfg, st, p, first, K.Approve);
      OwnPendingPasses(cfg, st, p, first, K.Refuse);
    }
  }

  /** The router is asked exactly when the proposal pends, once, about the receipt just minted. */
  lemma RouterAskedIffPending(cfg: K.Config, st: K.KernelState, answer: Answers,
                              asked: seq<Question>, p: K.Proposal, first: string, second: string)
    ensures Drive(cfg, st, answer, asked, p, first, second).asked ==
      if Pends(cfg.rules, p) then asked + [(K.Minted(cfg, st, first, K.DecideProposal(cfg.rules, p)), p)] else asked
  {
    PendsIff(cfg.rules, p);
  }

  /** The lease is the original after one accepted charge; on a solvent lease, exactly that
      much more is consumed. */
  predicate ChargedOnce(l: Lease, amount: ResourceUse, after: Lease)
  {
    ChargeError(l, amount).None? && after == Charged(l, amount) &&
    (Solvent(l) ==> Solvent(after) && UseAmount(after.consumed) == Plus(UseAmount(l.consumed), UseAmount(amount)))
  }

  lemma OneCharge(l: Lease, amount: ResourceUse)
    requires ChargeError(l, amount).None?
    ensures ChargedOnce(l, amount, Charged(l, amount))
  {
    if Solvent(l) {
      ChargeExact(l, amount);
    }
  }

  lemma DirectLease(rules: seq<Rule>, p: K.Proposal)
    requires p.lease.Some? && !Pends(rules, p)
    ensures var d := K.DecideProposal(rules, p);
      && d.decision != Pending
      && (d.decision != Denied ==> d.leaseAfter.Some? && ChargedOnce(p.lease.value, p.charge, d.leaseAfter.value))
      && (d.decision == Denied ==> d.leaseAfter == p.lease)
  {
    PendsIff(rules, p);
    if ChargeError(p.lease.value, p.charge).None? {
      OneCharge(p.lease.value, p.charge);
    }
  }

  lemma ResolvedLease(c: Crypto, a: K.Approval)
    requires a.originalProposal.lease.Some?
    ensures var d, l := K.DecideApproval(c, a), a.originalProposal.lease.value;
      && d.decision != Pending
      && (d.decision != Denied ==> d.leaseAfter.Some? && ChargedOnce(l, a.originalProposal.charge, d.leaseAfter.value))
      && (d.decision == Denied ==> d.leaseAfter == a.originalProposal.lease)
  {
    if ChargeError(a.originalProposal.lease.value, a.originalProposal.charge).None? {
      OneCharge(a.originalProposal.lease.value, a.originalProposal.charge);
    }
  }

  lemma DraftMinted(cfg: K.Config, st: K.KernelState, ev: K.Event, now: string)
    requires SignerContract(cfg.crypto) && K.Decide(cfg, ev).Ok?
    ensures var d, o := K.Decide(cfg, ev).value, K.Handled(cfg, st, ev, now).1;
      o.Ok? && o.value.receipt.body.decision == d.decision && o.value.leaseAfter == d.leaseAfter
  {
    var b := K.MintBody(cfg, st, now, K.Decide(cfg, ev).value);
    assert cfg.crypto.sign(b).body == b;
  }

  /** When the driver succeeds on a lease, the final decision is never Pending; if it is
      Denied the lease comes back untouched, and otherwise charged exactly once - also for a
      proposal whose caller asks for Pending, although evaluating it charges the lease and
      resolving it charges it again: the first charge is discarded. */
  lemma LeaseSettledOnce(cfg: K.Config, st: K.KernelState, answer: Answers,
                         asked: seq<Question>, p: K.Proposal, first: string, second: string)
    requires SignerContract(cfg.crypto) && p.lease.Some?
    requires Drive(cfg, st, answer, asked, p, first, second).result.Ok?
    ensures var o := Drive(cfg, st, answer, asked, p, first, second).result.value;
      && o.receipt.body.decision != Pending
      && (o.receipt.body.decision == Denied ==> o.leaseAfter == p.lease)
      && (o.receipt.body.decision != Denied ==> o.leaseAfter.Some? && ChargedOnce(p.lease.value, p.charge, o.leaseAfter.value))
  {
    PendsIff(cfg.rules, p);
    DraftMinted(cfg, st, K.EvaluateProposal(p), first);
    if Pends(cfg.rules, p) {
      var (st1, r1) := K.Handled(cfg, st, K.EvaluateProposal(p), first);
      var asked' := asked + [(r1.value.receipt, p)];
      var a := K.Approval(r1.value.receipt, p, answer(asked').value);
      OwnPendingPasses(cfg, st, p, first, a.response);
      DraftMinted(cfg, st1, K.ResolveApproval(a), second);
      ResolvedLease(cfg.crypto, a);
    } else {
      DirectLease(cfg.rules, p);
    }
  }

  /** The first outcome of a caller-proposed Pending does carry a charged lease. */
  lemma ProposedPendingIsCharged(cfg: K.Config, st: K.KernelState, p: K.Proposal, now: string)
    requires p.lease.Some? && p.decision == Pending && Pends(cfg.rules, p)
    requires !SomeRuleSays(cfg.rules, RequireApproval, p.action)
    ensures var o := K.Handled(cfg, st, K.EvaluateProposal(p), now).1.value;
      o.kind == K.PendingApproval && o.leaseAfter.Some? && ChargedOnce(p.lease.value, p.charge, o.leaseAfter.value)
  {
    PendsIff(cfg.rules, p);
    if ChargeError(p.lease.value, p.charge).None? {
      OneCharge(p.lease.value, p.charge);
    }
  }

  lemma ChargeShows(l: Lease, amount: ResourceUse)
    requires ChargeError(l, amount).None?
    ensures Charged(l, amount) == l <==> amount == ZERO_USE
  {
  }

  /** Evaluating a proposal that pends leaves the lease alone exactly when a rule asked for the
      approval, there is no lease, or nothing was to be charged. */
  lemma PendingUnchargedIff(cfg: K.Config, st: K.KernelState, p: K.Proposal, now: string)
    requires Pends(cfg.rules, p)
    ensures var o := K.Handled(cfg, st, K.EvaluateProposal(p), now).1.value;
      && o.kind == K.PendingApproval
      && (o.leaseAfter == p.lease <==>
           SomeRuleSays(cfg.rules, RequireApproval, p.action) || p.lease.None? || p.charge == ZERO_USE)
  {
    PendsIff(cfg.rules, p);
    if !SomeRuleSays(cfg.rules, RequireApproval, p.action) && p.lease.Some? {
      ChargeShows(p.lease.value, p.charge);
    }
  }

  /** A lease of ten bytes and one use, no rules, and a caller that asks for Pending on five
      bytes: the pending outcome carries five bytes and the use already consumed. */
  lemma PendingChargedOn(cfg: K.Config, st: K.KernelState, action: Action, now: string)
    requires cfg.rules == []
    ensures var l := NewLease(1, Budget(10, 0, 0, 0, 1));
      var p := K.Proposal(action, Pending, [], [], Some(l), ResourceUse(5, 0, 0, 0, 1));
      var o := K.Handled(cfg, st, K.EvaluateProposal(p), now).1.value;
      o.kind == K.PendingApproval && o.leaseAfter == Some(l.(consumed := ResourceUse(5, 0, 0, 0, 1))) && o.leaseAfter != p.lease
  {
    var p := K.Proposal(action, Pending, [], [], Some(NewLease(1, Budget(10, 0, 0, 0, 1))), ResourceUse(5, 0, 0, 0, 1));
    assert Pends(cfg.rules, p);
    PendingUnchargedIff(cfg, st, p, now);
  }

  /** The final decision: Approved after asking exactly when the operator approves and the
      lease can pay at that moment. */
  lemma FinalDecision(cfg: K.Config, st: K.KernelState, answer: Answers,
                      asked: seq<Question>, p: K.Proposal, first: string, second: string)
    requires SignerContract(cfg.crypto) && Pends(cfg.rules, p)
    requires Drive(cfg, st, answer, asked, p, first, second).result.Ok?
    ensures var run := Drive(cfg, st, answer, asked, p, first, second);
      && answer(run.asked).Ok?
      && run.result.value.receipt.body.decision ==
         if answer(run.asked).value == K.Approve && K.LeaseError(p.lease, p.charge).None? then Approved else Denied
  {
    PendsIff(cfg.rules, p);
    var (st1, r1) := K.Handled(cfg, st, K.EvaluateProposal(p), first);
    var asked' := asked + [(r1.value.receipt, p)];
    var a := K.Approval(r1.value.receipt, p, answer(asked').value);
    OwnPendingPasses(cfg, st, p, first, a.response);
    DraftMinted(cfg, st1, K.ResolveApproval(a), second);
  }

  // ---------- many proposals on one lease ----------

  /** One proposal to drive, on whatever lease the caller then holds. */
  datatype Ask = Ask(proposal: K.Proposal, first: string, second: string)

  /** A caller that puts each returned lease into its next proposal, and keeps the one it has
      when the driver fails. */
  datatype Session = Session(state: K.KernelState, asked: seq<Question>, lease: Lease)

  function RunOf(cfg: K.Config, answer: Answers, s: Session, a: Ask): Routed
  {
    Drive(cfg, s.state, answer, s.asked, a.proposal.(lease := Some(s.lease)), a.first, a.second)
  }

  /** The driver succeeded, and the final receipt is not a denial. */
  predicate WentThrough(run: Routed) { run.result.Ok? && run.result.value.receipt.body.decision != Denied }

  function NextSession(cfg: K.Config, answer: Answers, s: Session, a: Ask): Session
  {
    var run := RunOf(cfg, answer, s, a);
    Session(run.state, run.asked,
            if run.result.Ok? && run.result.value.leaseAfter.Some? then run.result.value.leaseAfter.value else s.lease)
  }

  function AfterAsks(cfg: K.Config, answer: Answers, s: Session, asks: seq<Ask>): Session
    decreases |asks|
  {
    if asks == [] then s else AfterAsks(cfg, answer, NextSession(cfg, answer, s, asks[0]), asks[1..])
  }

  /** The charges of the proposals that went through. */
  function Spent(cfg: K.Config, answer: Answers, s: Session, asks: seq<Ask>): Amount
    decreases |asks|
  {
    if asks == [] then NOTHING
    else
      Plus(if WentThrough(RunOf(cfg, answer, s, asks[0])) then UseAmount(asks[0].proposal.charge) else NOTHING,
           Spent(cfg, answer, NextSession(cfg, answer, s, asks[0]), asks[1..]))
  }

  lemma AskSettles(cfg: K.Config, answer: Answers, s: Session, a: Ask)
    requires SignerContract(cfg.crypto) && Solvent(s.lease)
    ensures var s' := NextSession(cfg, answer, s, a);
      && Solvent(s'.lease) && s'.lease == s.lease.(consumed := s'.lease.consumed)
      && UseAmount(s'.lease.consumed) == Plus(UseAmount(s.lease.consumed),
           if WentThrough(RunOf(cfg, answer, s, a)) then UseAmount(a.proposal.charge) else NOTHING)
  {
    var p := a.proposal.(lease := Some(s.lease));
    if RunOf(cfg, answer, s, a).result.Ok? {
      LeaseSettledOnce(cfg, s.state, answer, s.asked, p, a.first, a.second);
    }
    PlusMinus(UseAmount(s.lease.consumed), NOTHING, NOTHING);
  }

  /** The ledger is exact over any number of proposals, whatever rules, callers and operators
      decide: the lease has consumed just the charges of the proposals that went through, and
      those never exceed what it had left. */
  lemma LedgerExact(cfg: K.Config, answer: Answers, s: Session, asks: seq<Ask>)
    requires SignerContract(cfg.crypto) && Solvent(s.lease)
    ensures var s', spent := AfterAsks(cfg, answer, s, asks), Spent(cfg, answer, s, asks);
      && Solvent(s'.lease) && s'.lease == s.lease.(consumed := s'.lease.consumed)
      && UseAmount(s'.lease.consumed) == Plus(UseAmount(s.lease.consumed), spent)
      && Within(spent, Left(s.lease))
  {
    LedgerSum(cfg, answer, s, asks);
    ChargeExact(s.lease, ZERO_USE);
  }

  lemma {:induction false} LedgerSum(cfg: K.Config, answer: Answers, s: Session, asks: seq<Ask>)
    requires SignerContract(cfg.crypto) && Solvent(s.lease)
    ensures var s', spent := AfterAsks(cfg, answer, s, asks), Spent(cfg, answer, s, asks);
      && Solvent(s'.lease) && s'.lease == s.lease.(consumed := s'.lease.consumed)
      && UseAmount(s'.lease.consumed) == Plus(UseAmount(s.lease.consumed), spent)
    decreases |asks|
  {
    if asks != [] {
      var next := NextSession(cfg, answer, s, asks[0]);
      AskSettles(cfg, answer, s, asks[0]);
      LedgerSum(cfg, answer, next, asks[1..]);
      PlusMinus(UseAmount(s.lease.consumed),
                if WentThrough(RunOf(cfg, answer, s, asks[0])) then UseAmount(asks[0].proposal.charge) else NOTHING,
                Spent(cfg, answer, next, asks[1..]));
    }
  }
}
