/** Capability leases: budgets, charging, delegation, revocation, and the conservation law
    of a tree of leases. */
module Budgets {
  import opened Wrappers
  import opened Receipts

  datatype Budget = Budget(netBytes: u64, fileWrites: u32, llmTokens: u32, wallMs: u64, maxUses: u32)
  datatype ResourceUse = ResourceUse(netBytes: u64, fileWrites: u32, llmTokens: u32, wallMs: u64, uses: u32)

  datatype BudgetError =
    | NetBytesExhausted | FileWritesExhausted | LlmTokensExhausted | WallTimeExhausted | UsesExhausted
    | DelegationExceedsParent | Revoked

  type LeaseId = nat

  datatype Lease = Lease(id: LeaseId, budget: Budget, consumed: ResourceUse, parent: Option<LeaseId>, revoked: bool)

  const ZERO_USE := ResourceUse(0, 0, 0, 0, 0)

  // ---------- amounts ----------

  function AsUse(b: Budget): ResourceUse
  {
    ResourceUse(b.netBytes, b.fileWrites, b.llmTokens, b.wallMs, b.maxUses)
  }

  function SaturatingAdd(a: ResourceUse, b: ResourceUse): ResourceUse
  {
    ResourceUse(SatAdd64(a.netBytes, b.netBytes), SatAdd32(a.fileWrites, b.fileWrites), SatAdd32(a.llmTokens, b.llmTokens),
                SatAdd64(a.wallMs, b.wallMs), SatAdd32(a.uses, b.uses))
  }

  function Remaining(l: Lease): Budget
  {
    Budget(SatSub64(l.budget.netBytes, l.consumed.netBytes), SatSub32(l.budget.fileWrites, l.consumed.fileWrites),
           SatSub32(l.budget.llmTokens, l.consumed.llmTokens), SatSub64(l.budget.wallMs, l.consumed.wallMs),
           SatSub32(l.budget.maxUses, l.consumed.uses))
  }

  // ---------- one lease ----------

  function NewLease(id: LeaseId, budget: Budget): Lease { Lease(id, budget, ZERO_USE, None, false) }

  /** The first resource, in the fixed order, that cannot hold `amount`. */
  function Shortfall(amount: ResourceUse, remaining: Budget): (e: Option<BudgetError>)
  {
    if amount.netBytes > remaining.netBytes then Some(NetBytesExhausted)
    else if amount.fileWrites > remaining.fileWrites then Some(FileWritesExhausted)
    else if amount.llmTokens > remaining.llmTokens then Some(LlmTokensExhausted)
    else if amount.wallMs > remaining.wallMs then Some(WallTimeExhausted)
    else if amount.uses > remaining.maxUses then Some(UsesExhausted)
    else None
  }

  /** Why a charge is refused, if it is. */
  function ChargeError(l: Lease, amount: ResourceUse): (e: Option<BudgetError>)
  {
    if l.revoked then Some(Revoked) else Shortfall(amount, Remaining(l))
  }

  function Charged(l: Lease, amount: ResourceUse): Lease
  {
    if ChargeError(l, amount).Some? then l else l.(consumed := SaturatingAdd(l.consumed, amount))
  }

  function DelegateError(l: Lease, child: Budget): (e: Option<BudgetError>)
  {
    if l.revoked then Some(Revoked)
    else if Shortfall(AsUse(child), Remaining(l)).Some? then Some(DelegationExceedsParent)
    else None
  }

  function Reserved(l: Lease, child: Budget): Lease
  {
    if DelegateError(l, child).Some? then l else l.(consumed := SaturatingAdd(l.consumed, AsUse(child)))
  }

  function Child(l: Lease, id: LeaseId, child: Budget): Lease
  {
    Lease(id, child, ZERO_USE, Some(l.id), false)
  }

  // ---------- why a request is refused ----------

  /** The amount asked does not fit what is left; nothing asked always fits. */
  predicate Exceeds(consumed: int, asked: int, budget: int) { asked > 0 && consumed + asked > budget }

  /** What each refusal of a charge means: the lease is revoked, or it is live and the resource
      named is the first, in the order of the fields, that the exact sum exceeds. */
  predicate ChargeFails(l: Lease, a: ResourceUse, e: BudgetError)
  {
    var net := Exceeds(l.consumed.netBytes, a.netBytes, l.budget.netBytes);
    var files := Exceeds(l.consumed.fileWrites, a.fileWrites, l.budget.fileWrites);
    var tokens := Exceeds(l.consumed.llmTokens, a.llmTokens, l.budget.llmTokens);
    var wall := Exceeds(l.consumed.wallMs, a.wallMs, l.budget.wallMs);
    var uses := Exceeds(l.consumed.uses, a.uses, l.budget.maxUses);
    match e
    case Revoked => l.revoked
    case NetBytesExhausted => !l.revoked && net
    case FileWritesExhausted => !l.revoked && !net && files
    case LlmTokensExhausted => !l.revoked && !net && !files && tokens
    case WallTimeExhausted => !l.revoked && !net && !files && !tokens && wall
    case UsesExhausted => !l.revoked && !net && !files && !tokens && !wall && uses
    case DelegationExceedsParent => false
  }

  /** A charge is refused for exactly the reason that holds, overspent leases included. */
  lemma ChargeRefusedWhy(l: Lease, amount: ResourceUse)
    ensures forall e :: ChargeError(l, amount) == Some(e) <==> ChargeFails(l, amount, e)
  {
  }

  /** Some resource of the child's budget exceeds what the parent has left. */
  predicate TooMuch(l: Lease, child: Budget)
  {
    || Exceeds(l.consumed.netBytes, child.netBytes, l.budget.netBytes)
    || Exceeds(l.consumed.fileWrites, child.fileWrites, l.budget.fileWrites)
    || Exceeds(l.consumed.llmTokens, child.llmTokens, l.budget.llmTokens)
    || Exceeds(l.consumed.wallMs, child.wallMs, l.budget.wallMs)
    || Exceeds(l.consumed.uses, child.maxUses, l.budget.maxUses)
  }

  /** A delegation is refused exactly on a revoked parent, or when some resource is too much;
      otherwise the parent consumes just the child's budget, and the child starts live, unspent
      and with its parent's id. */
  lemma DelegationExact(l: Lease, id: LeaseId, child: Budget)
    ensures DelegateError(l, child) == Some(Revoked) <==> l.revoked
    ensures DelegateError(l, child) == Some(DelegationExceedsParent) <==> !l.revoked && TooMuch(l, child)
    ensures DelegateError(l, child) == None <==> !l.revoked && !TooMuch(l, child)
    ensures DelegateError(l, child).Some? ==> Reserved(l, child) == l
    ensures DelegateError(l, child).None? ==>
      && Reserved(l, child) == l.(consumed := Reserved(l, child).consumed)
      && UseAmount(Reserved(l, child).consumed) == Plus(UseAmount(l.consumed), BudgetAmount(child))
    ensures var c := Child(l, id, child);
      c.id == id && c.budget == child && UseAmount(c.consumed) == NOTHING && c.parent == Some(l.id) && !c.revoked
  {
  }

  /** The lease object itself. */
  class CapabilityLease {
    const id: LeaseId
    const budget: Budget
    const parent: Option<LeaseId>
    var consumed: ResourceUse
    var revoked: bool

    constructor (l: Lease)
      ensures View() == l
    {
      id, budget, parent := l.id, l.budget, l.parent;
      consumed, revoked := l.consumed, l.revoked;
    }

    function View(): Lease
      reads this
    {
      Lease(id, budget, consumed, parent, revoked)
    }

    method TryCharge(amount: ResourceUse) returns (r: Result<(), BudgetError>)
      modifies this
      ensures View() == Charged(old(View()), amount)
      ensures r == match ChargeError(old(View()), amount) case None => Ok(()) case Some(e) => Err(e)
      ensures forall e :: r == Err(e) <==> ChargeFails(old(View()), amount, e)
    {
      ChargeRefusedWhy(View(), amount);
      if revoked {
        return Err(Revoked);
      }
      var remaining := Remaining(View());
      if amount.netBytes > remaining.netBytes {
        return Err(NetBytesExhausted);
      }
      if amount.fileWrites > remaining.fileWrites {
        return Err(FileWritesExhausted);
      }
      if amount.llmTokens > remaining.llmTokens {
        return Err(LlmTokensExhausted);
      }
      if amount.wallMs > remaining.wallMs {
        return Err(WallTimeExhausted);
      }
      if amount.uses > remaining.maxUses {
        return Err(UsesExhausted);
      }
      consumed := SaturatingAdd(consumed, amount);
      return Ok(());
    }

    method Delegate(childId: LeaseId, childBudget: Budget) returns (r: Result<Lease, BudgetError>)
      modifies this
      ensures View() == Reserved(old(View()), childBudget)
      ensures r == match DelegateError(old(View()), childBudget)
        case None => Ok(Child(old(View()), childId, childBudget))
        case Some(e) => Err(e)
    {
      if revoked {
        return Err(Revoked);
      }
      var reservation := AsUse(childBudget);
      var remaining := Remaining(View());
      if reservation.netBytes > remaining.netBytes || reservation.fileWrites > remaining.fileWrites ||
         reservation.llmTokens > remaining.llmTokens || reservation.wallMs > remaining.wallMs ||
         reservation.uses > remaining.maxUses {
        return Err(DelegationExceedsParent);
      }
      consumed := SaturatingAdd(consumed, reservation);
      return Ok(Lease(childId, childBudget, ZERO_USE, Some(id), false));
    }

    /** From here on every charge and every delegation is refused. */
    method Revoke()
      modifies this
      ensures View() == old(View()).(revoked := true)
      ensures forall amount :: ChargeError(View(), amount) == Some(Revoked)
      ensures forall child :: DelegateError(View(), child) == Some(Revoked)
    {
      revoked := true;
    }
  }

  // ---------- exact amounts ----------

  /** Unbounded amounts of the five resources. */
  datatype Amount = Amount(net: int, files: int, tokens: int, wall: int, uses: int)

  const NOTHING := Amount(0, 0, 0, 0, 0)

  function Plus(a: Amount, b: Amount): Amount
  {
    Amount(a.net + b.net, a.files + b.files, a.tokens + b.tokens, a.wall + b.wall, a.uses + b.uses)
  }

  predicate Within(a: Amount, b: Amount)
  {
    a.net <= b.net && a.files <= b.files && a.tokens <= b.tokens && a.wall <= b.wall && a.uses <= b.uses
  }

  function UseAmount(u: ResourceUse): Amount { Amount(u.netBytes, u.fileWrites, u.llmTokens, u.wallMs, u.uses) }

  function BudgetAmount(b: Budget): Amount { Amount(b.netBytes, b.fileWrites, b.llmTokens, b.wallMs, b.maxUses) }

  /** A lease that has not been overspent. */
  predicate Solvent(l: Lease) { Within(UseAmount(l.consumed), BudgetAmount(l.budget)) }

  /** On a solvent lease nothing saturates: a charge is accepted exactly when the lease is
      live and the exact sum stays within budget, and then the sum recorded is exact. */
  lemma ChargeExact(l: Lease, amount: ResourceUse)
    requires Solvent(l)
    ensures Solvent(Charged(l, amount))
    ensures Plus(UseAmount(l.consumed), BudgetAmount(Remaining(l))) == BudgetAmount(l.budget)
    ensures ChargeError(l, amount).None? <==>
      !l.revoked && Within(Plus(UseAmount(l.consumed), UseAmount(amount)), BudgetAmount(l.budget))
    ensures ChargeError(l, amount).None? ==>
      UseAmount(Charged(l, amount).consumed) == Plus(UseAmount(l.consumed), UseAmount(amount))
  {
  }

  // ---------- the lease tree ----------

  datatype LeaseOp =
    | Charge(target: nat, amount: ResourceUse)
    | Delegate(target: nat, childId: LeaseId, childBudget: Budget)
    | Revoke(target: nat)

  /** All leases grown from one root, with what each has been charged directly. */
  datatype Tree = Tree(leases: seq<Lease>, direct: seq<Amount>)

  function Root(id: LeaseId, budget: Budget): Tree { Tree([NewLease(id, budget)], [NOTHING]) }

  /** Refused operations, and operations on a lease that does not exist, change nothing. */
  function Apply(t: Tree, op: LeaseOp): (r: Tree)
    requires |t.direct| == |t.leases|
    ensures |r.direct| == |r.leases|
  {
    if op.target >= |t.leases| then t
    else
      var l := t.leases[op.target];
      match op
      case Charge(i, amount) =>
        if ChargeError(l, amount).Some? then t
        else Tree(t.leases[i := Charged(l, amount)], t.direct[i := Plus(t.direct[i], UseAmount(amount))])
      case Delegate(i, id, budget) =>
        if DelegateError(l, budget).Some? then t
        else Tree(t.leases[i := Reserved(l, budget)] + [Child(l, id, budget)], t.direct + [NOTHING])
      case Revoke(i) => t.(leases := t.leases[i := l.(revoked := true)])
  }

  function Run(t: Tree, ops: seq<LeaseOp>): (r: Tree)
    requires |t.direct| == |t.leases|
    ensures |r.direct| == |r.leases|
    decreases |ops|
  {
    if ops == [] then t else Run(Apply(t, ops[0]), ops[1..])
  }

  function Total(xs: seq<Amount>): Amount
  {
    if xs == [] then NOTHING else Plus(xs[0], Total(xs[1..]))
  }

  function Left(l: Lease): Amount { BudgetAmount(Remaining(l)) }

  function AllLeft(leases: seq<Lease>): (xs: seq<Amount>)
    ensures |xs| == |leases| && forall i :: 0 <= i < |xs| ==> xs[i] == Left(leases[i])
  {
    seq(|leases|, i requires 0 <= i < |leases| => Left(leases[i]))
  }

  predicate AllSolvent(leases: seq<Lease>) { forall i :: 0 <= i < |leases| ==> Solvent(leases[i]) }

  function Minus(a: Amount, b: Amount): Amount
  {
    Amount(a.net - b.net, a.files - b.files, a.tokens - b.tokens, a.wall - b.wall, a.uses - b.uses)
  }

  lemma PlusMinus(a: Amount, b: Amount, c: Amount)
    ensures Plus(a, Plus(b, c)) == Plus(Plus(a, b), c) && Plus(a, b) == Plus(b, a) && Plus(a, NOTHING) == a
    ensures Plus(a, Minus(b, a)) == b
  {
  }

  lemma {:induction false} TotalUpdated(xs: seq<Amount>, i: nat, x: Amount)
    requires i < |xs|
    ensures Total(xs[i := x]) == Plus(Total(xs), Minus(x, xs[i]))
  {
    if i == 0 {
      assert xs[i := x][1..] == xs[1..];
    } else {
      assert xs[i := x][1..] == xs[1..][i - 1 := x];
      TotalUpdated(xs[1..], i - 1, x);
    }
  }

  lemma {:induction false} TotalAppended(xs: seq<Amount>, x: Amount)
    ensures Total(xs + [x]) == Plus(Total(xs), x)
  {
    if xs == [] {
      assert xs + [x] == [x];
    } else {
      assert (xs + [x])[1..] == xs[1..] + [x];
      TotalAppended(xs[1..], x);
    }
  }

  /** Everything the tree accounts for: direct charges, and what is left. */
  function Accounted(t: Tree): Amount { Plus(Total(t.direct), Total(AllLeft(t.leases))) }

  lemma ChargeConserves(t: Tree, i: nat, amount: ResourceUse)
    requires |t.direct| == |t.leases| && AllSolvent(t.leases) && i < |t.leases|
    requires ChargeError(t.leases[i], amount).None?
    ensures Accounted(Apply(t, Charge(i, amount))) == Accounted(t)
  {
    var l := t.leases[i];
    var l' := Charged(l, amount);
    ChargeExact(l, amount);
    ChargeExact(l', amount);
    assert Minus(Left(l'), Left(l)) == Minus(NOTHING, UseAmount(amount));
    assert AllLeft(t.leases[i := l']) == AllLeft(t.leases)[i := Left(l')];
    TotalUpdated(AllLeft(t.leases), i, Left(l'));
    TotalUpdated(t.direct, i, Plus(t.direct[i], UseAmount(amount)));
  }

  lemma DelegateConserves(t: Tree, i: nat, id: LeaseId, budget: Budget)
    requires |t.direct| == |t.leases| && AllSolvent(t.leases) && i < |t.leases|
    requires DelegateError(t.leases[i], budget).None?
    ensures Accounted(Apply(t, Delegate(i, id, budget))) == Accounted(t)
  {
    var l := t.leases[i];
    var l', child := Reserved(l, budget), Child(l, id, budget);
    ChargeExact(l, AsUse(budget));
    ChargeExact(l', ZERO_USE);
    assert Left(child) == BudgetAmount(budget);
    assert Minus(Left(l'), Left(l)) == Minus(NOTHING, BudgetAmount(budget));
    assert AllLeft(t.leases[i := l'] + [child]) == AllLeft(t.leases)[i := Left(l')] + [Left(child)];
    TotalUpdated(AllLeft(t.leases), i, Left(l'));
    TotalAppended(AllLeft(t.leases)[i := Left(l')], Left(child));
    TotalAppended(t.direct, NOTHING);
  }

  /** One operation keeps every lease solvent and moves no resource in or out of the tree. */
  lemma ApplyConserves(t: Tree, op: LeaseOp)
    requires |t.direct| == |t.leases| && AllSolvent(t.leases)
    ensures AllSolvent(Apply(t, op).leases) && Accounted(Apply(t, op)) == Accounted(t)
  {
    if op.target < |t.leases| {
      var i, l := op.target, t.leases[op.target];
      match op
      case Charge(_, amount) =>
        ChargeExact(l, amount);
        if ChargeError(l, amount).None? {
          ChargeConserves(t, i, amount);
        }
      case Delegate(_, id, budget) =>
        ChargeExact(l, AsUse(budget));
        if DelegateError(l, budget).None? {
          DelegateConserves(t, i, id, budget);
        }
      case Revoke(_) =>
        assert AllLeft(Apply(t, op).leases) == AllLeft(t.leases);
    }
  }

  lemma {:induction false} RunConserves(t: Tree, ops: seq<LeaseOp>)
    requires |t.direct| == |t.leases| && AllSolvent(t.leases)
    ensures AllSolvent(Run(t, ops).leases) && Accounted(Run(t, ops)) == Accounted(t)
    decreases |ops|
  {
    if ops != [] {
      ApplyConserves(t, ops[0]);
      RunConserves(Apply(t, ops[0]), ops[1..]);
    }
  }

  /** Conservation: after any run from one root, what was charged directly to all leases plus
      what all leases still have left is the root budget, resource by resource; and no lease
      is ever overspent. */
  lemma Conservation(id: LeaseId, budget: Budget, ops: seq<LeaseOp>)
    ensures var t := Run(Root(id, budget), ops);
      AllSolvent(t.leases) && Plus(Total(t.direct), Total(AllLeft(t.leases))) == BudgetAmount(budget)
  {
    RootSolvent(id, budget);
    RootAccounted(id, budget);
    RunConserves(Root(id, budget), ops);
  }

  lemma RootSolvent(id: LeaseId, budget: Budget)
    ensures AllSolvent(Root(id, budget).leases)
  {
    FreshLease(id, budget);
  }

  lemma RootAccounted(id: LeaseId, budget: Budget)
    ensures Accounted(Root(id, budget)) == BudgetAmount(budget)
  {
    RootParts(id, budget);
    FreshLease(id, budget);
    StartTotal(BudgetAmount(budget));
  }

  lemma RootParts(id: LeaseId, budget: Budget)
    ensures Accounted(Root(id, budget)) == Plus(Total([NOTHING]), Total([Left(NewLease(id, budget))]))
  {
    assert AllLeft([NewLease(id, budget)]) == [Left(NewLease(id, budget))];
  }

  lemma StartTotal(x: Amount)
    ensures Plus(Total([NOTHING]), Total([x])) == x
  {
    SingleTotal(x);
    SingleTotal(NOTHING);
  }

  lemma SingleTotal(x: Amount)
    ensures Total([x]) == x
  {
    assert [x][1..] == [];
  }

  lemma FreshLease(id: LeaseId, budget: Budget)
    ensures Solvent(NewLease(id, budget)) && Left(NewLease(id, budget)) == BudgetAmount(budget)
  {
  }

  /** Nothing in any later run spends from a revoked lease, reserves from it or revives it. */
  lemma {:induction false} RevokedIsFrozen(t: Tree, ops: seq<LeaseOp>, i: nat)
    requires |t.direct| == |t.leases| && i < |t.leases| && t.leases[i].revoked
    ensures var r := Run(t, ops); i < |r.leases| && r.leases[i] == t.leases[i] && r.direct[i] == t.direct[i]
    decreases |ops|
  {
    if ops != [] {
      RevokedStays(t, ops[0], i);
      RevokedIsFrozen(Apply(t, ops[0]), ops[1..], i);
    }
  }

  lemma RevokedStays(t: Tree, op: LeaseOp, i: nat)
    requires |t.direct| == |t.leases| && i < |t.leases| && t.leases[i].revoked
    ensures var r := Apply(t, op); i < |r.leases| && r.leases[i] == t.leases[i] && r.direct[i] == t.direct[i]
  {
  }

  // ---------- what does not hold ----------

  /** Consumed plus remaining, lease by lease. */
  function Allocations(leases: seq<Lease>): (xs: seq<Amount>)
    ensures |xs| == |leases| && forall i :: 0 <= i < |xs| ==> xs[i] == Plus(UseAmount(leases[i].consumed), Left(leases[i]))
  {
    seq(|leases|, i requires 0 <= i < |leases| => Plus(UseAmount(leases[i].consumed), Left(leases[i])))
  }

  predicate AllNothing(xs: seq<Amount>) { forall i :: 0 <= i < |xs| ==> xs[i] == NOTHING }

  predicate NoneNegative(xs: seq<Amount>) { forall i :: 0 <= i < |xs| ==> Within(NOTHING, xs[i]) }

  lemma HeadAndTail(xs: seq<Amount>)
    requires xs != []
    ensures AllNothing(xs) <==> xs[0] == NOTHING && AllNothing(xs[1..])
    ensures NoneNegative(xs) <==> Within(NOTHING, xs[0]) && NoneNegative(xs[1..])
  {
    assert forall i :: 0 < i < |xs| ==> xs[i] == xs[1..][i - 1];
  }

  lemma NothingPlus(a: Amount, b: Amount)
    requires Within(NOTHING, a) && Within(NOTHING, b)
    ensures Within(NOTHING, Plus(a, b))
    ensures Within(Plus(a, b), NOTHING) <==> a == NOTHING && b == NOTHING
    ensures Within(b, NOTHING) <==> b == NOTHING
  {
  }

  lemma {:induction false} NothingTotal(xs: seq<Amount>)
    requires NoneNegative(xs)
    ensures Within(NOTHING, Total(xs)) && (Within(Total(xs), NOTHING) <==> AllNothing(xs))
  {
    if xs != [] {
      HeadAndTail(xs);
      NothingTotal(xs[1..]);
      NothingPlus(xs[0], Total(xs[1..]));
    }
  }

  function BudgetsOf(leases: seq<Lease>): (xs: seq<Amount>)
    ensures |xs| == |leases| && forall i :: 0 <= i < |xs| ==> xs[i] == BudgetAmount(leases[i].budget)
  {
    seq(|leases|, i requires 0 <= i < |leases| => BudgetAmount(leases[i].budget))
  }

  lemma AllocationsAreBudgets(leases: seq<Lease>)
    requires AllSolvent(leases)
    ensures Allocations(leases) == BudgetsOf(leases)
  {
    forall i | 0 <= i < |leases| ensures Allocations(leases)[i] == BudgetsOf(leases)[i] {
      ChargeExact(leases[i], ZERO_USE);
    }
  }

  lemma TotalWithinFirst(xs: seq<Amount>)
    requires xs != [] && NoneNegative(xs[1..])
    ensures Within(Total(xs), xs[0]) <==> AllNothing(xs[1..])
  {
    NothingTotal(xs[1..]);
    var rest := Total(xs[1..]);
    assert Total(xs) == Plus(xs[0], rest);
    assert Within(Plus(xs[0], rest), xs[0]) <==> Within(rest, NOTHING);
  }

  lemma BudgetsNotNegative(leases: seq<Lease>)
    ensures NoneNegative(BudgetsOf(leases))
  {
  }

  /** An accepted delegation: the position of the parent, and the child's budget. */
  datatype Grant = Grant(parent: nat, budget: Budget)

  function Granted(t: Tree, op: LeaseOp): seq<Grant>
  {
    if op.Delegate? && op.target < |t.leases| && DelegateError(t.leases[op.target], op.childBudget).None?
    then [Grant(op.target, op.childBudget)]
    else []
  }

  /** The accepted delegations of a run, in order: number k makes the lease at position k + 1
      of a tree grown from one root. */
  function Grants(t: Tree, ops: seq<LeaseOp>): seq<Grant>
    requires |t.direct| == |t.leases|
    decreases |ops|
  {
    if ops == [] then [] else Granted(t, ops[0]) + Grants(Apply(t, ops[0]), ops[1..])
  }

  lemma ApplyGrants(t: Tree, op: LeaseOp)
    requires |t.direct| == |t.leases|
    ensures BudgetsOf(Apply(t, op).leases) == BudgetsOf(t.leases) + GrantAmounts(Granted(t, op))
  {
    var r := Apply(t, op).leases;
    assert |r| == |t.leases| + |Granted(t, op)|;
    forall i | 0 <= i < |t.leases| ensures r[i].budget == t.leases[i].budget {}
  }

  function GrantAmounts(g: seq<Grant>): (xs: seq<Amount>)
    ensures |xs| == |g| && forall k :: 0 <= k < |g| ==> xs[k] == BudgetAmount(g[k].budget)
  {
    seq(|g|, k requires 0 <= k < |g| => BudgetAmount(g[k].budget))
  }

  lemma GrantAmountsConcat(a: seq<Grant>, b: seq<Grant>, xs: seq<Amount>)
    ensures xs + GrantAmounts(a + b) == (xs + GrantAmounts(a)) + GrantAmounts(b)
    ensures xs + GrantAmounts([]) == xs
  {
  }

  lemma {:induction false} RunGrants(t: Tree, ops: seq<LeaseOp>)
    requires |t.direct| == |t.leases|
    ensures BudgetsOf(Run(t, ops).leases) == BudgetsOf(t.leases) + GrantAmounts(Grants(t, ops))
    decreases |ops|
  {
    var xs := BudgetsOf(t.leases);
    if ops == [] {
      GrantAmountsConcat([], [], xs);
    } else {
      ApplyGrants(t, ops[0]);
      RunGrants(Apply(t, ops[0]), ops[1..]);
      GrantAmountsConcat(Granted(t, ops[0]), Grants(Apply(t, ops[0]), ops[1..]), xs);
    }
  }

  /** The leases a run leaves: the root's budget, then one budget per accepted delegation. */
  lemma RootGrants(id: LeaseId, budget: Budget, ops: seq<LeaseOp>)
    ensures var leases, g := Run(Root(id, budget), ops).leases, Grants(Root(id, budget), ops);
      && |leases| == 1 + |g| && AllSolvent(leases)
      && BudgetsOf(leases)[0] == BudgetAmount(budget)
      && forall k :: 1 <= k < |leases| ==> BudgetsOf(leases)[k] == BudgetAmount(g[k - 1].budget)
  {
    Conservation(id, budget, ops);
    RunGrants(Root(id, budget), ops);
    assert BudgetsOf(Root(id, budget).leases) == [BudgetAmount(budget)];
  }

  /** Positions from the root down, each the child of the one before. */
  predicate IsPath(g: seq<Grant>, path: seq<nat>)
  {
    path != [] && path[0] == 0 && forall k :: 1 <= k < |path| ==> 1 <= path[k] <= |g| && g[path[k] - 1].parent == path[k - 1]
  }

  function Along(leases: seq<Lease>, path: seq<nat>): (ls: seq<Lease>)
    requires forall k :: 0 <= k < |path| ==> path[k] < |leases|
    ensures |ls| == |path| && forall k :: 0 <= k < |path| ==> ls[k] == leases[path[k]]
  {
    seq(|path|, k requires 0 <= k < |path| => leases[path[k]])
  }

  /** Every delegation on the way down the path granted nothing. */
  predicate EmptyAlong(g: seq<Grant>, path: seq<nat>)
    requires IsPath(g, path)
  {
    forall k :: 1 <= k < |path| ==> BudgetAmount(g[path[k] - 1].budget) == NOTHING
  }

  lemma BudgetsAlong(leases: seq<Lease>, g: seq<Grant>, path: seq<nat>, budget: Amount)
    requires |leases| == 1 + |g| && BudgetsOf(leases)[0] == budget && IsPath(g, path)
    requires forall k :: 1 <= k < |leases| ==> BudgetsOf(leases)[k] == BudgetAmount(g[k - 1].budget)
    ensures var xs := BudgetsOf(Along(leases, path));
      xs != [] && xs[0] == budget && (AllNothing(xs[1..]) <==> EmptyAlong(g, path))
  {
    var xs := BudgetsOf(Along(leases, path));
    forall k | 0 <= k < |path| ensures xs[k] == BudgetsOf(leases)[path[k]] {}
    forall k | 1 <= k < |path| ensures xs[1..][k - 1] == BudgetAmount(g[path[k] - 1].budget) {}
    assert forall i :: 0 <= i < |xs| - 1 ==> xs[1..][i] == BudgetAmount(g[path[i + 1] - 1].budget);
  }

  /** Down any path from the root, the sum of consumed plus remaining counts every reservation
      twice: it stays within the root budget exactly when every delegation on the way granted
      an empty budget. */
  lemma PathOvercountIff(id: LeaseId, budget: Budget, ops: seq<LeaseOp>, path: seq<nat>)
    requires IsPath(Grants(Root(id, budget), ops), path)
    ensures var leases, g := Run(Root(id, budget), ops).leases, Grants(Root(id, budget), ops);
      && |leases| == 1 + |g|
      && (Within(Total(Allocations(Along(leases, path))), BudgetAmount(budget)) <==> EmptyAlong(g, path))
  {
    var leases, g := Run(Root(id, budget), ops).leases, Grants(Root(id, budget), ops);
    RootGrants(id, budget, ops);
    BudgetsAlong(leases, g, path, BudgetAmount(budget));
    AllocationsAreBudgets(Along(leases, path));
    BudgetsNotNegative(Along(leases, path));
    TotalWithinFirst(BudgetsOf(Along(leases, path)));
  }

  /** The same over all leases of the tree: exactly when every delegation granted nothing. */
  lemma OvercountIff(id: LeaseId, budget: Budget, ops: seq<LeaseOp>)
    ensures Within(Total(Allocations(Run(Root(id, budget), ops).leases)), BudgetAmount(budget)) <==>
      AllNothing(GrantAmounts(Grants(Root(id, budget), ops)))
  {
    var leases, g := Run(Root(id, budget), ops).leases, Grants(Root(id, budget), ops);
    RootGrants(id, budget, ops);
    AllocationsAreBudgets(leases);
    BudgetsNotNegative(leases);
    assert BudgetsOf(leases)[1..] == GrantAmounts(g);
    TotalWithinFirst(BudgetsOf(leases));
  }

  function NetOnly(n: u64): Budget { Budget(n, 0, 0, 0, 0) }

  lemma RunTwo(t: Tree, a: LeaseOp, b: LeaseOp)
    requires |t.direct| == |t.leases|
    ensures Run(t, [a, b]) == Apply(Apply(t, a), b)
    ensures Grants(t, [a, b]) == Granted(t, a) + Granted(Apply(t, a), b)
  {
    var u := Apply(t, a);
    assert [a, b][1..] == [b] && [b][1..] == [];
    assert Run(u, [b]) == Run(Apply(u, b), []);
    assert Grants(u, [b]) == Granted(u, b) + Grants(Apply(u, b), []);
  }

  lemma ThreeTotal(xs: seq<Amount>)
    requires |xs| == 3
    ensures Total(xs) == Plus(xs[0], Plus(xs[1], xs[2]))
  {
    assert xs[1..][1..] == xs[2..];
    assert xs[2..] == [xs[2]];
    SingleTotal(xs[2]);
  }

  /** A child of 500 bytes, and its child of 200. */
  function ChainOps(child: LeaseId, grandchild: LeaseId): seq<LeaseOp>
  {
    [Delegate(0, child, NetOnly(500)), Delegate(1, grandchild, NetOnly(200))]
  }

  lemma ChainGrants(id: LeaseId, child: LeaseId, grandchild: LeaseId)
    ensures Grants(Root(id, NetOnly(1000)), ChainOps(child, grandchild)) == [Grant(0, NetOnly(500)), Grant(1, NetOnly(200))]
  {
    var t := Root(id, NetOnly(1000));
    var u := Apply(t, Delegate(0, child, NetOnly(500)));
    assert u.leases == [Reserved(t.leases[0], NetOnly(500)), Child(t.leases[0], child, NetOnly(500))];
    RunTwo(t, Delegate(0, child, NetOnly(500)), Delegate(1, grandchild, NetOnly(200)));
  }

  lemma ChainTotal(leases: seq<Lease>, g: seq<Grant>)
    requires g == [Grant(0, NetOnly(500)), Grant(1, NetOnly(200))] && |leases| == 3 && AllSolvent(leases)
    requires BudgetsOf(leases) == [Amount(1000, 0, 0, 0, 0), Amount(500, 0, 0, 0, 0), Amount(200, 0, 0, 0, 0)]
    ensures IsPath(g, [0, 1, 2]) && Total(Allocations(Along(leases, [0, 1, 2]))) == Amount(1700, 0, 0, 0, 0)
  {
    AllocationsAreBudgets(leases);
    assert Along(leases, [0, 1, 2]) == leases;
    ThreeTotal(Allocations(leases));
  }

  /** The promise fails on the plainest chain: a root of 1000 bytes grants 500, of which the
      child grants 200, and down this path consumed plus remaining sum to 1700 bytes. */
  lemma ChainOvercounts(id: LeaseId, child: LeaseId, grandchild: LeaseId)
    ensures var root, ops, path := Root(id, NetOnly(1000)), ChainOps(child, grandchild), [0, 1, 2];
      && |Run(root, ops).leases| == 3 && IsPath(Grants(root, ops), path)
      && Total(Allocations(Along(Run(root, ops).leases, path))) == Amount(1700, 0, 0, 0, 0)
      && !Within(Total(Allocations(Along(Run(root, ops).leases, path))), BudgetAmount(NetOnly(1000)))
  {
    var root, ops := Root(id, NetOnly(1000)), ChainOps(child, grandchild);
    ChainGrants(id, child, grandchild);
    RootGrants(id, NetOnly(1000), ops);
    var xs := BudgetsOf(Run(root, ops).leases);
    assert xs == [xs[0], xs[1], xs[2]];
    ChainTotal(Run(root, ops).leases, Grants(root, ops));
  }
}
