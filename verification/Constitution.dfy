/** Operator rules, and how they override a proposed decision. */
module Constitution {
  import opened Wrappers
  import opened Receipts
  import opened Texts

  datatype RuleVerdict = Deny | RequireApproval
  datatype MatchClause = MatchClause(kind: Option<string>, targetContains: Option<string>)
  datatype Rule = Rule(id: string, verdict: RuleVerdict, clause: MatchClause)
  datatype Verdict = Verdict(matchedRules: seq<RuleRef>, overrideDecision: Option<Decision>)

  /** All present conditions hold; an empty clause matches every action. */
  predicate Matches(m: MatchClause, a: Action)
  {
    (m.kind.Some? ==> a.kind == m.kind.value) && (m.targetContains.Some? ==> Contains(a.target, m.targetContains.value))
  }

  predicate SomeRuleSays(rules: seq<Rule>, v: RuleVerdict, a: Action)
  {
    exists i :: 0 <= i < |rules| && rules[i].verdict == v && Matches(rules[i].clause, a)
  }

  lemma PrefixSays(rules: seq<Rule>, i: nat, v: RuleVerdict, a: Action)
    requires i < |rules|
    ensures SomeRuleSays(rules[..i + 1], v, a) <==>
      SomeRuleSays(rules[..i], v, a) || (rules[i].verdict == v && Matches(rules[i].clause, a))
  {
    if SomeRuleSays(rules[..i], v, a) {
      var j :| 0 <= j < i && rules[..i][j].verdict == v && Matches(rules[..i][j].clause, a);
      assert rules[..i + 1][j] == rules[..i][j];
    }
    if rules[i].verdict == v && Matches(rules[i].clause, a) {
      assert rules[..i + 1][i] == rules[i];
    }
    if SomeRuleSays(rules[..i + 1], v, a) && !SomeRuleSays(rules[..i], v, a) {
      var j :| 0 <= j < i + 1 && rules[..i + 1][j].verdict == v && Matches(rules[..i + 1][j].clause, a);
      if j < i {
        assert rules[..i][j] == rules[..i + 1][j];
      }
    }
  }

  /** The ids of the rules that match, in document order. */
  function MatchedRules(rules: seq<Rule>, a: Action): (rs: seq<RuleRef>)
    ensures forall i :: 0 <= i < |rs| ==> rs[i].matched
    ensures rs == [] <==> !SomeRuleSays(rules, Deny, a) && !SomeRuleSays(rules, RequireApproval, a)
  {
    if rules == [] then []
    else
      var last := |rules| - 1;
      var init := rules[..last];
      assert rules[..last + 1] == rules;
      PrefixSays(rules, last, Deny, a);
      PrefixSays(rules, last, RequireApproval, a);
      MatchedRules(init, a) + (if Matches(rules[last].clause, a) then [RuleRef(rules[last].id, true)] else [])
  }

  /** Positions in ascending order. */
  predicate AscendingPositions(ps: seq<nat>) { forall i, j :: 0 <= i < j < |ps| ==> ps[i] < ps[j] }

  /** The recorded ids are those of exactly the matching rules, each once, in document order. */
  lemma {:induction false} MatchedInOrder(rules: seq<Rule>, a: Action) returns (at: seq<nat>)
    ensures |at| == |MatchedRules(rules, a)| && AscendingPositions(at)
    ensures forall k :: 0 <= k < |at| ==>
      at[k] < |rules| && Matches(rules[at[k]].clause, a) && MatchedRules(rules, a)[k].id == rules[at[k]].id
    ensures forall i :: 0 <= i < |rules| && Matches(rules[i].clause, a) ==> i in at
  {
    at := [];
    if rules != [] {
      var last := |rules| - 1;
      var init := rules[..last];
      at := MatchedInOrder(init, a);
      assert forall i :: 0 <= i < last ==> init[i] == rules[i];
      if Matches(rules[last].clause, a) {
        at := at + [last];
      }
    }
  }

  /** Deny wins over RequireApproval, whatever the order of the rules. */
  function Evaluate(rules: seq<Rule>, a: Action): (v: Verdict)
    ensures v.overrideDecision.Some? <==> v.matchedRules != []
  {
    Verdict(MatchedRules(rules, a),
            if SomeRuleSays(rules, Deny, a) then Some(Denied)
            else if SomeRuleSays(rules, RequireApproval, a) then Some(Pending)
            else None)
  }

  // ---------- what a rule fires on ----------

  /** The rule's kind is absent or that of the action, and its target text is absent or occurs
      at some position of the action's target. */
  ghost predicate FiresOn(r: Rule, a: Action)
  {
    && (match r.clause.kind case None => true case Some(k) => k == a.kind)
    && (match r.clause.targetContains
        case None => true
        case Some(t) => exists i: nat :: TextAt(a.target, t, i))
  }

  /** The text stands at position `i`, character by character. */
  predicate TextAt(s: string, t: string, i: nat)
  {
    i + |t| <= |s| && forall k :: 0 <= k < |t| ==> s[i + k] == t[k]
  }

  /** The rule names another kind, or a text that occurs at no position of the target. */
  ghost predicate Excluded(r: Rule, a: Action)
  {
    || (r.clause.kind.Some? && r.clause.kind.value != a.kind)
    || (r.clause.targetContains.Some? && forall i: nat :: !TextAt(a.target, r.clause.targetContains.value, i))
  }

  lemma FiresIff(r: Rule, a: Action)
    ensures Matches(r.clause, a) <==> FiresOn(r, a)
    ensures Excluded(r, a) <==> !FiresOn(r, a)
  {
    if r.clause.targetContains.Some? {
      OccursIff(a.target, r.clause.targetContains.value);
    }
  }

  lemma OccursIff(s: string, t: string)
    ensures Contains(s, t) <==> exists i: nat :: TextAt(s, t, i)
  {
    if i: nat :| TextAt(s, t, i) {
      assert s[i..i + |t|] == t;
      assert OccursAt(s, t, i);
    }
    if Contains(s, t) {
      var i: nat :| i <= |s| && OccursAt(s, t, i);
      assert TextAt(s, t, i);
    }
  }

  ghost predicate SomeFires(rules: seq<Rule>, v: RuleVerdict, a: Action)
  {
    exists i :: 0 <= i < |rules| && rules[i].verdict == v && FiresOn(rules[i], a)
  }

  lemma SaysIff(rules: seq<Rule>, v: RuleVerdict, a: Action)
    ensures SomeRuleSays(rules, v, a) <==> SomeFires(rules, v, a)
  {
    forall i | 0 <= i < |rules| ensures Matches(rules[i].clause, a) <==> FiresOn(rules[i], a) {
      FiresIff(rules[i], a);
    }
  }

  /** What the evaluator decides, in kinds and target texts. */
  lemma VerdictMeans(rules: seq<Rule>, a: Action)
    ensures var v := Evaluate(rules, a);
      && (v.overrideDecision == Some(Denied) <==> SomeFires(rules, Deny, a))
      && (v.overrideDecision == Some(Pending) <==> !SomeFires(rules, Deny, a) && SomeFires(rules, RequireApproval, a))
      && (v.overrideDecision == None <==> !SomeFires(rules, Deny, a) && !SomeFires(rules, RequireApproval, a))
      && (v.overrideDecision == None <==> v.matchedRules == [])
  {
    SaysIff(rules, Deny, a);
    SaysIff(rules, RequireApproval, a);
  }

  /** Rules that are all excluded say nothing: without a Deny rule that fires nothing is denied,
      and without any rule that fires there is no override and no recorded id. */
  lemma ExcludedRulesAreSilent(rules: seq<Rule>, a: Action)
    ensures var v := Evaluate(rules, a);
      && ((forall r :: r in rules && r.verdict == Deny ==> Excluded(r, a)) ==> v.overrideDecision != Some(Denied))
      && ((forall r :: r in rules ==> Excluded(r, a)) ==> v.overrideDecision == None && v.matchedRules == [])
  {
    VerdictMeans(rules, a);
    forall r | r in rules ensures Excluded(r, a) <==> !FiresOn(r, a) {
      FiresIff(r, a);
    }
    assert forall i :: 0 <= i < |rules| ==> rules[i] in rules;
  }

  /** The recorded ids are those of exactly the rules that fire, each once, in document order. */
  lemma RecordedAreFiring(rules: seq<Rule>, a: Action) returns (at: seq<nat>)
    ensures |at| == |Evaluate(rules, a).matchedRules| && AscendingPositions(at)
    ensures forall k :: 0 <= k < |at| ==>
      at[k] < |rules| && FiresOn(rules[at[k]], a) && Evaluate(rules, a).matchedRules[k] == RuleRef(rules[at[k]].id, true)
    ensures forall i :: 0 <= i < |rules| && FiresOn(rules[i], a) ==> i in at
  {
    at := MatchedInOrder(rules, a);
    forall i | 0 <= i < |rules| ensures Matches(rules[i].clause, a) <==> FiresOn(rules[i], a) {
      FiresIff(rules[i], a);
    }
  }

  /** The evaluator: one pass over the rules with two flags. */
  method EvaluateRules(rules: seq<Rule>, a: Action) returns (v: Verdict)
    ensures v == Evaluate(rules, a)
    ensures v.overrideDecision ==
      if SomeFires(rules, Deny, a) then Some(Denied) else if SomeFires(rules, RequireApproval, a) then Some(Pending) else None
  {
    VerdictMeans(rules, a);
    var matched: seq<RuleRef> := [];
    var forceDeny, requireApproval := false, false;
    var i := 0;
    while i < |rules|
      invariant 0 <= i <= |rules|
      invariant matched == MatchedRules(rules[..i], a)
      invariant forceDeny == SomeRuleSays(rules[..i], Deny, a)
      invariant requireApproval == SomeRuleSays(rules[..i], RequireApproval, a)
    {
      PrefixSays(rules, i, Deny, a);
      PrefixSays(rules, i, RequireApproval, a);
      assert rules[..i + 1][..i] == rules[..i];
      if Matches(rules[i].clause, a) {
        matched := matched + [RuleRef(rules[i].id, true)];
        match rules[i].verdict
        case Deny => forceDeny := true;
        case RequireApproval => requireApproval := true;
      }
      i := i + 1;
    }
    assert rules[..i] == rules;
    v := Verdict(matched, if forceDeny then Some(Denied) else if requireApproval then Some(Pending) else None);
  }
}
