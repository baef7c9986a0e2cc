/** Whole runs of the kernel: the chain they build, why every log accepts it, what the head
    of a chain commits to, and why Deny is final. */
module KernelRuns {
  import opened Wrappers
  import opened Receipts
  import opened Crypto
  import opened Leaf
  import opened Constitution
  import opened Kernel
  import opened Log

  datatype Timed = Timed(event: Event, now: string)

  /** An accepted event and the receipt it minted. */
  datatype Record = Record(event: Event, receipt: Receipt)

  function StateAfter(cfg: Config, st: KernelState, t: Timed): KernelState
  {
    Handled(cfg, st, t.event, t.now).0
  }

  function RecordOf(cfg: Config, st: KernelState, t: Timed): (rs: seq<Record>)
    ensures |rs| <= 1
  {
    match Handled(cfg, st, t.event, t.now).1
    case Ok(outcome) => [Record(t.event, outcome.receipt)]
    case Err(_) => []
  }

  /** The records of a run, rejected events leaving none. */
  function Records(cfg: Config, st: KernelState, ts: seq<Timed>): (rs: seq<Record>)
    ensures |rs| <= |ts|
    decreases |ts|
  {
    if ts == [] then [] else RecordOf(cfg, st, ts[0]) + Records(cfg, StateAfter(cfg, st, ts[0]), ts[1..])
  }

  function FinalState(cfg: Config, st: KernelState, ts: seq<Timed>): KernelState
    decreases |ts|
  {
    if ts == [] then st else FinalState(cfg, StateAfter(cfg, st, ts[0]), ts[1..])
  }

  function ReceiptsOf(rs: seq<Record>): (r: seq<Receipt>)
    ensures |r| == |rs| && forall i :: 0 <= i < |rs| ==> r[i] == rs[i].receipt
  {
    seq(|rs|, i requires 0 <= i < |rs| => rs[i].receipt)
  }

  // ---------- chains ----------

  /** The state a receipt at position `n` of a chain from `start` is minted in. */
  function Before(start: KernelState, rs: seq<Receipt>, n: nat): (nat, Digest)
    requires n <= |rs|
  {
    (start.sequence + n, if n == 0 then start.prevHash else LeafOf(rs[n - 1]))
  }

  predicate LinkedAt(start: KernelState, rs: seq<Receipt>, i: nat)
    requires i < |rs|
  {
    (Seq(rs[i]), Prev(rs[i])) == Before(start, rs, i)
  }

  /** Receipts numbered and linked from `start` on. */
  predicate Chained(start: KernelState, rs: seq<Receipt>)
  {
    forall i :: 0 <= i < |rs| ==> LinkedAt(start, rs, i)
  }

  /** A receipt this signer could have minted. */
  predicate Genuine(c: Crypto, r: Receipt)
  {
    r.version == RECEIPT_FORMAT_VERSION && r.issuer == c.publicKey && c.verify(r) && LeafOf(r) == c.leafHash(Fields(r))
  }

  predicate AllGenuine(c: Crypto, rs: seq<Receipt>) { forall i :: 0 <= i < |rs| ==> Genuine(c, rs[i]) }

  /** The state that continues `start` after `rs`. */
  predicate Continues(start: KernelState, rs: seq<Receipt>, end: KernelState)
  {
    (end.sequence, end.prevHash) == Before(start, rs, |rs|)
  }

  /** One accepted event mints a genuine receipt at the current position and moves the state
      just past it; a rejected event leaves the state alone. */
  lemma StepChained(cfg: Config, st: KernelState, t: Timed)
    requires SignerContract(cfg.crypto) && st.sequence < U64_MAX
    ensures var rs := ReceiptsOf(RecordOf(cfg, st, t));
      Chained(st, rs) && AllGenuine(cfg.crypto, rs) && Continues(st, rs, StateAfter(cfg, st, t))
    ensures Decide(cfg, t.event).Err? ==> StateAfter(cfg, st, t) == st
    ensures Decide(cfg, t.event).Ok? ==> var d := Decide(cfg, t.event).value;
      |RecordOf(cfg, st, t)| == 1 && RecordOf(cfg, st, t)[0].receipt.body == MintBody(cfg, st, t.now, d)
  {
    if Decide(cfg, t.event).Ok? {
      var d := Decide(cfg, t.event).value;
      var b := MintBody(cfg, st, t.now, d);
      var r := cfg.crypto.sign(b);
      assert r.body == b && r.issuer == cfg.crypto.publicKey && r.version == RECEIPT_FORMAT_VERSION && cfg.crypto.verify(r);
      assert Fields(r) == LeafFields(st.sequence, t.now, d.action, d.decision, st.prevHash);
      assert RecordOf(cfg, st, t) == [Record(t.event, r)];
      assert Genuine(cfg.crypto, r);
    }
  }

  lemma ChainedConcat(start: KernelState, a: seq<Receipt>, mid: KernelState, b: seq<Receipt>, end: KernelState)
    requires Chained(start, a) && Continues(start, a, mid) && Chained(mid, b) && Continues(mid, b, end)
    ensures Chained(start, a + b) && Continues(start, a + b, end)
  {
    forall i | 0 <= i < |a + b| ensures LinkedAt(start, a + b, i) {
      if i < |a| {
        assert LinkedAt(start, a, i);
      } else {
        assert LinkedAt(mid, b, i - |a|);
      }
    }
  }

  lemma ReceiptsOfConcat(a: seq<Record>, b: seq<Record>)
    ensures ReceiptsOf(a + b) == ReceiptsOf(a) + ReceiptsOf(b)
  {
  }

  lemma GenuineConcat(c: Crypto, a: seq<Receipt>, b: seq<Receipt>)
    requires AllGenuine(c, a) && AllGenuine(c, b)
    ensures AllGenuine(c, a + b)
  {
  }

  lemma {:induction false} RunChained(cfg: Config, st: KernelState, ts: seq<Timed>)
    requires SignerContract(cfg.crypto) && st.sequence + |ts| <= U64_MAX
    ensures var rs := ReceiptsOf(Records(cfg, st, ts));
      Chained(st, rs) && AllGenuine(cfg.crypto, rs) && Continues(st, rs, FinalState(cfg, st, ts))
    decreases |ts|
  {
    if ts != [] {
      var st' := StateAfter(cfg, st, ts[0]);
      StepChained(cfg, st, ts[0]);
      RunChained(cfg, st', ts[1..]);
      var a, b := RecordOf(cfg, st, ts[0]), Records(cfg, st', ts[1..]);
      ChainedConcat(st, ReceiptsOf(a), st', ReceiptsOf(b), FinalState(cfg, st', ts[1..]));
      GenuineConcat(cfg.crypto, ReceiptsOf(a), ReceiptsOf(b));
      ReceiptsOfConcat(a, b);
    }
  }

  // ---------- every log accepts it ----------

  lemma LinkedToHead(rs: seq<Receipt>, i: nat)
    requires Chained(Genesis(), rs) && i < |rs|
    ensures Seq(rs[i]) == i && Prev(rs[i]) == Head(rs[..i])
  {
    assert LinkedAt(Genesis(), rs, i);
    if i > 0 {
      assert rs[..i][i - 1] == rs[i - 1];
    }
  }

  lemma ChainedIsValid(c: Crypto, rs: seq<Receipt>)
    requires Chained(Genesis(), rs) && AllGenuine(c, rs)
    ensures ValidChain(c, rs) && Pinned(c.publicKey, rs)
  {
    forall i | 0 <= i < |rs| ensures GoodAt(c, rs, i) {
      assert Genuine(c, rs[i]);
      LinkedToHead(rs, i);
    }
  }

  /** Every run from genesis, rejected events mixed in, mints receipts that a log pinned to
      the kernel's key accepts in order and whose walk finds no fault.  The one conceivable
      refusal, a duplicate id, needs two different bodies with one content id: sequence
      numbers keep the bodies apart. */
  lemma RunAccepted(cfg: Config, ts: seq<Timed>, i: nat)
    requires SignerContract(cfg.crypto) && |ts| <= U64_MAX
    requires i < |Records(cfg, Genesis(), ts)|
    ensures var c, rs := cfg.crypto, ReceiptsOf(Records(cfg, Genesis(), ts));
      && ValidChain(c, rs)
      && (AppendCheck(c, c.publicKey, rs[..i], rs[i]).None? ||
          exists j :: 0 <= j < i && IdClash(c, rs[j].body, rs[i].body))
  {
    var c, rs := cfg.crypto, ReceiptsOf(Records(cfg, Genesis(), ts));
    RunChained(cfg, Genesis(), ts);
    ChainedIsValid(c, rs);
    assert GoodAt(c, rs, i) && Genuine(c, rs[i]);
    if HasId(c, rs[..i], ContentId(c, rs[i])) {
      var j :| 0 <= j < i && ContentId(c, rs[..i][j]) == ContentId(c, rs[i]);
      LinkedToHead(rs, i);
      LinkedToHead(rs, j);
      assert IdClash(c, rs[j].body, rs[i].body);
    }
  }

  /** With the concrete services a refusal exhibits a BLAKE3 collision. */
  lemma ConcreteRunAccepted(p: Primitives, keyId: Option<string>, rules: seq<Rule>, ts: seq<Timed>, i: nat)
    requires Correct(p) && |ts| <= U64_MAX
    requires i < |Records(Config(Instance(p), keyId, rules), Genesis(), ts)|
    ensures var c, rs := Instance(p), ReceiptsOf(Records(Config(Instance(p), keyId, rules), Genesis(), ts));
      AppendCheck(c, c.publicKey, rs[..i], rs[i]).None? ||
      exists j :: 0 <= j < i && Collision(p, Preimage(rs[j].body), Preimage(rs[i].body))
  {
    var cfg := Config(Instance(p), keyId, rules);
    var c, rs := Instance(p), ReceiptsOf(Records(cfg, Genesis(), ts));
    InstanceSigns(p);
    RunAccepted(cfg, ts, i);
    if AppendCheck(c, c.publicKey, rs[..i], rs[i]).Some? {
      var j :| 0 <= j < i && IdClash(c, rs[j].body, rs[i].body);
      IdClashIsCollision(p, rs[j].body, rs[i].body);
    }
  }

  lemma OldReceiptAlone(c: Crypto, r: Receipt)
    requires c.verify(r) && r.version < RECEIPT_FORMAT_VERSION && Seq(r) == 0 && Prev(r) == ZERO
    ensures ValidChain(c, [r]) && AppendCheck(c, c.publicKey, [], r) == Some(UnsupportedVersion(r.version, RECEIPT_FORMAT_VERSION))
  {
    assert GoodAt(c, [r], 0);
  }

  /** The wrapper's version is not signed: a receipt relabelled with an older one still passes
      the walk, and an append refuses it. */
  lemma WalkMissesVersion(p: Primitives, b: ReceiptBody, version: u32)
    requires Correct(p) && version < RECEIPT_FORMAT_VERSION
    requires b.merkleLeaf.sequence == 0 && b.merkleLeaf.prevHash == ZERO
    ensures var c, r := Instance(p), Instance(p).sign(b).(version := version);
      ValidChain(c, [r]) && AppendCheck(c, c.publicKey, [], r) == Some(UnsupportedVersion(version, RECEIPT_FORMAT_VERSION))
  {
    RelabelledVerifies(p, b, version);
    OldReceiptAlone(Instance(p), Instance(p).sign(b).(version := version));
  }

  // ---------- the head commits to the history ----------

  /** The same length, and the same leaf fields receipt by receipt. */
  predicate SameHistory(a: seq<Receipt>, b: seq<Receipt>)
  {
    |a| == |b| && forall i :: 0 <= i < |a| ==> Fields(a[i]) == Fields(b[i])
  }

  /** A leaf of one and a different leaf of the other share a hash. */
  ghost predicate SomeLeafClash(c: Crypto, a: seq<Receipt>, b: seq<Receipt>)
  {
    exists i, j :: 0 <= i < |a| && 0 <= j < |b| && LeafClash(c, Fields(a[i]), Fields(b[j]))
  }

  lemma HistoryExtended(c: Crypto, a: seq<Receipt>, b: seq<Receipt>, r: Receipt, s: Receipt)
    requires Fields(r) == Fields(s) && (SameHistory(a, b) || SomeLeafClash(c, a, b))
    ensures SameHistory(a + [r], b + [s]) || SomeLeafClash(c, a + [r], b + [s])
  {
    if i, j :| 0 <= i < |a| && 0 <= j < |b| && LeafClash(c, Fields(a[i]), Fields(b[j])) {
      assert LeafClash(c, Fields((a + [r])[i]), Fields((b + [s])[j]));
    }
  }

  /** Equal heads come from equal last leaves, or from a clash. */
  lemma LastLeaves(c: Crypto, a: seq<Receipt>, b: seq<Receipt>)
    requires AllGenuine(c, a) && AllGenuine(c, b) && a != [] && b != [] && Head(a) == Head(b)
    ensures Fields(a[|a| - 1]) == Fields(b[|b| - 1]) || SomeLeafClash(c, a, b)
  {
    var m, n := |a| - 1, |b| - 1;
    assert Genuine(c, a[m]) && Genuine(c, b[n]);
    if Fields(a[m]) != Fields(b[n]) {
      assert LeafClash(c, Fields(a[m]), Fields(b[n]));
    }
  }

  /** Two chains of genuine receipts with the same head agree, receipt by receipt, on every
      field a leaf covers and on their length - or some two different leaves share a hash. */
  lemma {:induction false} HeadCommitsToHistory(c: Crypto, a: seq<Receipt>, b: seq<Receipt>)
    requires Chained(Genesis(), a) && AllGenuine(c, a) && Chained(Genesis(), b) && AllGenuine(c, b)
    requires a != [] && b != [] && Head(a) == Head(b)
    ensures SameHistory(a, b) || SomeLeafClash(c, a, b)
    decreases |a|
  {
    var m, n := |a| - 1, |b| - 1;
    LastLeaves(c, a, b);
    if !SomeLeafClash(c, a, b) {
      LinkedToHead(a, m);
      LinkedToHead(b, n);
      if m > 0 {
        PrefixChained(c, a, m);
        PrefixChained(c, b, n);
        HeadCommitsToHistory(c, a[..m], b[..n]);
        HistoryExtended(c, a[..m], b[..n], a[m], b[n]);
        assert a == a[..m] + [a[m]] && b == b[..n] + [b[n]];
      }
    }
  }

  lemma PrefixChained(c: Crypto, rs: seq<Receipt>, n: nat)
    requires 0 < n < |rs| && Chained(Genesis(), rs) && AllGenuine(c, rs)
    ensures Chained(Genesis(), rs[..n]) && AllGenuine(c, rs[..n]) && Head(rs[..n]) == Prev(rs[n])
  {
    LinkedToHead(rs, n);
    forall i | 0 <= i < n ensures LinkedAt(Genesis(), rs[..n], i) {
      assert LinkedAt(Genesis(), rs, i);
    }
  }

  // ---------- Deny is final ----------

  /** The receipt an event carries, if it carries one. */
  function Carried(ev: Event): Option<Receipt>
  {
    match ev
    case ResolveApproval(a) => Some(a.pendingReceipt)
    case RecordToolExecution(e) => Some(e.allowedReceipt)
    case _ => None
  }

  /** No forgeries: a carried receipt that verifies under the kernel's key has a body the
      kernel signed before. */
  ghost predicate Unforged(c: Crypto, past: seq<Record>, ev: Event)
  {
    Carried(ev).Some? && c.verify(Carried(ev).value) && Carried(ev).value.issuer == c.publicKey ==>
      exists i :: 0 <= i < |past| && past[i].receipt.body == Carried(ev).value.body
  }

  ghost predicate UnforgedRun(cfg: Config, st: KernelState, past: seq<Record>, ts: seq<Timed>)
    decreases |ts|
  {
    ts == [] ||
    (Unforged(cfg.crypto, past, ts[0].event) &&
     UnforgedRun(cfg, StateAfter(cfg, st, ts[0]), past + RecordOf(cfg, st, ts[0]), ts[1..]))
  }

  /** Denied, or not the verdict on a proposal at all. */
  predicate RespectsDeny(rules: seq<Rule>, r: Record)
  {
    SomeRuleSays(rules, Deny, r.receipt.body.action) ==>
      match r.event
      case EvaluateProposal(_) => r.receipt.body.decision == Denied
      case ResolveApproval(_) => r.receipt.body.decision == Denied
      case _ => r.receipt.body.decision == Allowed
  }

  lemma DenyDecides(rules: seq<Rule>, p: Proposal)
    requires SomeRuleSays(rules, Deny, p.action)
    ensures DecideProposal(rules, p).decision == Denied && DecideProposal(rules, p).leaseAfter == p.lease
  {
  }

  lemma StepRespectsDeny(cfg: Config, st: KernelState, past: seq<Record>, t: Timed)
    requires SignerContract(cfg.crypto) && Unforged(cfg.crypto, past, t.event) && st.sequence < U64_MAX
    requires forall r :: r in past ==> RespectsDeny(cfg.rules, r)
    ensures forall r :: r in RecordOf(cfg, st, t) ==> RespectsDeny(cfg.rules, r)
  {
    StepChained(cfg, st, t);
    if Decide(cfg, t.event).Ok? {
      match t.event
      case EvaluateProposal(p) =>
        if SomeRuleSays(cfg.rules, Deny, p.action) {
          DenyDecides(cfg.rules, p);
        }
      case ResolveApproval(a) =>
        var i :| 0 <= i < |past| && past[i].receipt.body == a.pendingReceipt.body;
        assert RespectsDeny(cfg.rules, past[i]);
      case _ =>
    }
  }

  lemma {:induction false} RunRespectsDeny(cfg: Config, st: KernelState, past: seq<Record>, ts: seq<Timed>)
    requires SignerContract(cfg.crypto) && st.sequence + |ts| <= U64_MAX
    requires UnforgedRun(cfg, st, past, ts)
    requires forall r :: r in past ==> RespectsDeny(cfg.rules, r)
    ensures forall r :: r in Records(cfg, st, ts) ==> RespectsDeny(cfg.rules, r)
    decreases |ts|
  {
    if ts != [] {
      StepChained(cfg, st, ts[0]);
      StepRespectsDeny(cfg, st, past, ts[0]);
      RunRespectsDeny(cfg, StateAfter(cfg, st, ts[0]), past + RecordOf(cfg, st, ts[0]), ts[1..]);
    }
  }

  /** Deny is final: in a run without forgeries, every receipt minted by evaluating a proposal
      or resolving an approval whose action some Deny rule matches is Denied, although
      resolving never consults the constitution. */
  lemma DenyIsFinal(cfg: Config, ts: seq<Timed>, r: Record)
    requires SignerContract(cfg.crypto) && |ts| <= U64_MAX
    requires UnforgedRun(cfg, Genesis(), [], ts)
    requires r in Records(cfg, Genesis(), ts) && (r.event.EvaluateProposal? || r.event.ResolveApproval?)
    requires SomeRuleSays(cfg.rules, Deny, r.receipt.body.action)
    ensures r.receipt.body.decision == Denied
  {
    RunRespectsDeny(cfg, Genesis(), [], ts);
  }
}
