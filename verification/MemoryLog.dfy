/** The in-memory log: a vector of receipts and an index by content id. */
module MemoryLog {
  import opened Wrappers
  import opened Receipts
  import opened Crypto
  import opened Log

  datatype MemState = MemState(receipts: seq<Receipt>, byId: map<Digest, nat>)

  function EmptyMem(): MemState { MemState([], map[]) }

  /** The index lists exactly the stored receipts, by their ids. */
  predicate Indexed(c: Crypto, m: MemState)
  {
    (forall id :: id in m.byId ==> m.byId[id] < |m.receipts| && ContentId(c, m.receipts[m.byId[id]]) == id) &&
    (forall i :: 0 <= i < |m.receipts| ==> ContentId(c, m.receipts[i]) in m.byId) &&
    UniqueIds(c, m.receipts)
  }

  function MemGetById(m: MemState, id: Digest): Option<Receipt>
  {
    if id in m.byId && m.byId[id] < |m.receipts| then Some(m.receipts[m.byId[id]]) else None
  }

  /** The appended state; a refused receipt changes neither the list nor the index. */
  function MemAppend(c: Crypto, issuer: PublicKey, m: MemState, r: Receipt): MemState
  {
    if AppendCheck(c, issuer, m.receipts, r).Some? then m
    else MemState(m.receipts + [r], m.byId[ContentId(c, r) := |m.receipts|])
  }

  lemma AppendKeepsIndexed(c: Crypto, issuer: PublicKey, m: MemState, r: Receipt)
    requires Indexed(c, m)
    ensures Indexed(c, MemAppend(c, issuer, m, r))
  {
    if AppendCheck(c, issuer, m.receipts, r).None? {
      var m' := MemAppend(c, issuer, m, r);
      var id := ContentId(c, r);
      assert id !in m.byId;
      forall i | 0 <= i < |m'.receipts| ensures ContentId(c, m'.receipts[i]) in m'.byId {
        if i < |m.receipts| {
          assert m'.receipts[i] == m.receipts[i];
        }
      }
    }
  }

  function MemRun(c: Crypto, issuer: PublicKey, m: MemState, rs: seq<Receipt>): MemState
    decreases |rs|
  {
    if rs == [] then m else MemRun(c, issuer, MemAppend(c, issuer, m, rs[0]), rs[1..])
  }

  lemma {:induction false} RunKeepsIndexed(c: Crypto, issuer: PublicKey, m: MemState, rs: seq<Receipt>)
    requires Indexed(c, m)
    ensures Indexed(c, MemRun(c, issuer, m, rs))
    decreases |rs|
  {
    if rs != [] {
      AppendKeepsIndexed(c, issuer, m, rs[0]);
      RunKeepsIndexed(c, issuer, MemAppend(c, issuer, m, rs[0]), rs[1..]);
    }
  }

  /** In every reachable log a lookup by id is a linear scan: it finds a receipt exactly when
      some stored receipt has that id, and that receipt is the only one. */
  lemma IndexIsScan(c: Crypto, issuer: PublicKey, rs: seq<Receipt>, id: Digest)
    ensures var m := MemRun(c, issuer, EmptyMem(), rs);
      && (MemGetById(m, id).Some? <==> HasId(c, m.receipts, id))
      && (forall i :: 0 <= i < |m.receipts| ==>
        (ContentId(c, m.receipts[i]) == id <==> MemGetById(m, id) == Some(m.receipts[i])))
  {
    var m := MemRun(c, issuer, EmptyMem(), rs);
    RunKeepsIndexed(c, issuer, EmptyMem(), rs);
  }

  class InMemoryReceiptLog {
    const crypto: Crypto
    const issuer: PublicKey
    var receipts: seq<Receipt>
    var byId: map<Digest, nat>

    constructor (c: Crypto, pin: PublicKey)
      ensures crypto == c && issuer == pin && View() == EmptyMem() && Valid()
    {
      crypto, issuer := c, pin;
      receipts, byId := [], map[];
    }

    function View(): MemState
      reads this
    {
      MemState(receipts, byId)
    }

    ghost predicate Valid()
      reads this
    {
      Indexed(crypto, View()) && GoodLog(crypto, issuer, receipts)
    }

    method Append(receipt: Receipt) returns (r: Check<AppendError>)
      requires Valid()
      modifies this
      ensures Valid()
      ensures View() == MemAppend(crypto, issuer, old(View()), receipt)
      ensures r == match AppendCheck(crypto, issuer, old(receipts), receipt) case None => Pass case Some(e) => Fail(e)
    {
      if receipt.version != RECEIPT_FORMAT_VERSION {
        return Fail(UnsupportedVersion(receipt.version, RECEIPT_FORMAT_VERSION));
      }
      if receipt.issuer != issuer {
        return Fail(IssuerMismatch(issuer, receipt.issuer));
      }
      var expectedSeq := |receipts|;
      var gotSeq := receipt.body.merkleLeaf.sequence;
      if gotSeq != expectedSeq {
        return Fail(OutOfOrder(expectedSeq, gotSeq));
      }
      var expectedPrev := if receipts == [] then ZERO else receipts[|receipts| - 1].body.merkleLeaf.leafHash;
      var gotPrev := receipt.body.merkleLeaf.prevHash;
      if gotPrev != expectedPrev {
        return Fail(ChainBroken(expectedPrev, gotPrev));
      }
      if !crypto.verify(receipt) {
        return Fail(SignatureInvalid);
      }
      var id := ContentId(crypto, receipt);
      if id in byId {
        return Fail(DuplicateId(id));
      }
      AppendKeepsIndexed(crypto, issuer, View(), receipt);
      AppendKeepsGood(crypto, issuer, receipts, receipt);
      var position := |receipts|;
      receipts := receipts + [receipt];
      byId := byId[id := position];
      return Pass;
    }

    method Last() returns (r: Option<Receipt>)
      ensures r == if |receipts| == 0 then None else Some(receipts[|receipts| - 1])
    {
      return if |receipts| == 0 then None else Some(receipts[|receipts| - 1]);
    }

    method GetBySequence(sequence: u64) returns (r: Option<Receipt>)
      requires Valid()
      ensures r.Some? <==> sequence < |receipts|
      ensures r.Some? ==> Seq(r.value) == sequence && r.value in receipts
    {
      if sequence >= |receipts| {
        return None;
      }
      assert GoodAt(crypto, receipts, sequence);
      return Some(receipts[sequence]);
    }

    method GetById(id: Digest) returns (r: Option<Receipt>)
      requires Valid()
      ensures r == MemGetById(View(), id)
      ensures r.Some? <==> HasId(crypto, receipts, id)
    {
      if id !in byId {
        return None;
      }
      return Some(receipts[byId[id]]);
    }

    /** The walk: stops at the first fault.  It trusts nothing about the contents. */
    method VerifyChain() returns (r: Check<VerifyChainError>)
      ensures WalkVerdict(crypto, receipts, r)
    {
      var expectedPrev := ZERO;
      var i := 0;
      while i < |receipts|
        invariant 0 <= i <= |receipts| && expectedPrev == Head(receipts[..i])
        invariant forall j :: 0 <= j < i ==> GoodAt(crypto, receipts, j)
      {
        var receipt := receipts[i];
        var gotSeq := receipt.body.merkleLeaf.sequence;
        if gotSeq != i {
          assert FirstFault(crypto, receipts, i);
          return Fail(SequenceGapAt(i, gotSeq));
        }
        var gotPrev := receipt.body.merkleLeaf.prevHash;
        if gotPrev != expectedPrev {
          assert FirstFault(crypto, receipts, i);
          return Fail(BrokenAt(gotSeq, expectedPrev, gotPrev));
        }
        if !crypto.verify(receipt) {
          assert FirstFault(crypto, receipts, i);
          return Fail(SignatureInvalidAt(gotSeq));
        }
        expectedPrev := receipt.body.merkleLeaf.leafHash;
        i := i + 1;
      }
      return Pass;
    }
  }
}
