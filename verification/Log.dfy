/** The receipt log contract shared by every implementation: when a receipt may be appended,
    and what a walk over the chain reports. */
module Log {
  import opened Wrappers
  import opened Receipts
  import opened Crypto

  datatype AppendError =
    | UnsupportedVersion(found: u32, supported: u32)
    | IssuerMismatch(pinned: PublicKey, issuer: PublicKey)
    | OutOfOrder(expected: nat, got: nat)
    | ChainBroken(expectedPrev: Digest, gotPrev: Digest)
    | SignatureInvalid
    | DuplicateId(id: Digest)

  datatype VerifyChainError =
    | SequenceGapAt(expected: nat, got: nat)
    | BrokenAt(sequence: nat, expectedPrev: Digest, gotPrev: Digest)
    | SignatureInvalidAt(sequence: nat)

  /** The leaf hash the next receipt must link to. */
  function Head(rs: seq<Receipt>): Digest { if |rs| == 0 then ZERO else LeafOf(rs[|rs| - 1]) }

  predicate HasId(c: Crypto, rs: seq<Receipt>, id: Digest)
  {
    exists i :: 0 <= i < |rs| && ContentId(c, rs[i]) == id
  }

  /** Why `r` may not extend `rs`, checked in the fixed order. */
  function AppendCheck(c: Crypto, issuer: PublicKey, rs: seq<Receipt>, r: Receipt): Option<AppendError>
  {
    if r.version != RECEIPT_FORMAT_VERSION then Some(UnsupportedVersion(r.version, RECEIPT_FORMAT_VERSION))
    else if r.issuer != issuer then Some(IssuerMismatch(issuer, r.issuer))
    else if Seq(r) != |rs| then Some(OutOfOrder(|rs|, Seq(r)))
    else if Prev(r) != Head(rs) then Some(ChainBroken(Head(rs), Prev(r)))
    else if !c.verify(r) then Some(SignatureInvalid)
    else if HasId(c, rs, ContentId(c, r)) then Some(DuplicateId(ContentId(c, r)))
    else None
  }

  /** The leaf hash stored just before a position, all zeros before the first. */
  function LinkBefore(rs: seq<Receipt>, i: nat): Digest
    requires i <= |rs|
  {
    if i == 0 then ZERO else rs[i - 1].body.merkleLeaf.leafHash
  }

  /** Why an append is refused: the first that fails of version, issuer, number, link, signature
      and fresh id; each error reports what was wanted and what came. */
  lemma RefusedWhy(c: Crypto, issuer: PublicKey, rs: seq<Receipt>, r: Receipt)
    ensures var e, leaf := AppendCheck(c, issuer, rs, r), r.body.merkleLeaf;
      var stale, foreign, misplaced := r.version != 2, r.issuer != issuer, leaf.sequence != |rs|;
      var unlinked, unsigned := leaf.prevHash != LinkBefore(rs, |rs|), !c.verify(r);
      var known := exists p :: p in rs && c.contentId(p.body) == c.contentId(r.body);
      && (e == Some(UnsupportedVersion(r.version, 2)) <==> stale)
      && (e == Some(IssuerMismatch(issuer, r.issuer)) <==> !stale && foreign)
      && (e == Some(OutOfOrder(|rs|, leaf.sequence)) <==> !stale && !foreign && misplaced)
      && (e == Some(ChainBroken(LinkBefore(rs, |rs|), leaf.prevHash)) <==> !stale && !foreign && !misplaced && unlinked)
      && (e == Some(SignatureInvalid) <==> !stale && !foreign && !misplaced && !unlinked && unsigned)
      && (e == Some(DuplicateId(c.contentId(r.body))) <==>
           !stale && !foreign && !misplaced && !unlinked && !unsigned && known)
      && (e == None <==> !stale && !foreign && !misplaced && !unlinked && !unsigned && !known)
  {
    assert HasId(c, rs, c.contentId(r.body)) <==> exists p :: p in rs && c.contentId(p.body) == c.contentId(r.body);
  }

  // ---------- walking a chain ----------

  /** Position `i` is right: its number, its link and its signature. */
  predicate GoodAt(c: Crypto, rs: seq<Receipt>, i: nat)
    requires i < |rs|
  {
    Seq(rs[i]) == i && Prev(rs[i]) == Head(rs[..i]) && c.verify(rs[i])
  }

  predicate ValidChain(c: Crypto, rs: seq<Receipt>) { forall i :: 0 <= i < |rs| ==> GoodAt(c, rs, i) }

  /** What is wrong at a position that is not right: number, then link, then signature. */
  function FaultAt(c: Crypto, rs: seq<Receipt>, i: nat): VerifyChainError
    requires i < |rs|
  {
    if Seq(rs[i]) != i then SequenceGapAt(i, Seq(rs[i]))
    else if Prev(rs[i]) != Head(rs[..i]) then BrokenAt(i, Head(rs[..i]), Prev(rs[i]))
    else SignatureInvalidAt(i)
  }

  /** The least position that is not right. */
  ghost predicate FirstFault(c: Crypto, rs: seq<Receipt>, i: nat)
  {
    i < |rs| && !GoodAt(c, rs, i) && forall j :: 0 <= j < i ==> GoodAt(c, rs, j)
  }

  /** The verdict a full walk owes on any contents, altered or not. */
  ghost predicate WalkVerdict(c: Crypto, rs: seq<Receipt>, r: Check<VerifyChainError>)
  {
    match r
    case Pass => ValidChain(c, rs)
    case Fail(e) => exists i: nat :: FirstFault(c, rs, i) && e == FaultAt(c, rs, i)
  }

  /** What a walk reports: nothing wrong exactly if every receipt has its number, links to the one
      before and is signed; else the first that does not, with the first of the three that fails. */
  lemma WalkReports(c: Crypto, rs: seq<Receipt>, r: Check<VerifyChainError>)
    requires WalkVerdict(c, rs, r)
    ensures r == Pass <==> forall i :: 0 <= i < |rs| ==> InPlace(c, rs, i)
    ensures forall i :: 0 <= i < |rs| && !InPlace(c, rs, i) && (forall j :: 0 <= j < i ==> InPlace(c, rs, j)) ==>
      var leaf := rs[i].body.merkleLeaf;
      && (r == Fail(SequenceGapAt(i, leaf.sequence)) <==> leaf.sequence != i)
      && (r == Fail(BrokenAt(i, LinkBefore(rs, i), leaf.prevHash)) <==>
           leaf.sequence == i && leaf.prevHash != LinkBefore(rs, i))
      && (r == Fail(SignatureInvalidAt(i)) <==> leaf.sequence == i && leaf.prevHash == LinkBefore(rs, i))
  {
    forall i | 0 <= i < |rs| ensures GoodAt(c, rs, i) <==> InPlace(c, rs, i) {
      assert Head(rs[..i]) == LinkBefore(rs, i);
    }
    forall i | 0 <= i < |rs| && FirstFault(c, rs, i) ensures r == Fail(FaultAt(c, rs, i)) && Head(rs[..i]) == LinkBefore(rs, i) {
      WalkVerdictUnique(c, rs, r, Fail(FaultAt(c, rs, i)));
    }
  }

  predicate InPlace(c: Crypto, rs: seq<Receipt>, i: nat)
    requires i < |rs|
  {
    rs[i].body.merkleLeaf.sequence == i && rs[i].body.merkleLeaf.prevHash == LinkBefore(rs, i) && c.verify(rs[i])
  }

  /** The verdict is a function of the contents: two walks over equal contents agree. */
  lemma WalkVerdictUnique(c: Crypto, rs: seq<Receipt>, r: Check<VerifyChainError>, s: Check<VerifyChainError>)
    requires WalkVerdict(c, rs, r) && WalkVerdict(c, rs, s)
    ensures r == s
  {
    if r.Fail? && s.Fail? {
      var i: nat :| FirstFault(c, rs, i) && r.error == FaultAt(c, rs, i);
      var j: nat :| FirstFault(c, rs, j) && s.error == FaultAt(c, rs, j);
      assert i == j;
    }
  }

  // ---------- what appending keeps ----------

  predicate Pinned(issuer: PublicKey, rs: seq<Receipt>)
  {
    forall i :: 0 <= i < |rs| ==> rs[i].version == RECEIPT_FORMAT_VERSION && rs[i].issuer == issuer
  }

  predicate UniqueIds(c: Crypto, rs: seq<Receipt>)
  {
    forall i, j :: 0 <= i < j < |rs| ==> ContentId(c, rs[i]) != ContentId(c, rs[j])
  }

  /** The contents of every log that grew by accepted appends. */
  predicate GoodLog(c: Crypto, issuer: PublicKey, rs: seq<Receipt>)
  {
    ValidChain(c, rs) && Pinned(issuer, rs) && UniqueIds(c, rs)
  }

  lemma AppendKeepsGood(c: Crypto, issuer: PublicKey, rs: seq<Receipt>, r: Receipt)
    requires GoodLog(c, issuer, rs) && AppendCheck(c, issuer, rs, r).None?
    ensures GoodLog(c, issuer, rs + [r])
  {
    var all := rs + [r];
    forall i | 0 <= i < |all| ensures GoodAt(c, all, i) {
      if i < |rs| {
        assert all[..i] == rs[..i];
        assert GoodAt(c, rs, i);
      } else {
        assert all[..i] == rs;
      }
    }
  }

  lemma GoodLogInit(c: Crypto, issuer: PublicKey, rs: seq<Receipt>, r: Receipt)
    requires GoodLog(c, issuer, rs + [r])
    ensures GoodLog(c, issuer, rs) && AppendCheck(c, issuer, rs, r).None?
  {
    var all, n := rs + [r], |rs|;
    forall i | 0 <= i < n ensures GoodAt(c, rs, i) && all[i] == rs[i] {
      assert GoodAt(c, all, i) && all[..i] == rs[..i];
    }
    assert all[n] == r && all[..n] == rs && GoodAt(c, all, n);
    forall i | 0 <= i < n ensures ContentId(c, rs[i]) != ContentId(c, r) {
      assert ContentId(c, all[i]) != ContentId(c, all[n]);
    }
  }

  /** Every receipt was accepted on top of those before it. */
  predicate AllAccepted(c: Crypto, issuer: PublicKey, rs: seq<Receipt>)
  {
    forall i :: 0 <= i < |rs| ==> AppendCheck(c, issuer, rs[..i], rs[i]).None?
  }

  lemma AllAcceptedSplit(c: Crypto, issuer: PublicKey, rs: seq<Receipt>, r: Receipt)
    ensures AllAccepted(c, issuer, rs + [r]) <==> AllAccepted(c, issuer, rs) && AppendCheck(c, issuer, rs, r).None?
  {
    var all, n := rs + [r], |rs|;
    assert all[..n] == rs && all[n] == r;
    forall i | 0 <= i < n ensures all[..i] == rs[..i] && all[i] == rs[i] {}
  }

  /** Contents that are good are exactly the contents that some appends from the empty log
      all accept. */
  lemma {:induction false} GoodLogIff(c: Crypto, issuer: PublicKey, rs: seq<Receipt>)
    ensures GoodLog(c, issuer, rs) <==> AllAccepted(c, issuer, rs)
  {
    if rs != [] {
      var n := |rs| - 1;
      var init, r := rs[..n], rs[n];
      assert rs == init + [r];
      GoodLogIff(c, issuer, init);
      AllAcceptedSplit(c, issuer, init, r);
      if GoodLog(c, issuer, rs) {
        GoodLogInit(c, issuer, init, r);
      }
      if AllAccepted(c, issuer, rs) {
        AppendKeepsGood(c, issuer, init, r);
      }
    }
  }

  // ---------- what a passing walk leaves open ----------

  /** Exactly what a passing walk does not cover: a valid chain is one that appends would have
      accepted if and only if every receipt carries the pinned issuer and the current version,
      and no two share a content id. */
  lemma PassingWalkIff(c: Crypto, issuer: PublicKey, rs: seq<Receipt>)
    requires ValidChain(c, rs)
    ensures AllAccepted(c, issuer, rs) <==> Pinned(issuer, rs) && UniqueIds(c, rs)
  {
    GoodLogIff(c, issuer, rs);
  }

  /** The ids take care of themselves, numbers keeping the bodies apart: issuer and version are
      enough, or two of the bodies share a content id. */
  lemma PinnedWalkSuffices(c: Crypto, issuer: PublicKey, rs: seq<Receipt>)
    requires ValidChain(c, rs) && Pinned(issuer, rs)
    ensures AllAccepted(c, issuer, rs) ||
      exists i, j :: 0 <= i < j < |rs| && IdClash(c, rs[i].body, rs[j].body)
  {
    PassingWalkIff(c, issuer, rs);
    if !UniqueIds(c, rs) {
      var i, j :| 0 <= i < j < |rs| && ContentId(c, rs[i]) == ContentId(c, rs[j]);
      assert GoodAt(c, rs, i) && GoodAt(c, rs, j);
      assert IdClash(c, rs[i].body, rs[j].body);
    }
  }

  /** A log pinned to one key and holding a receipt signed under another: the walk passes, and
      an append would have refused it. */
  lemma WalkMissesIssuer(c: Crypto, issuer: PublicKey, b: ReceiptBody)
    requires SignerContract(c) && issuer != c.publicKey
    requires b.merkleLeaf.sequence == 0 && b.merkleLeaf.prevHash == ZERO
    ensures ValidChain(c, [c.sign(b)])
    ensures AppendCheck(c, issuer, [], c.sign(b)) == Some(IssuerMismatch(issuer, c.publicKey))
  {
    var r := c.sign(b);
    assert r.body == b && r.issuer == c.publicKey && r.version == RECEIPT_FORMAT_VERSION && c.verify(r);
    assert GoodAt(c, [r], 0);
  }
}
