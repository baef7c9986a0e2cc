/** The services the kernel and the log rest on, as an interface: a signer, signature
    verification, content ids and leaf hashes. */
module Crypto {
  import opened Receipts

  /** The fields a leaf hash covers. */
  datatype LeafFields = LeafFields(sequence: u64, issuedAt: string, action: Action, decision: Decision, prevHash: Digest)

  datatype Crypto = Crypto(
    publicKey: PublicKey,
    sign: ReceiptBody -> Receipt,
    verify: Receipt -> bool,
    contentId: ReceiptBody -> Digest,
    leafHash: LeafFields -> Digest)

  /** What a signer owes the kernel: the same body back, under its own key and the current
      version, in a receipt that verifies. */
  ghost predicate SignerContract(c: Crypto)
  {
    forall b: ReceiptBody :: var r := c.sign(b);
      r.body == b && r.issuer == c.publicKey && r.version == RECEIPT_FORMAT_VERSION && c.verify(r)
  }

  /** Two different bodies share a content id. */
  ghost predicate IdClash(c: Crypto, a: ReceiptBody, b: ReceiptBody)
  {
    a != b && c.contentId(a) == c.contentId(b)
  }

  /** Two different leaves share a leaf hash. */
  ghost predicate LeafClash(c: Crypto, a: LeafFields, b: LeafFields)
  {
    a != b && c.leafHash(a) == c.leafHash(b)
  }

  function ContentId(c: Crypto, r: Receipt): Digest { c.contentId(r.body) }

  function Seq(r: Receipt): u64 { r.body.merkleLeaf.sequence }

  function Prev(r: Receipt): Digest { r.body.merkleLeaf.prevHash }

  function LeafOf(r: Receipt): Digest { r.body.merkleLeaf.leafHash }

  /** The leaf fields recorded in a receipt. */
  function Fields(r: Receipt): LeafFields
  {
    LeafFields(Seq(r), r.body.issuedAt, r.body.action, r.body.decision, Prev(r))
  }
}
