/** Receipts, their JSON shape, and the bytes their signature and content id cover. */
module Receipts {
  import opened Wrappers
  import opened Utf8
  import opened Json
  import opened Utf16
  import opened Canonical

  type u32 = n: int | 0 <= n < 0x1_0000_0000
  type u64 = n: int | 0 <= n < 0x1_0000_0000_0000_0000

  const U64_MAX: u64 := 0xFFFF_FFFF_FFFF_FFFF
  const U32_MAX: u32 := 0xFFFF_FFFF

  // Saturating arithmetic.
  function SatAdd64(a: u64, b: u64): u64 { var s: int := a + b; if s <= U64_MAX then s else U64_MAX }
  function SatAdd32(a: u32, b: u32): u32 { var s: int := a + b; if s <= U32_MAX then s else U32_MAX }
  function SatSub64(a: u64, b: u64): u64 { if b <= a then a - b else 0 }
  function SatSub32(a: u32, b: u32): u32 { if b <= a then a - b else 0 }

  type Digest = d: seq<byte> | |d| == 32 witness seq(32, _ => 0)
  type PublicKey = d: seq<byte> | |d| == 32 witness seq(32, _ => 0)
  type Signature = d: seq<byte> | |d| == 64 witness seq(64, _ => 0)

  const ZERO: Digest := [0, 0, 0, 0, 0, 0, 0, 0, 0, 0, 0, 0, 0, 0, 0, 0,
                         0, 0, 0, 0, 0, 0, 0, 0, 0, 0, 0, 0, 0, 0, 0, 0]
  const RECEIPT_FORMAT_VERSION: u32 := 2

  datatype Decision = Allowed | Denied | Approved | Pending
  datatype Action = Action(kind: string, target: string, inputHash: Digest)
  datatype RuleRef = RuleRef(id: string, matched: bool)
  datatype ProvenanceEdge = ProvenanceEdge(source: string, target: string, kind: string)
  datatype MerkleLeaf = MerkleLeaf(sequence: u64, leafHash: Digest, prevHash: Digest)

  datatype ReceiptBody = ReceiptBody(
    schemaVersion: u32,
    issuedAt: string,
    action: Action,
    decision: Decision,
    constitutionRules: seq<RuleRef>,
    provenance: seq<ProvenanceEdge>,
    redactorStackHash: Option<Digest>,
    keyId: Option<string>,
    merkleLeaf: MerkleLeaf)

  datatype Receipt = Receipt(version: u32, body: ReceiptBody, issuer: PublicKey, signature: Signature)

  // ---------- hex ----------

  function Hex(b: seq<byte>): (t: string)
    ensures |t| == 2 * |b|
  {
    if b == [] then "" else [Nib(b[0] / 16), Nib(b[0] % 16)] + Hex(b[1..])
  }

  /** Two lower-case digits a byte, the high one first. */
  lemma {:induction false} HexDigits(b: seq<byte>, i: nat)
    requires i < |b|
    ensures Hex(b)[2 * i] == "0123456789abcdef"[b[i] / 16] && Hex(b)[2 * i + 1] == "0123456789abcdef"[b[i] % 16]
  {
    if i == 0 {
      NibIs(b[0] / 16);
      NibIs(b[0] % 16);
    } else {
      HexDigits(b[1..], i - 1);
      assert Hex(b)[2..] == Hex(b[1..]);
      assert Hex(b)[2 * i] == Hex(b)[2..][2 * (i - 1)] && Hex(b)[2 * i + 1] == Hex(b)[2..][2 * (i - 1) + 1];
    }
  }

  lemma NibInjective(m: nat, n: nat)
    requires m < 16 && n < 16 && Nib(m) == Nib(n)
    ensures m == n
  {
  }

  lemma {:induction false} HexInjective(a: seq<byte>, b: seq<byte>)
    requires Hex(a) == Hex(b)
    ensures a == b
  {
    if a != [] && b != [] {
      var x, y := Hex(a), Hex(b);
      assert x[0] == y[0] && x[1] == y[1];
      NibInjective(a[0] / 16, b[0] / 16);
      NibInjective(a[0] % 16, b[0] % 16);
      assert Hex(a[1..]) == x[2..] == y[2..] == Hex(b[1..]);
      HexInjective(a[1..], b[1..]);
    }
  }

  // ---------- JSON shape ----------

  function DecisionName(d: Decision): (t: string)
  {
    match d
    case Allowed => "allowed"
    case Denied => "denied"
    case Approved => "approved"
    case Pending => "pending"
  }

  function DigestJson(d: seq<byte>): Json { Str(Hex(d)) }

  function ActionJson(a: Action): Json
  {
    Obj([Member("kind", Str(a.kind)), Member("target", Str(a.target)), Member("input_hash", DigestJson(a.inputHash))])
  }

  function RuleJson(r: RuleRef): Json
  {
    Obj([Member("id", Str(r.id)), Member("matched", Bool(r.matched))])
  }

  function EdgeJson(e: ProvenanceEdge): Json
  {
    Obj([Member("from", Str(e.source)), Member("to", Str(e.target)), Member("kind", Str(e.kind))])
  }

  function RulesJson(rs: seq<RuleRef>): Json
  {
    Arr(seq(|rs|, i requires 0 <= i < |rs| => RuleJson(rs[i])))
  }

  function EdgesJson(es: seq<ProvenanceEdge>): Json
  {
    Arr(seq(|es|, i requires 0 <= i < |es| => EdgeJson(es[i])))
  }

  function LeafJson(l: MerkleLeaf): Json
  {
    Obj([Member("sequence", Num(l.sequence)), Member("leaf_hash", DigestJson(l.leafHash)),
         Member("prev_hash", DigestJson(l.prevHash))])
  }

  function RedactorJson(d: Option<Digest>): Json
  {
    match d
    case None => Null
    case Some(h) => DigestJson(h)
  }

  /** `key_id` is left out altogether when the signer has none. */
  function KeyIdMember(k: Option<string>): seq<Member>
  {
    match k
    case None => []
    case Some(id) => [Member("key_id", Str(id))]
  }

  /** The body's members in struct-declaration order. */
  function BodyMembers(b: ReceiptBody): seq<Member>
  {
    [Member("schema_version", Num(b.schemaVersion)),
     Member("issued_at", Str(b.issuedAt)),
     Member("action", ActionJson(b.action)),
     Member("decision", Str(DecisionName(b.decision))),
     Member("constitution_rules", RulesJson(b.constitutionRules)),
     Member("provenance", EdgesJson(b.provenance)),
     Member("redactor_stack_hash", RedactorJson(b.redactorStackHash))]
    + KeyIdMember(b.keyId) + [Member("merkle_leaf", LeafJson(b.merkleLeaf))]
  }

  function BodyJson(b: ReceiptBody): Json { Obj(BodyMembers(b)) }

  /** The signed and hashed bytes: struct order for schema version 1 and below, canonical
      order from version 2 on. */
  function Preimage(b: ReceiptBody): (bytes: seq<byte>)
  {
    if b.schemaVersion <= 1 then Encode(Emit(BodyJson(b))) else CanonicalBytes(BodyJson(b))
  }

  // ---------- nothing is lost ----------

  // Objects listing the same keys in the same order agree member by member.
  lemma SameMembers(ms: seq<Member>, ns: seq<Member>)
    requires |ms| == |ns| && Keys(ms) == Keys(ns) && Distinct(Keys(ms))
    requires SameValue(Obj(ms), Obj(ns))
    ensures forall i :: 0 <= i < |ms| ==> SameValue(ms[i].value, ns[i].value)
  {
    forall i | 0 <= i < |ms| ensures SameValue(ms[i].value, ns[i].value) {
      GetAt(ms, i);
      GetAt(ns, i);
    }
  }

  lemma SameAction(a: Action, b: Action)
    requires SameValue(ActionJson(a), ActionJson(b))
    ensures a == b
  {
    var ms, ns := ActionJson(a).members, ActionJson(b).members;
    SameMembers(ms, ns);
    assert SameValue(ms[0].value, ns[0].value) && SameValue(ms[1].value, ns[1].value) && SameValue(ms[2].value, ns[2].value);
    HexInjective(a.inputHash, b.inputHash);
  }

  lemma SameRule(a: RuleRef, b: RuleRef)
    requires SameValue(RuleJson(a), RuleJson(b))
    ensures a == b
  {
    var ms, ns := RuleJson(a).members, RuleJson(b).members;
    SameMembers(ms, ns);
    assert SameValue(ms[0].value, ns[0].value) && SameValue(ms[1].value, ns[1].value);
  }

  lemma SameEdge(a: ProvenanceEdge, b: ProvenanceEdge)
    requires SameValue(EdgeJson(a), EdgeJson(b))
    ensures a == b
  {
    var ms, ns := EdgeJson(a).members, EdgeJson(b).members;
    SameMembers(ms, ns);
    assert SameValue(ms[0].value, ns[0].value) && SameValue(ms[1].value, ns[1].value) && SameValue(ms[2].value, ns[2].value);
  }

  lemma SameLeaf(a: MerkleLeaf, b: MerkleLeaf)
    requires SameValue(LeafJson(a), LeafJson(b))
    ensures a == b
  {
    var ms, ns := LeafJson(a).members, LeafJson(b).members;
    SameMembers(ms, ns);
    assert SameValue(ms[0].value, ns[0].value) && SameValue(ms[1].value, ns[1].value) && SameValue(ms[2].value, ns[2].value);
    HexInjective(a.leafHash, b.leafHash);
    HexInjective(a.prevHash, b.prevHash);
  }

  lemma SameRules(a: seq<RuleRef>, b: seq<RuleRef>)
    requires SameValue(RulesJson(a), RulesJson(b))
    ensures a == b
  {
    forall i | 0 <= i < |a| ensures a[i] == b[i] {
      assert SameValue(RulesJson(a).items[i], RulesJson(b).items[i]);
      SameRule(a[i], b[i]);
    }
  }

  lemma SameEdges(a: seq<ProvenanceEdge>, b: seq<ProvenanceEdge>)
    requires SameValue(EdgesJson(a), EdgesJson(b))
    ensures a == b
  {
    forall i | 0 <= i < |a| ensures a[i] == b[i] {
      assert SameValue(EdgesJson(a).items[i], EdgesJson(b).items[i]);
      SameEdge(a[i], b[i]);
    }
  }

  // The key list, with and without a key id.
  function BodyKeys(keyed: bool): seq<string>
  {
    ["schema_version", "issued_at", "action", "decision", "constitution_rules", "provenance", "redactor_stack_hash"] +
    (if keyed then ["key_id"] else []) + ["merkle_leaf"]
  }

  lemma BodyKeysAre(b: ReceiptBody)
    ensures Keys(BodyMembers(b)) == BodyKeys(b.keyId.Some?)
    ensures "key_id" in Keys(BodyMembers(b)) <==> b.keyId.Some?
  {
    var ks := BodyKeys(b.keyId.Some?);
    assert Keys(BodyMembers(b)) == ks;
    assert b.keyId.Some? ==> ks[7] == "key_id";
    forall i | 0 <= i < |ks| && ks[i] == "key_id" ensures b.keyId.Some? {
      assert |ks[i]| == 6 && ks[i][0] == 'k';
    }
  }

  lemma BodyKeysDistinct(keyed: bool)
    ensures Distinct(BodyKeys(keyed))
  {
    // The names differ in length or in their first letter.
    var ks := BodyKeys(keyed);
    forall i, j | 0 <= i < j < |ks| ensures (|ks[i]|, ks[i][0]) != (|ks[j]|, ks[j][0]) {
    }
  }

  lemma BodyWellFormed(b: ReceiptBody)
    ensures WellFormed(BodyJson(b))
  {
    var ms := BodyMembers(b);
    BodyKeysAre(b);
    BodyKeysDistinct(b.keyId.Some?);
    PartsWellFormed(b);
    forall i | 0 <= i < |ms| ensures WellFormed(ms[i].value) {
    }
  }

  lemma PartsWellFormed(b: ReceiptBody)
    ensures WellFormed(ActionJson(b.action)) && WellFormed(LeafJson(b.merkleLeaf))
    ensures WellFormed(RulesJson(b.constitutionRules)) && WellFormed(EdgesJson(b.provenance))
  {
    assert Keys(ActionJson(b.action).members) == ["kind", "target", "input_hash"];
    assert Keys(LeafJson(b.merkleLeaf).members) == ["sequence", "leaf_hash", "prev_hash"];
    forall r: RuleRef ensures Keys(RuleJson(r).members) == ["id", "matched"] {}
    forall e: ProvenanceEdge ensures Keys(EdgeJson(e).members) == ["from", "to", "kind"] {}
  }

  /** Bodies of the same JSON value have the same members, one by one. */
  lemma SameParts(a: ReceiptBody, b: ReceiptBody)
    requires SameValue(BodyJson(a), BodyJson(b))
    ensures |BodyMembers(a)| == |BodyMembers(b)| && a.keyId.Some? == b.keyId.Some?
    ensures forall i :: 0 <= i < |BodyMembers(a)| ==> SameValue(BodyMembers(a)[i].value, BodyMembers(b)[i].value)
  {
    BodyKeysAre(a);
    BodyKeysAre(b);
    BodyKeysDistinct(a.keyId.Some?);
    assert a.keyId.Some? == b.keyId.Some?;
    SameMembers(BodyMembers(a), BodyMembers(b));
  }

  lemma SameBody(a: ReceiptBody, b: ReceiptBody)
    requires SameValue(BodyJson(a), BodyJson(b))
    ensures a == b
  {
    var ms, ns := BodyMembers(a), BodyMembers(b);
    SameParts(a, b);
    assert SameValue(ms[0].value, ns[0].value);
    assert SameValue(ms[1].value, ns[1].value);
    assert SameValue(ms[2].value, ns[2].value);
    assert SameValue(ms[3].value, ns[3].value);
    assert SameValue(ms[4].value, ns[4].value);
    assert SameValue(ms[5].value, ns[5].value);
    assert SameValue(ms[6].value, ns[6].value);
    assert SameValue(ms[7].value, ns[7].value);
    assert SameValue(ms[|ms| - 1].value, ns[|ms| - 1].value);
    SameAction(a.action, b.action);
    SameDecision(a.decision, b.decision);
    SameRules(a.constitutionRules, b.constitutionRules);
    SameEdges(a.provenance, b.provenance);
    SameRedactor(a.redactorStackHash, b.redactorStackHash);
    SameLeaf(a.merkleLeaf, b.merkleLeaf);
  }

  lemma SameDecision(a: Decision, b: Decision)
    requires DecisionName(a) == DecisionName(b)
    ensures a == b
  {
    assert DecisionName(a)[0] == DecisionName(b)[0] && |DecisionName(a)| == |DecisionName(b)|;
  }

  lemma SameRedactor(a: Option<Digest>, b: Option<Digest>)
    requires SameValue(RedactorJson(a), RedactorJson(b))
    ensures a == b
  {
    if a.Some? && b.Some? {
      HexInjective(a.value, b.value);
    }
  }

  /** The preimage of content id and signature determines the whole body: within each
      schema version, across versions, with and without `key_id`, and with a null or a set
      redactor hash. */
  lemma PreimageInjective(a: ReceiptBody, b: ReceiptBody)
    ensures Preimage(a) == Preimage(b) <==> a == b
  {
    if Preimage(a) == Preimage(b) {
      SamePreimage(a, b);
    }
  }

  lemma SamePreimage(a: ReceiptBody, b: ReceiptBody)
    requires Preimage(a) == Preimage(b)
    ensures a == b
  {
    BodyWellFormed(a);
    BodyWellFormed(b);
    if a.schemaVersion <= 1 && b.schemaVersion <= 1 {
      SameText(BodyJson(a), BodyJson(b));
      SameValueReflexive(BodyJson(a));
      SameBody(a, b);
    } else if a.schemaVersion <= 1 {
      SameText(BodyJson(a), Canon(ByUtf16, BodyJson(b)));
      CanonKeepsValue(ByUtf16, BodyJson(b));
      SameBody(b, a);
    } else if b.schemaVersion <= 1 {
      SameText(Canon(ByUtf16, BodyJson(a)), BodyJson(b));
      CanonKeepsValue(ByUtf16, BodyJson(a));
      SameBody(a, b);
    } else {
      CanonicalBytesIff(BodyJson(a), BodyJson(b));
      SameBody(a, b);
    }
  }

  lemma SameText(v: Json, w: Json)
    requires Encode(Emit(v)) == Encode(Emit(w))
    ensures v == w
  {
    EncodeInjective(Emit(v), Emit(w));
    assert Emit(v) + "" == Emit(w) + "";
    EmitInjective(v, w, "", "");
  }
}
