/** What the signed and hashed bytes of a receipt are: a text of a JSON value that shows the
    body field by field, with the keys in the order its schema version asks for. */
module SignedText {
  import opened Wrappers
  import opened Utf8
  import opened Utf16
  import opened Json
  import opened Canonical
  import opened Receipts
  import opened Crypto
  import opened Leaf

  // ---------- reading fields ----------

  /** The value under a key, if the value is an object that has the key. */
  function Field(v: Json, k: string): Option<Json>
  {
    if v.Obj? && k in Keys(v.members) then Some(Get(v.members, k)) else None
  }

  /** The object lists exactly these keys, in this order. */
  predicate Lists(v: Json, ks: seq<string>) { v.Obj? && Keys(v.members) == ks }

  /** The object has exactly these keys, in some order. */
  ghost predicate HasKeys(v: Json, ks: seq<string>)
  {
    v.Obj? && forall k :: k in Keys(v.members) <==> k in ks
  }

  /** Every object, at every level, lists its keys in ascending UTF-16 order. */
  ghost predicate KeysAscend(v: Json)
  {
    match v
    case Arr(items) => forall i :: 0 <= i < |items| ==> KeysAscend(items[i])
    case Obj(ms) => Ascending(ByUtf16, Keys(ms)) && forall i :: 0 <= i < |ms| ==> KeysAscend(ms[i].value)
    case _ => true
  }

  // ---------- what a value shows ----------

  ghost predicate ShowsAction(v: Json, a: Action)
  {
    && HasKeys(v, ["kind", "target", "input_hash"])
    && Field(v, "kind") == Some(Str(a.kind)) && Field(v, "target") == Some(Str(a.target))
    && Field(v, "input_hash") == Some(Str(Hex(a.inputHash)))
  }

  ghost predicate ShowsRule(v: Json, r: RuleRef)
  {
    HasKeys(v, ["id", "matched"]) && Field(v, "id") == Some(Str(r.id)) && Field(v, "matched") == Some(Bool(r.matched))
  }

  ghost predicate ShowsEdge(v: Json, e: ProvenanceEdge)
  {
    && HasKeys(v, ["from", "to", "kind"])
    && Field(v, "from") == Some(Str(e.source)) && Field(v, "to") == Some(Str(e.target)) && Field(v, "kind") == Some(Str(e.kind))
  }

  ghost predicate ShowsLeaf(v: Json, l: MerkleLeaf)
  {
    && HasKeys(v, ["sequence", "leaf_hash", "prev_hash"])
    && Field(v, "sequence") == Some(Num(l.sequence)) && Field(v, "leaf_hash") == Some(Str(Hex(l.leafHash)))
    && Field(v, "prev_hash") == Some(Str(Hex(l.prevHash)))
  }

  ghost predicate ShowsRules(v: Json, rs: seq<RuleRef>)
  {
    v.Arr? && |v.items| == |rs| && forall i :: 0 <= i < |rs| ==> ShowsRule(v.items[i], rs[i])
  }

  ghost predicate ShowsEdges(v: Json, es: seq<ProvenanceEdge>)
  {
    v.Arr? && |v.items| == |es| && forall i :: 0 <= i < |es| ==> ShowsEdge(v.items[i], es[i])
  }

  function DecisionWord(d: Decision): string
  {
    match d case Allowed => "allowed" case Denied => "denied" case Approved => "approved" case Pending => "pending"
  }

  /** The keys of a body, declared in this order, `key_id` only when there is one. */
  function DeclaredKeys(keyed: bool): seq<string>
  {
    if keyed
    then ["schema_version", "issued_at", "action", "decision", "constitution_rules", "provenance",
          "redactor_stack_hash", "key_id", "merkle_leaf"]
    else ["schema_version", "issued_at", "action", "decision", "constitution_rules", "provenance",
          "redactor_stack_hash", "merkle_leaf"]
  }

  /** The value is an object with exactly the body's fields, each under its own key. */
  ghost predicate ShowsBody(v: Json, b: ReceiptBody)
  {
    && HasKeys(v, DeclaredKeys(b.keyId.Some?))
    && Field(v, "schema_version") == Some(Num(b.schemaVersion))
    && Field(v, "issued_at") == Some(Str(b.issuedAt))
    && (Field(v, "action").Some? && ShowsAction(Field(v, "action").value, b.action))
    && Field(v, "decision") == Some(Str(DecisionWord(b.decision)))
    && (Field(v, "constitution_rules").Some? && ShowsRules(Field(v, "constitution_rules").value, b.constitutionRules))
    && (Field(v, "provenance").Some? && ShowsEdges(Field(v, "provenance").value, b.provenance))
    && Field(v, "redactor_stack_hash") ==
       Some(match b.redactorStackHash case None => Null case Some(h) => Str(Hex(h)))
    && Field(v, "key_id") == (match b.keyId case None => None case Some(id) => Some(Str(id)))
    && (Field(v, "merkle_leaf").Some? && ShowsLeaf(Field(v, "merkle_leaf").value, b.merkleLeaf))
  }

  /** Every object of a body lists its keys as declared. */
  ghost predicate KeysDeclared(v: Json, keyed: bool)
  {
    && Lists(v, DeclaredKeys(keyed))
    && (Field(v, "action").Some? && Lists(Field(v, "action").value, ["kind", "target", "input_hash"]))
    && (Field(v, "merkle_leaf").Some? && Lists(Field(v, "merkle_leaf").value, ["sequence", "leaf_hash", "prev_hash"]))
    && (Field(v, "constitution_rules").Some? && Field(v, "constitution_rules").value.Arr? &&
        forall i :: 0 <= i < |Field(v, "constitution_rules").value.items| ==>
          Lists(Field(v, "constitution_rules").value.items[i], ["id", "matched"]))
    && (Field(v, "provenance").Some? && Field(v, "provenance").value.Arr? &&
        forall i :: 0 <= i < |Field(v, "provenance").value.items| ==>
          Lists(Field(v, "provenance").value.items[i], ["from", "to", "kind"]))
  }

  // ---------- the value that is printed ----------

  /** A field of an object with distinct keys, by position. */
  lemma FieldAt(ms: seq<Member>, i: nat)
    requires i < |ms| && Distinct(Keys(ms))
    ensures Field(Obj(ms), ms[i].key) == Some(ms[i].value)
  {
    GetAt(ms, i);
  }

  lemma ActionShown(a: Action)
    ensures ShowsAction(ActionJson(a), a) && Lists(ActionJson(a), ["kind", "target", "input_hash"])
  {
    var ms := ActionJson(a).members;
    PartsShape();
    assert Keys(ms) == ["kind", "target", "input_hash"];
    FieldAt(ms, 0);
    FieldAt(ms, 1);
    FieldAt(ms, 2);
  }

  lemma RuleShown(r: RuleRef)
    ensures ShowsRule(RuleJson(r), r) && Lists(RuleJson(r), ["id", "matched"])
  {
    var ms := RuleJson(r).members;
    PartsShape();
    assert Keys(ms) == ["id", "matched"];
    FieldAt(ms, 0);
    FieldAt(ms, 1);
  }

  lemma EdgeShown(e: ProvenanceEdge)
    ensures ShowsEdge(EdgeJson(e), e) && Lists(EdgeJson(e), ["from", "to", "kind"])
  {
    var ms := EdgeJson(e).members;
    PartsShape();
    assert Keys(ms) == ["from", "to", "kind"];
    FieldAt(ms, 0);
    FieldAt(ms, 1);
    FieldAt(ms, 2);
  }

  lemma LeafShown(l: MerkleLeaf)
    ensures ShowsLeaf(LeafJson(l), l) && Lists(LeafJson(l), ["sequence", "leaf_hash", "prev_hash"])
  {
    var ms := LeafJson(l).members;
    PartsShape();
    assert Keys(ms) == ["sequence", "leaf_hash", "prev_hash"];
    FieldAt(ms, 0);
    FieldAt(ms, 1);
    FieldAt(ms, 2);
  }

  // The short key lists repeat nothing.
  lemma PartsShape()
    ensures Distinct(["kind", "target", "input_hash"]) && Distinct(["id", "matched"])
    ensures Distinct(["from", "to", "kind"]) && Distinct(["sequence", "leaf_hash", "prev_hash"])
  {
    assert |"kind"| == 4 && |"target"| == 6 && |"input_hash"| == 10 && |"from"| == 4 && |"to"| == 2;
    assert "from"[0] == 'f' && "kind"[0] == 'k' && |"leaf_hash"| == 9 && "leaf_hash"[0] == 'l' && "prev_hash"[0] == 'p';
  }

  lemma BodyKeysDeclared(b: ReceiptBody)
    ensures Keys(BodyMembers(b)) == DeclaredKeys(b.keyId.Some?) && Distinct(Keys(BodyMembers(b)))
  {
    BodyKeysAre(b);
    BodyKeysDistinct(b.keyId.Some?);
    assert BodyKeys(b.keyId.Some?) == DeclaredKeys(b.keyId.Some?);
  }

  lemma MembersAre(b: ReceiptBody)
    ensures var ms, n := BodyMembers(b), |BodyMembers(b)|;
      && n == (if b.keyId.Some? then 9 else 8)
      && ms[0] == Member("schema_version", Num(b.schemaVersion)) && ms[1] == Member("issued_at", Str(b.issuedAt))
      && ms[2] == Member("action", ActionJson(b.action)) && ms[3] == Member("decision", Str(DecisionWord(b.decision)))
      && ms[4] == Member("constitution_rules", RulesJson(b.constitutionRules))
      && ms[5] == Member("provenance", EdgesJson(b.provenance))
      && ms[6] == Member("redactor_stack_hash", RedactorJson(b.redactorStackHash))
      && (b.keyId.Some? ==> ms[7] == Member("key_id", Str(b.keyId.value)))
      && ms[n - 1] == Member("merkle_leaf", LeafJson(b.merkleLeaf))
  {
  }

  lemma FieldIs(ms: seq<Member>, i: nat, m: Member)
    requires i < |ms| && Distinct(Keys(ms)) && ms[i] == m
    ensures Field(Obj(ms), m.key) == Some(m.value)
  {
    FieldAt(ms, i);
  }

  /** The fields of a body's value, for any list of members like it. */
  lemma BodyFields(b: ReceiptBody, ms: seq<Member>)
    requires ms == BodyMembers(b)
    ensures var v := Obj(ms);
      && Field(v, "schema_version") == Some(Num(b.schemaVersion)) && Field(v, "issued_at") == Some(Str(b.issuedAt))
      && Field(v, "action") == Some(ActionJson(b.action)) && Field(v, "decision") == Some(Str(DecisionWord(b.decision)))
      && Field(v, "constitution_rules") == Some(RulesJson(b.constitutionRules))
      && Field(v, "provenance") == Some(EdgesJson(b.provenance))
      && Field(v, "redactor_stack_hash") == Some(RedactorJson(b.redactorStackHash))
      && Field(v, "key_id") == (match b.keyId case None => None case Some(id) => Some(Str(id)))
      && Field(v, "merkle_leaf") == Some(LeafJson(b.merkleLeaf))
  {
    MembersAre(b);
    BodyKeysDeclared(b);
    BodyKeysAre(b);
    FieldIs(ms, 0, Member("schema_version", Num(b.schemaVersion)));
    FieldIs(ms, 1, Member("issued_at", Str(b.issuedAt)));
    FieldIs(ms, 2, Member("action", ActionJson(b.action)));
    FieldIs(ms, 3, Member("decision", Str(DecisionWord(b.decision))));
    FieldIs(ms, 4, Member("constitution_rules", RulesJson(b.constitutionRules)));
    FieldIs(ms, 5, Member("provenance", EdgesJson(b.provenance)));
    FieldIs(ms, 6, Member("redactor_stack_hash", RedactorJson(b.redactorStackHash)));
    if b.keyId.Some? {
      FieldIs(ms, 7, Member("key_id", Str(b.keyId.value)));
    }
    FieldIs(ms, |ms| - 1, Member("merkle_leaf", LeafJson(b.merkleLeaf)));
  }

  lemma RulesShown(rs: seq<RuleRef>)
    ensures ShowsRules(RulesJson(rs), rs)
    ensures forall i :: 0 <= i < |rs| ==> Lists(RulesJson(rs).items[i], ["id", "matched"])
  {
    forall i | 0 <= i < |rs| ensures ShowsRule(RulesJson(rs).items[i], rs[i]) && Lists(RulesJson(rs).items[i], ["id", "matched"]) {
      RuleShown(rs[i]);
    }
  }

  lemma EdgesShown(es: seq<ProvenanceEdge>)
    ensures ShowsEdges(EdgesJson(es), es)
    ensures forall i :: 0 <= i < |es| ==> Lists(EdgesJson(es).items[i], ["from", "to", "kind"])
  {
    forall i | 0 <= i < |es| ensures ShowsEdge(EdgesJson(es).items[i], es[i]) && Lists(EdgesJson(es).items[i], ["from", "to", "kind"]) {
      EdgeShown(es[i]);
    }
  }

  /** The body's own value, before any sorting. */
  lemma BodyShown(b: ReceiptBody)
    ensures ShowsBody(BodyJson(b), b) && KeysDeclared(BodyJson(b), b.keyId.Some?)
  {
    BodyKeysDeclared(b);
    BodyFields(b, BodyMembers(b));
    ActionShown(b.action);
    LeafShown(b.merkleLeaf);
    RulesShown(b.constitutionRules);
    EdgesShown(b.provenance);
  }

  // ---------- sorting keeps what is shown ----------

  lemma SameField(v: Json, w: Json, k: string)
    requires SameValue(v, w)
    ensures Field(v, k).Some? <==> Field(w, k).Some?
    ensures Field(v, k).Some? ==> SameValue(Field(v, k).value, Field(w, k).value)
  {
  }

  lemma SameKeys(v: Json, w: Json, ks: seq<string>)
    requires SameValue(v, w) && HasKeys(v, ks)
    ensures HasKeys(w, ks)
  {
  }

  lemma SameActionShown(v: Json, w: Json, a: Action)
    requires SameValue(v, w) && ShowsAction(v, a)
    ensures ShowsAction(w, a)
  {
    SameKeys(v, w, ["kind", "target", "input_hash"]);
    SameField(v, w, "kind");
    SameField(v, w, "target");
    SameField(v, w, "input_hash");
  }

  lemma SameRuleShown(v: Json, w: Json, r: RuleRef)
    requires SameValue(v, w) && ShowsRule(v, r)
    ensures ShowsRule(w, r)
  {
    SameKeys(v, w, ["id", "matched"]);
    SameField(v, w, "id");
    SameField(v, w, "matched");
  }

  lemma SameEdgeShown(v: Json, w: Json, e: ProvenanceEdge)
    requires SameValue(v, w) && ShowsEdge(v, e)
    ensures ShowsEdge(w, e)
  {
    SameKeys(v, w, ["from", "to", "kind"]);
    SameField(v, w, "from");
    SameField(v, w, "to");
    SameField(v, w, "kind");
  }

  lemma SameLeafShown(v: Json, w: Json, l: MerkleLeaf)
    requires SameValue(v, w) && ShowsLeaf(v, l)
    ensures ShowsLeaf(w, l)
  {
    SameKeys(v, w, ["sequence", "leaf_hash", "prev_hash"]);
    SameField(v, w, "sequence");
    SameField(v, w, "leaf_hash");
    SameField(v, w, "prev_hash");
  }

  lemma SameRulesShown(v: Json, w: Json, rs: seq<RuleRef>)
    requires SameValue(v, w) && ShowsRules(v, rs)
    ensures ShowsRules(w, rs)
  {
    forall i | 0 <= i < |rs| ensures ShowsRule(w.items[i], rs[i]) {
      SameRuleShown(v.items[i], w.items[i], rs[i]);
    }
  }

  lemma SameEdgesShown(v: Json, w: Json, es: seq<ProvenanceEdge>)
    requires SameValue(v, w) && ShowsEdges(v, es)
    ensures ShowsEdges(w, es)
  {
    forall i | 0 <= i < |es| ensures ShowsEdge(w.items[i], es[i]) {
      SameEdgeShown(v.items[i], w.items[i], es[i]);
    }
  }

  // A field that is no object or array is the same in both.
  lemma SamePlainField(v: Json, w: Json, k: string)
    requires SameValue(v, w) && (Field(v, k).Some? ==> !Field(v, k).value.Obj? && !Field(v, k).value.Arr?)
    ensures Field(w, k) == Field(v, k)
  {
    SameField(v, w, k);
  }

  lemma SameBodyShown(v: Json, w: Json, b: ReceiptBody)
    requires SameValue(v, w) && ShowsBody(v, b)
    ensures ShowsBody(w, b)
  {
    SameKeys(v, w, DeclaredKeys(b.keyId.Some?));
    SamePlainField(v, w, "schema_version");
    SamePlainField(v, w, "issued_at");
    SamePlainField(v, w, "decision");
    SamePlainField(v, w, "redactor_stack_hash");
    SamePlainField(v, w, "key_id");
    SameField(v, w, "action");
    SameActionShown(Field(v, "action").value, Field(w, "action").value, b.action);
    SameField(v, w, "constitution_rules");
    SameRulesShown(Field(v, "constitution_rules").value, Field(w, "constitution_rules").value, b.constitutionRules);
    SameField(v, w, "provenance");
    SameEdgesShown(Field(v, "provenance").value, Field(w, "provenance").value, b.provenance);
    SameField(v, w, "merkle_leaf");
    SameLeafShown(Field(v, "merkle_leaf").value, Field(w, "merkle_leaf").value, b.merkleLeaf);
  }

  lemma {:induction false} CanonAscends(v: Json)
    requires WellFormed(v)
    ensures KeysAscend(Canon(ByUtf16, v))
    decreases v
  {
    match v
    case Arr(items) =>
      forall i | 0 <= i < |items| ensures KeysAscend(Canon(ByUtf16, items[i])) {
        CanonAscends(items[i]);
      }
    case Obj(ms) =>
      var c := Canon(ByUtf16, v).members;
      CanonObject(ByUtf16, ms);
      forall i | 0 <= i < |c| ensures KeysAscend(c[i].value) {
        CanonObjectAt(ByUtf16, ms, i);
        CanonAscends(Get(ms, SortKeys(ByUtf16, Keys(ms))[i]));
      }
    case _ =>
  }

  // ---------- the signed bytes ----------

  /** The bytes are the UTF-8 of a text that reads, whole, as the value. */
  ghost predicate BytesOf(bytes: seq<byte>, v: Json)
  {
    exists t: string :: bytes == Encode(t) && ParseValue(t) == Some((v, ""))
  }

  lemma PrintedBytes(v: Json)
    ensures BytesOf(Encode(Emit(v)), v)
  {
    ParseEmit(v, "");
    assert Emit(v) + "" == Emit(v);
  }

  /** From schema version 2 on the signed bytes spell a value that shows the body, every object's
      keys ascending by UTF-16. */
  lemma PreimageIsCanonical(b: ReceiptBody)
    requires b.schemaVersion >= 2
    ensures exists v :: BytesOf(Preimage(b), v) && ShowsBody(v, b) && KeysAscend(v)
  {
    var v := Canon(ByUtf16, BodyJson(b));
    BodyWellFormed(b);
    BodyShown(b);
    CanonKeepsValue(ByUtf16, BodyJson(b));
    SameBodyShown(BodyJson(b), v, b);
    CanonAscends(BodyJson(b));
    PrintedBytes(v);
    assert BytesOf(Preimage(b), v) && ShowsBody(v, b) && KeysAscend(v);
  }

  /** Up to schema version 1 they spell a value that shows the body, every object's keys as
      declared. */
  lemma PreimageIsDeclared(b: ReceiptBody)
    requires b.schemaVersion <= 1
    ensures exists v :: BytesOf(Preimage(b), v) && ShowsBody(v, b) && KeysDeclared(v, b.keyId.Some?)
  {
    var v := BodyJson(b);
    BodyShown(b);
    PrintedBytes(v);
    assert BytesOf(Preimage(b), v) && ShowsBody(v, b) && KeysDeclared(v, b.keyId.Some?);
  }

  /** Content id, signing and verification of the body are all over these bytes. */
  ghost predicate Covered(p: Primitives, b: ReceiptBody, bytes: seq<byte>)
  {
    && Instance(p).contentId(b) == p.hash(bytes)
    && Instance(p).sign(b).signature == p.signBytes(bytes)
    && forall r: Receipt :: r.body == b && r.version <= 2 ==>
         (Instance(p).verify(r) <==> p.verifyBytes(r.issuer, bytes, r.signature))
  }

  lemma PreimageCovered(p: Primitives, b: ReceiptBody)
    ensures Covered(p, b, Preimage(b))
  {
  }

  /** With the concrete services, content id and signature of a current body cover such canonical
      bytes. */
  lemma IdAndSignatureCoverText(p: Primitives, b: ReceiptBody)
    requires b.schemaVersion >= 2
    ensures exists bytes, v :: Covered(p, b, bytes) && BytesOf(bytes, v) && ShowsBody(v, b) && KeysAscend(v)
  {
    PreimageCovered(p, b);
    var bytes := Preimage(b);
    PreimageShows(b, bytes);
  }

  lemma PreimageShows(b: ReceiptBody, bytes: seq<byte>)
    requires b.schemaVersion >= 2 && bytes == Preimage(b)
    ensures exists v :: BytesOf(bytes, v) && ShowsBody(v, b) && KeysAscend(v)
  {
    PreimageIsCanonical(b);
  }

  // ---------- the leaf ----------

  /** The number some bytes stand for, least significant first. */
  function LittleEndian(b: seq<byte>): nat
  {
    if b == [] then 0 else b[0] + 256 * LittleEndian(b[1..])
  }

  lemma {:induction false} LeBytesSpell(n: nat, k: nat)
    requires Fits(n, k)
    ensures LittleEndian(LeBytes(n, k)) == n
  {
    if k > 0 {
      LeBytesSpell(n / 256, k - 1);
      assert LeBytes(n, k)[1..] == LeBytes(n / 256, k - 1);
    }
  }

  lemma Layout(head: seq<byte>, a: seq<byte>, b: seq<byte>, c: seq<byte>, tail: seq<byte>)
    ensures var x := head + a + b + c + tail;
      x[..|head|] == head && x[|head|..|x| - |tail|] == a + b + c && x[|x| - |tail|..] == tail
  {
    SplitPreimage(head, a, b, c, tail);
    var m := a + b + c;
    assert (head + m + tail)[..|head|] == head;
    assert (head + m + tail)[|head|..|head| + |m|] == m;
  }

  /** The layout of a leaf preimage: eight bytes of sequence number, least significant first; the
      UTF-8 of the timestamp, of a JSON text of the action in declared key order, and of the
      quoted decision word; and the thirty-two bytes of the previous hash. */
  lemma LeafLayout(f: LeafFields)
    ensures var b := LeafPreimage(f);
      && |b| >= 40 && LittleEndian(b[..8]) == f.sequence && b[|b| - 32..] == f.prevHash
      && exists t, v ::
           && b[8..|b| - 32] == Encode(f.issuedAt + t + ("\"" + DecisionWord(f.decision) + "\""))
           && ParseValue(t) == Some((v, "")) && ShowsAction(v, f.action) && Lists(v, ["kind", "target", "input_hash"])
  {
    var b := LeafPreimage(f);
    var t, v := ActionText(f.action), ActionJson(f.action);
    U64Fits(f.sequence);
    LeBytesSpell(f.sequence, 8);
    Layout(LeBytes(f.sequence, 8), Encode(f.issuedAt), Encode(t), Encode(DecisionText(f.decision)), f.prevHash);
    MiddleIsText(f.issuedAt, f.action, f.decision);
    DecisionTextIs(f.decision);
    ActionShown(f.action);
    ParseEmit(v, "");
    assert Emit(v) + "" == t;
    assert b[8..|b| - 32] == Encode(f.issuedAt + t + ("\"" + DecisionWord(f.decision) + "\""));
  }
}
