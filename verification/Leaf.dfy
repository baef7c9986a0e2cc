/** The leaf-hash preimage of the audit chain, and the concrete services built from BLAKE3
    and Ed25519. */
module Leaf {
  import opened Utf8
  import opened Json
  import opened Receipts
  import opened Crypto

  // ---------- the leaf preimage ----------

  /** `k` bytes of `n`, least significant first. */
  function LeBytes(n: nat, k: nat): (b: seq<byte>)
    ensures |b| == k
  {
    if k == 0 then [] else [n % 256] + LeBytes(n / 256, k - 1)
  }

  function ActionText(a: Action): (t: string) { Emit(ActionJson(a)) }

  function DecisionText(d: Decision): (t: string) { Emit(Str(DecisionName(d))) }

  /** The fields joined without separators. */
  function LeafPreimage(f: LeafFields): (b: seq<byte>)
  {
    LeBytes(f.sequence, 8) + Encode(f.issuedAt) + Encode(ActionText(f.action)) + Encode(DecisionText(f.decision)) + f.prevHash
  }

  /** An incremental hasher: `update` appends, `finalize` digests all of it. */
  class Hasher {
    const hash: seq<byte> -> Digest
    var fed: seq<byte>

    constructor (h: seq<byte> -> Digest)
      ensures hash == h && fed == []
    {
      hash := h;
      fed := [];
    }

    method Update(b: seq<byte>)
      modifies this
      ensures fed == old(fed) + b
    {
      fed := fed + b;
    }

    method Finalize() returns (d: Digest)
      ensures d == hash(fed)
    {
      d := hash(fed);
    }
  }

  lemma FedInOrder(a: seq<byte>, b: seq<byte>, c: seq<byte>, d: seq<byte>, e: seq<byte>)
    ensures [] + a + b + c + d + e == a + b + c + d + e
  {
    assert [] + a == a;
  }

  method ComputeLeafHash(hash: seq<byte> -> Digest, f: LeafFields) returns (d: Digest)
    ensures d == hash(LeafPreimage(f))
  {
    var hasher := new Hasher(hash);
    hasher.Update(LeBytes(f.sequence, 8));
    hasher.Update(Encode(f.issuedAt));
    hasher.Update(Encode(ActionText(f.action)));
    hasher.Update(Encode(DecisionText(f.decision)));
    hasher.Update(f.prevHash);
    FedInOrder(LeBytes(f.sequence, 8), Encode(f.issuedAt), Encode(ActionText(f.action)), Encode(DecisionText(f.decision)), f.prevHash);
    d := hasher.Finalize();
  }

  // ---------- the split can be recovered ----------

  predicate Fits(n: nat, k: nat) { if k == 0 then n == 0 else Fits(n / 256, k - 1) }

  lemma {:induction false} LeBytesInjective(m: nat, n: nat, k: nat)
    requires Fits(m, k) && Fits(n, k) && LeBytes(m, k) == LeBytes(n, k)
    ensures m == n
  {
    if k > 0 {
      assert LeBytes(m, k)[0] == LeBytes(n, k)[0];
      assert LeBytes(m / 256, k - 1) == LeBytes(m, k)[1..] == LeBytes(n, k)[1..] == LeBytes(n / 256, k - 1);
      LeBytesInjective(m / 256, n / 256, k - 1);
    }
  }

  lemma U64Fits(n: u64)
    ensures Fits(n, 8)
  {
    var a := n / 256;
    var b := a / 256;
    var c := b / 256;
    var d := c / 256;
    assert Fits(d / 256 / 256 / 256 / 256, 0);
    assert Fits(d / 256 / 256 / 256, 1);
    assert Fits(d, 4);
    assert Fits(b, 6);
  }

  // In escaped text every quotation mark follows a backslash.
  lemma {:induction false} QuoteIsEscaped(s: string, i: nat)
    requires i < |Escape(s)| && Escape(s)[i] == '\"'
    ensures i > 0 && Escape(s)[i - 1] == '\\'
  {
    var e := EscapeChar(s[0]);
    if i >= |e| {
      QuoteIsEscaped(s[1..], i - |e|);
    }
  }

  lemma EscapeInjective(s: string, t: string)
    requires Escape(s) == Escape(t)
    ensures s == t
  {
    ParseEscaped(s, "");
    ParseEscaped(t, "");
  }

  /** The last unescaped `:"` marks where the last quoted text begins. */
  lemma LastQuoted(a: string, s: string, b: string, t: string)
    requires a + ":\"" + Escape(s) == b + ":\"" + Escape(t)
    ensures a == b && s == t
  {
    var x, y := a + ":\"" + Escape(s), b + ":\"" + Escape(t);
    if |a| > |b| {
      NoLaterColon(b, t, a, s);
    } else if |b| > |a| {
      NoLaterColon(a, s, b, t);
    } else {
      assert a == x[..|a|] == y[..|b|] == b;
      assert Escape(s) == x[|a| + 2..] == y[|b| + 2..] == Escape(t);
      EscapeInjective(s, t);
    }
  }

  lemma NoLaterColon(a: string, s: string, b: string, t: string)
    requires |a| < |b|
    ensures a + ":\"" + Escape(s) != b + ":\"" + Escape(t)
  {
    var x, y := a + ":\"" + Escape(s), b + ":\"" + Escape(t);
    var i := |b| - |a| - 1;
    assert y[|b|] == ':' && y[|b| + 1] == '\"';
    if |x| == |y| {
      assert x[|b| + 1] == Escape(s)[i];
      if Escape(s)[i] == '\"' {
        QuoteIsEscaped(s, i);
        assert x[|b|] == Escape(s)[i - 1];
      }
    }
  }

  // Text that escaping leaves as it is.
  predicate Plain(t: string) { forall i :: 0 <= i < |t| ==> EscapeChar(t[i]) == [t[i]] }

  lemma {:induction false} PlainEscape(t: string)
    requires Plain(t)
    ensures Escape(t) == t
  {
    if t != "" {
      PlainEscape(t[1..]);
    }
  }

  /** Lower-case letters and underscores. */
  predicate Lettered(t: string) { forall i :: 0 <= i < |t| ==> 'a' <= t[i] <= 'z' || t[i] == '_' }

  lemma LettersPlain(t: string)
    requires Lettered(t)
    ensures Plain(t)
  {
    forall i | 0 <= i < |t| ensures EscapeChar(t[i]) == [t[i]] {
      LetterPlain(t[i]);
    }
  }

  lemma LetterPlain(c: char)
    requires 'a' <= c <= 'z' || c == '_'
    ensures EscapeChar(c) == [c]
  {
  }

  lemma DecisionNamePlain(d: Decision)
    ensures Plain(DecisionName(d)) && 6 <= |DecisionName(d)| <= 8
  {
    LettersPlain(DecisionName(d));
  }

  lemma DecisionTextIs(d: Decision)
    ensures DecisionText(d) == "\"" + DecisionName(d) + "\""
    ensures 6 <= |DecisionName(d)| <= 8
  {
    DecisionNamePlain(d);
    PlainEscape(DecisionName(d));
  }

  lemma QuotedEnd(s: string, n: string)
    requires |n| >= 3
    ensures var x := s + ("\"" + n + "\""); x[|x| - 4] == n[|n| - 3] && x[|x| - 3] == n[|n| - 2]
  {
  }

  lemma FromEnd(s: string, d: Decision)
    ensures var x, n := s + DecisionText(d), DecisionName(d);
      |n| >= 6 && |x| >= 8 && x[|x| - 4] == n[|n| - 3] && x[|x| - 3] == n[|n| - 2]
  {
    DecisionTextIs(d);
    QuotedEnd(s, DecisionName(d));
  }

  lemma DecisionFromEnd(d: Decision, e: Decision)
    requires DecisionName(d)[|DecisionName(d)| - 3] == DecisionName(e)[|DecisionName(e)| - 3]
    requires DecisionName(d)[|DecisionName(d)| - 2] == DecisionName(e)[|DecisionName(e)| - 2]
    ensures d == e
  {
  }

  /** The decision is read off the end of the text. */
  lemma LastDecision(s: string, d: Decision, t: string, e: Decision)
    requires s + DecisionText(d) == t + DecisionText(e)
    ensures s == t && d == e
  {
    DecisionTextIs(d);
    DecisionTextIs(e);
    FromEnd(s, d);
    FromEnd(t, e);
    DecisionFromEnd(d, e);
    SameTail(s, DecisionText(d), t, DecisionText(e));
  }

  lemma SameTail(s: string, a: string, t: string, b: string)
    requires s + a == t + b && |a| == |b|
    ensures s == t && a == b
  {
    var x, y := s + a, t + b;
    assert s == x[..|s|] && t == y[..|t|] && a == x[|s|..] && b == y[|t|..];
  }

  // Hex digits need no escaping.
  lemma {:induction false} HexPlain(b: seq<byte>)
    ensures Escape(Hex(b)) == Hex(b)
  {
    if b != [] {
      var h := Hex(b);
      HexPlain(b[1..]);
      assert h[1..][1..] == Hex(b[1..]);
      assert EscapeChar(h[0]) == [h[0]] && EscapeChar(h[1]) == [h[1]];
      assert Escape(h) == [h[0]] + Escape(h[1..]);
    }
  }

  // The text of an action, split at its two quoted fields and its fixed-width end.
  function ActionHead(a: Action): (t: string) { "{\"kind\"" + ":\"" + Escape(a.kind) + "\",\"target\"" }

  function ActionEnd(a: Action): (t: string) { "\",\"input_hash\":\"" + Hex(a.inputHash) + "\"}" }

  lemma ActionTextIs(a: Action)
    ensures ActionText(a) == ActionHead(a) + ":\"" + Escape(a.target) + ActionEnd(a)
  {
    var ms := ActionJson(a).members;
    ThreeMembers(ms);
    ActionMembers(a);
    HexPlain(a.inputHash);
    ActionShape(Escape(a.kind), Escape(a.target), Hex(a.inputHash), EmitMember(ms[0]), EmitMember(ms[1]), EmitMember(ms[2]));
  }

  lemma ActionMembers(a: Action)
    ensures var ms := ActionJson(a).members;
      EmitMember(ms[0]) == KeyText("kind") + Quote(a.kind) &&
      EmitMember(ms[1]) == KeyText("target") + Quote(a.target) &&
      EmitMember(ms[2]) == KeyText("input_hash") + Quote(Hex(a.inputHash))
  {
    var ms := ActionJson(a).members;
    forall m | m in ms ensures Plain(m.key) {
      ActionKeysPlain(a, m);
    }
    PlainMember(ms[0]);
    PlainMember(ms[1]);
    PlainMember(ms[2]);
  }

  lemma ActionKeysPlain(a: Action, m: Member)
    requires m in ActionJson(a).members
    ensures Plain(m.key)
  {
    assert m.key == "kind" || m.key == "target" || m.key == "input_hash";
    LettersPlain(m.key);
  }

  function KeyText(key: string): string { "\"" + key + "\"" + ":" }

  lemma PlainMember(m: Member)
    requires Plain(m.key) && m.value.Str?
    ensures EmitMember(m) == KeyText(m.key) + Quote(m.value.s)
  {
    PlainEscape(m.key);
  }

  lemma EmitMembersStep(ms: seq<Member>, first: bool)
    requires ms != []
    ensures EmitMembers(ms, first) == Sep(first) + EmitMember(ms[0]) + EmitMembers(ms[1..], false)
  {
  }

  lemma ThreeMembers(ms: seq<Member>)
    requires |ms| == 3
    ensures EmitMembers(ms, true) == EmitMember(ms[0]) + ("," + EmitMember(ms[1]) + ("," + EmitMember(ms[2])))
  {
    var t, u := ms[1..], ms[2..];
    EmitMembersStep(ms, true);
    assert t[0] == ms[1] && t[1..] == u;
    EmitMembersStep(t, false);
    assert u[0] == ms[2];
    LastMember(u);
    assert "" + EmitMember(ms[0]) == EmitMember(ms[0]);
  }

  lemma LastMember(ms: seq<Member>)
    requires |ms| == 1
    ensures EmitMembers(ms, false) == "," + EmitMember(ms[0])
  {
    assert ms[1..] == [];
    assert "," + EmitMember(ms[0]) + "" == "," + EmitMember(ms[0]);
  }

  lemma ActionShape(k: string, t: string, h: string, m0: string, m1: string, m2: string)
    requires m0 == KeyText("kind") + ("\"" + k + "\"")
    requires m1 == KeyText("target") + ("\"" + t + "\"")
    requires m2 == KeyText("input_hash") + ("\"" + h + "\"")
    ensures "{" + (m0 + ("," + m1 + ("," + m2))) + "}" ==
      ("{\"kind\"" + ":\"" + k + "\",\"target\"") + ":\"" + t + ("\",\"input_hash\":\"" + h + "\"}")
  {
    assert "{" + KeyText("kind") + "\"" == "{\"kind\"" + ":\"";
    assert "\"" + "," + KeyText("target") + "\"" == "\",\"target\"" + ":\"";
    assert "\"" + "," + KeyText("input_hash") + "\"" == "\",\"input_hash\":\"";
    assert "\"" + "}" == "\"}";
    Regroup("{", KeyText("kind"), KeyText("target"), KeyText("input_hash"), "\"", ",", "}", k, t, h);
    Assoc("{\"kind\"" + ":\"" + k, "\",\"target\"", ":\"");
  }

  // Texts between keys and quotes, cut at the quoted fields instead.
  lemma Regroup(o: string, q0: string, q1: string, q2: string, u: string, c: string, z: string, k: string, t: string, h: string)
    ensures o + ((q0 + (u + k + u)) + (c + (q1 + (u + t + u)) + (c + (q2 + (u + h + u))))) + z ==
      ((o + q0 + u) + k + (u + c + q1 + u)) + t + ((u + c + q2 + u) + h + (u + z))
  {
  }

  /** An action is read off the end of any text that ends with it. */
  lemma LastAction(s: string, a: Action, t: string, b: Action)
    requires s + ActionText(a) == t + ActionText(b)
    ensures s == t && a == b
  {
    ActionTextIs(a);
    ActionTextIs(b);
    Assoc(s, ActionHead(a) + ":\"" + Escape(a.target), ActionEnd(a));
    Assoc(t, ActionHead(b) + ":\"" + Escape(b.target), ActionEnd(b));
    SameTail(s + (ActionHead(a) + ":\"" + Escape(a.target)), ActionEnd(a),
             t + (ActionHead(b) + ":\"" + Escape(b.target)), ActionEnd(b));
    SameHash(a, b);
    Assoc(s, ActionHead(a) + ":\"", Escape(a.target));
    Assoc(s, ActionHead(a), ":\"");
    Assoc(t, ActionHead(b) + ":\"", Escape(b.target));
    Assoc(t, ActionHead(b), ":\"");
    LastQuoted(s + ActionHead(a), a.target, t + ActionHead(b), b.target);
    LastKind(s, a, t, b);
  }

  lemma SameHash(a: Action, b: Action)
    requires ActionEnd(a) == ActionEnd(b)
    ensures a.inputHash == b.inputHash
  {
    var n := |"\",\"input_hash\":\""|;
    assert Hex(a.inputHash) == ActionEnd(a)[n..n + 64] && Hex(b.inputHash) == ActionEnd(b)[n..n + 64];
    HexInjective(a.inputHash, b.inputHash);
  }

  lemma LastKind(s: string, a: Action, t: string, b: Action)
    requires s + ActionHead(a) == t + ActionHead(b)
    ensures s == t && a.kind == b.kind
  {
    var end := "\",\"target\"";
    assert s + ActionHead(a) == ((s + "{\"kind\"") + ":\"" + Escape(a.kind)) + end;
    assert t + ActionHead(b) == ((t + "{\"kind\"") + ":\"" + Escape(b.kind)) + end;
    SameTail((s + "{\"kind\"") + ":\"" + Escape(a.kind), end, (t + "{\"kind\"") + ":\"" + Escape(b.kind), end);
    LastQuoted(s + "{\"kind\"", a.kind, t + "{\"kind\"", b.kind);
    SameTail(s, "{\"kind\"", t, "{\"kind\"");
  }

  lemma MiddleIsText(issuedAt: string, action: Action, decision: Decision)
    ensures Encode(issuedAt) + Encode(ActionText(action)) + Encode(DecisionText(decision)) ==
      Encode(issuedAt + ActionText(action) + DecisionText(decision))
  {
    EncodeConcat(issuedAt, ActionText(action));
    EncodeConcat(issuedAt + ActionText(action), DecisionText(decision));
  }

  lemma SplitPreimage(head: seq<byte>, a: seq<byte>, b: seq<byte>, c: seq<byte>, tail: seq<byte>)
    ensures head + a + b + c + tail == head + (a + b + c) + tail
  {
    Assoc(head + a, b, c);
    Assoc(head, a, b + c);
    Assoc(a, b, c);
  }

  lemma SameEnds(h: seq<byte>, m: seq<byte>, t: seq<byte>, h': seq<byte>, m': seq<byte>, t': seq<byte>)
    requires h + m + t == h' + m' + t' && |h| == |h'| && |t| == |t'|
    ensures h == h' && m == m' && t == t'
  {
    var x, y := h + m + t, h' + m' + t';
    assert |m| == |m'|;
    assert h == x[..|h|] == y[..|h|] == h';
    assert m == x[|h|..|h| + |m|] == y[|h|..|h| + |m|] == m';
    assert t == x[|h| + |m|..] == y[|h| + |m|..] == t';
  }

  /** The leaf preimage determines every field it joins, for all timestamps and all action
      strings: the eight and thirty-two fixed bytes at the ends come off first, then the
      decision, and then the action is read from the right, where escaping keeps its quoted
      fields apart from anything before them. */
  lemma LeafPreimageInjective(f: LeafFields, g: LeafFields)
    ensures LeafPreimage(f) == LeafPreimage(g) <==> f == g
  {
    if LeafPreimage(f) == LeafPreimage(g) {
      SameLeafFields(f, g);
    }
  }

  lemma SameLeafFields(f: LeafFields, g: LeafFields)
    requires LeafPreimage(f) == LeafPreimage(g)
    ensures f == g
  {
    var x := f.issuedAt + ActionText(f.action) + DecisionText(f.decision);
    var y := g.issuedAt + ActionText(g.action) + DecisionText(g.decision);
    SplitPreimage(LeBytes(f.sequence, 8), Encode(f.issuedAt), Encode(ActionText(f.action)), Encode(DecisionText(f.decision)), f.prevHash);
    SplitPreimage(LeBytes(g.sequence, 8), Encode(g.issuedAt), Encode(ActionText(g.action)), Encode(DecisionText(g.decision)), g.prevHash);
    MiddleIsText(f.issuedAt, f.action, f.decision);
    MiddleIsText(g.issuedAt, g.action, g.decision);
    SameEnds(LeBytes(f.sequence, 8), Encode(x), f.prevHash, LeBytes(g.sequence, 8), Encode(y), g.prevHash);
    U64Fits(f.sequence);
    U64Fits(g.sequence);
    LeBytesInjective(f.sequence, g.sequence, 8);
    EncodeInjective(x, y);
    LastDecision(f.issuedAt + ActionText(f.action), f.decision, g.issuedAt + ActionText(g.action), g.decision);
    LastAction(f.issuedAt, f.action, g.issuedAt, g.action);
  }

  // ---------- the concrete services ----------

  /** The primitives: BLAKE3, one Ed25519 key pair, and Ed25519 verification. */
  datatype Primitives = Primitives(
    hash: seq<byte> -> Digest,
    publicKey: PublicKey,
    signBytes: seq<byte> -> Signature,
    verifyBytes: (PublicKey, seq<byte>, Signature) -> bool)

  /** Signatures made with the key verify under the key. */
  ghost predicate Correct(p: Primitives)
  {
    forall m: seq<byte> :: p.verifyBytes(p.publicKey, m, p.signBytes(m))
  }

  function Instance(p: Primitives): Crypto
  {
    Crypto(p.publicKey,
           (b: ReceiptBody) => Receipt(RECEIPT_FORMAT_VERSION, b, p.publicKey, p.signBytes(Preimage(b))),
           (r: Receipt) => r.version <= RECEIPT_FORMAT_VERSION && p.verifyBytes(r.issuer, Preimage(r.body), r.signature),
           (b: ReceiptBody) => p.hash(Preimage(b)),
           (f: LeafFields) => p.hash(LeafPreimage(f)))
  }

  /** Two different byte strings share a digest. */
  ghost predicate Collision(p: Primitives, x: seq<byte>, y: seq<byte>)
  {
    x != y && p.hash(x) == p.hash(y)
  }

  /** The concrete signer meets the kernel's contract. */
  lemma InstanceSigns(p: Primitives)
    requires Correct(p)
    ensures SignerContract(Instance(p))
  {
    var c := Instance(p);
    forall b: ReceiptBody
      ensures var r := c.sign(b);
        r.body == b && r.issuer == c.publicKey && r.version == RECEIPT_FORMAT_VERSION && c.verify(r)
    {
      var m := Preimage(b);
      assert p.verifyBytes(p.publicKey, m, p.signBytes(m));
    }
  }

  /** Verification accepts any version up to the current one, whatever was signed under. */
  lemma RelabelledVerifies(p: Primitives, b: ReceiptBody, version: u32)
    requires Correct(p) && version <= RECEIPT_FORMAT_VERSION
    ensures var c := Instance(p);
      var r := c.sign(b).(version := version);
      r.body == b && c.verify(r)
  {
    var m := Preimage(b);
    assert p.verifyBytes(p.publicKey, m, p.signBytes(m));
  }

  /** A clash of content ids, or of leaf hashes, is a BLAKE3 collision. */
  lemma IdClashIsCollision(p: Primitives, a: ReceiptBody, b: ReceiptBody)
    requires IdClash(Instance(p), a, b)
    ensures Collision(p, Preimage(a), Preimage(b))
  {
    PreimageInjective(a, b);
  }

  lemma LeafClashIsCollision(p: Primitives, f: LeafFields, g: LeafFields)
    requires LeafClash(Instance(p), f, g)
    ensures Collision(p, LeafPreimage(f), LeafPreimage(g))
  {
    LeafPreimageInjective(f, g);
  }
}
