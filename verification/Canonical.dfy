/** The RFC 8785 canonicalizer: what it prints, when two values print alike, and where the
    Python port, which sorts by code point, agrees. */
module Canonical {
  import opened Wrappers
  import opened Utf8
  import opened Utf16
  import opened Json

  // ---------- objects ----------

  function Keys(ms: seq<Member>): (ks: seq<string>)
    ensures |ks| == |ms| && forall i :: 0 <= i < |ms| ==> ks[i] == ms[i].key
  {
    seq(|ms|, i requires 0 <= i < |ms| => ms[i].key)
  }

  predicate Distinct(ks: seq<string>)
  {
    forall i, j :: 0 <= i < j < |ks| ==> ks[i] != ks[j]
  }

  /** Object lookup. */
  function Get(ms: seq<Member>, k: string): (v: Json)
    requires k in Keys(ms)
    ensures exists i :: 0 <= i < |ms| && ms[i].key == k && ms[i].value == v
  {
    if ms[0].key == k then ms[0].value
    else
      assert k in Keys(ms[1..]) by {
        var i :| 0 <= i < |ms| && Keys(ms)[i] == k;
        assert Keys(ms[1..])[i - 1] == k;
      }
      Get(ms[1..], k)
  }

  lemma {:induction false} GetAt(ms: seq<Member>, i: nat)
    requires i < |ms| && Distinct(Keys(ms))
    ensures Keys(ms)[i] == ms[i].key && ms[i].key in Keys(ms) && Get(ms, ms[i].key) == ms[i].value
  {
    assert Keys(ms)[i] == ms[i].key;
    var j :| 0 <= j < |ms| && ms[j].key == ms[i].key && ms[j].value == Get(ms, ms[i].key);
    assert Keys(ms)[j] == Keys(ms)[i];
  }

  /** No object repeats a key, which the map type guarantees at every level. */
  predicate WellFormed(v: Json)
  {
    match v
    case Arr(items) => forall i :: 0 <= i < |items| ==> WellFormed(items[i])
    case Obj(ms) => Distinct(Keys(ms)) && forall i :: 0 <= i < |ms| ==> WellFormed(ms[i].value)
    case _ => true
  }

  /** Equal up to the order of object members, at every level. */
  ghost predicate SameValue(v: Json, w: Json)
    decreases v
  {
    match v
    case Arr(xs) => w.Arr? && |xs| == |w.items| && forall i :: 0 <= i < |xs| ==> SameValue(xs[i], w.items[i])
    case Obj(ms) =>
      w.Obj? && (forall k :: k in Keys(ms) <==> k in Keys(w.members)) &&
      forall k :: k in Keys(ms) ==> SameValue(Get(ms, k), Get(w.members, k))
    case _ => v == w
  }

  // ---------- sorting keys ----------

  function Insert(o: KeyOrder, k: string, ks: seq<string>): (r: seq<string>)
    ensures multiset(r) == multiset(ks) + multiset{k}
  {
    if ks == [] || !KeyLess(o, ks[0], k) then [k] + ks
    else
      assert ks == [ks[0]] + ks[1..];
      [ks[0]] + Insert(o, k, ks[1..])
  }

  function SortKeys(o: KeyOrder, ks: seq<string>): (r: seq<string>)
    ensures multiset(r) == multiset(ks)
  {
    if ks == [] then []
    else
      assert ks == [ks[0]] + ks[1..];
      Insert(o, ks[0], SortKeys(o, ks[1..]))
  }

  predicate Ascending(o: KeyOrder, ks: seq<string>)
  {
    forall i, j :: 0 <= i < j < |ks| ==> KeyLess(o, ks[i], ks[j])
  }

  lemma SameElements(a: seq<string>, b: seq<string>)
    requires multiset(a) == multiset(b)
    ensures forall k :: k in a <==> k in b
  {
    forall k ensures k in a <==> k in b {
      assert k in a <==> k in multiset(a);
      assert k in b <==> k in multiset(b);
    }
  }

  lemma {:induction false} InsertAscending(o: KeyOrder, k: string, ks: seq<string>)
    requires Ascending(o, ks) && k !in ks
    ensures Ascending(o, Insert(o, k, ks))
  {
    var r := Insert(o, k, ks);
    if ks == [] {
    } else if !KeyLess(o, ks[0], k) {
      KeyOrderTotal(o, ks[0], k);
      forall j | 0 <= j < |ks| ensures KeyLess(o, k, ks[j]) {
        if j > 0 {
          KeyOrderTransitive(o, k, ks[0], ks[j]);
        }
      }
    } else {
      InsertAscending(o, k, ks[1..]);
      var tail := Insert(o, k, ks[1..]);
      forall j | 0 <= j < |tail| ensures KeyLess(o, ks[0], tail[j]) {
        assert tail[j] in multiset(tail);
        assert tail[j] == k || tail[j] in ks[1..];
      }
    }
  }

  lemma {:induction false} SortKeysAscending(o: KeyOrder, ks: seq<string>)
    requires Distinct(ks)
    ensures Ascending(o, SortKeys(o, ks))
  {
    if ks != [] {
      assert Distinct(ks[1..]);
      SortKeysAscending(o, ks[1..]);
      SameElements(ks[1..], SortKeys(o, ks[1..]));
      InsertAscending(o, ks[0], SortKeys(o, ks[1..]));
    }
  }

  /** An ascending list is fixed by its elements. */
  lemma {:induction false} AscendingUnique(o: KeyOrder, a: seq<string>, b: seq<string>)
    requires Ascending(o, a) && Ascending(o, b)
    requires forall k :: k in a <==> k in b
    ensures a == b
  {
    var x, y := if a == [] then "" else a[0], if b == [] then "" else b[0];
    assert (a != [] ==> x in a) && (b != [] ==> y in b);
    if a != [] && b != [] {
      assert a[0] in b && b[0] in a;
      KeyOrderTotal(o, a[0], b[0]);
      assert a[0] == b[0];
      forall k ensures k in a[1..] <==> k in b[1..] {
        KeyOrderTotal(o, a[0], a[0]);
        assert k in a[1..] ==> k in a && k != a[0];
        assert k in b[1..] ==> k in b && k != b[0];
      }
      AscendingUnique(o, a[1..], b[1..]);
    }
  }

  // ---------- the canonical form ----------

  /** The value with every object's members in key order. */
  function Canon(o: KeyOrder, v: Json): (r: Json)
    decreases v, 0
  {
    match v
    case Arr(items) => Arr(seq(|items|, i requires 0 <= i < |items| => Canon(o, items[i])))
    case Obj(ms) =>
      SameElements(Keys(ms), SortKeys(o, Keys(ms)));
      Obj(CanonMembers(o, ms, SortKeys(o, Keys(ms))))
    case _ => v
  }

  function CanonMembers(o: KeyOrder, ms: seq<Member>, ks: seq<string>): (r: seq<Member>)
    requires forall k :: k in ks ==> k in Keys(ms)
    ensures |r| == |ks|
    decreases ms, |ks|
  {
    if ks == [] then []
    else [Member(ks[0], Canon(o, Get(ms, ks[0])))] + CanonMembers(o, ms, ks[1..])
  }

  lemma {:induction false} CanonMemberAt(o: KeyOrder, ms: seq<Member>, ks: seq<string>, i: nat)
    requires forall k :: k in ks ==> k in Keys(ms)
    requires i < |ks|
    ensures CanonMembers(o, ms, ks)[i] == Member(ks[i], Canon(o, Get(ms, ks[i])))
    decreases |ks|
  {
    if i > 0 {
      CanonMemberAt(o, ms, ks[1..], i - 1);
    }
  }

  /** The text and bytes the canonicalizers print. */
  function Text(o: KeyOrder, v: Json): (t: string) { Emit(Canon(o, v)) }

  function CanonicalBytes(v: Json): (b: seq<byte>) { Encode(Text(ByUtf16, v)) }

  // Facts about one object's canonical form.
  lemma SortedKeys(o: KeyOrder, ms: seq<Member>)
    requires Distinct(Keys(ms))
    ensures var ks := SortKeys(o, Keys(ms)); Ascending(o, ks) && |ks| == |ms| && forall k :: k in ks <==> k in Keys(ms)
  {
    var ks := SortKeys(o, Keys(ms));
    SortKeysAscending(o, Keys(ms));
    SameElements(Keys(ms), ks);
    assert |multiset(ks)| == |multiset(Keys(ms))|;
  }

  lemma CanonMembersAll(o: KeyOrder, ms: seq<Member>, ks: seq<string>)
    requires forall k :: k in ks ==> k in Keys(ms)
    ensures Keys(CanonMembers(o, ms, ks)) == ks
    ensures forall i :: 0 <= i < |ks| ==> CanonMembers(o, ms, ks)[i].value == Canon(o, Get(ms, ks[i]))
  {
    forall i | 0 <= i < |ks| ensures CanonMembers(o, ms, ks)[i] == Member(ks[i], Canon(o, Get(ms, ks[i]))) {
      CanonMemberAt(o, ms, ks, i);
    }
  }

  lemma CanonObject(o: KeyOrder, ms: seq<Member>)
    requires Distinct(Keys(ms))
    ensures var ks := SortKeys(o, Keys(ms));
      && Ascending(o, ks)
      && |ks| == |ms|
      && (forall k :: k in ks <==> k in Keys(ms))
      && Keys(Canon(o, Obj(ms)).members) == ks
      && forall i :: 0 <= i < |ks| ==> Canon(o, Obj(ms)).members[i].value == Canon(o, Get(ms, ks[i]))
  {
    SortedKeys(o, ms);
    CanonMembersAll(o, ms, SortKeys(o, Keys(ms)));
  }

  lemma WellFormedGet(ms: seq<Member>, k: string)
    requires WellFormed(Obj(ms)) && k in Keys(ms)
    ensures WellFormed(Get(ms, k))
  {
    var i :| 0 <= i < |ms| && ms[i].key == k && ms[i].value == Get(ms, k);
  }

  lemma SortKeysLength(o: KeyOrder, ks: seq<string>)
    ensures |SortKeys(o, ks)| == |ks|
  {
    assert |multiset(SortKeys(o, ks))| == |multiset(ks)|;
  }

  lemma CanonObjectAt(o: KeyOrder, ms: seq<Member>, i: nat)
    requires WellFormed(Obj(ms)) && i < |SortKeys(o, Keys(ms))|
    ensures var k := SortKeys(o, Keys(ms))[i];
      k in Keys(ms) && WellFormed(Get(ms, k)) &&
      |Canon(o, Obj(ms)).members| == |SortKeys(o, Keys(ms))| &&
      Canon(o, Obj(ms)).members[i] == Member(k, Canon(o, Get(ms, k)))
  {
    CanonObject(o, ms);
    var k := SortKeys(o, Keys(ms))[i];
    assert k in SortKeys(o, Keys(ms));
    assert Keys(Canon(o, Obj(ms)).members)[i] == k;
    WellFormedGet(ms, k);
  }

  lemma CanonValueAt(o: KeyOrder, ms: seq<Member>, k: string) returns (i: nat)
    requires Distinct(Keys(ms)) && k in Keys(ms)
    ensures var ks := SortKeys(o, Keys(ms)); i < |ks| == |Canon(o, Obj(ms)).members| && ks[i] == k
    ensures Canon(o, Obj(ms)).members[i].value == Canon(o, Get(ms, k))
  {
    CanonObject(o, ms);
    var ks := SortKeys(o, Keys(ms));
    i :| 0 <= i < |ks| && ks[i] == k;
  }

  lemma SameCanonKey(o: KeyOrder, ms: seq<Member>, ns: seq<Member>, k: string)
    requires Distinct(Keys(ms)) && Distinct(Keys(ns)) && Canon(o, Obj(ms)) == Canon(o, Obj(ns)) && k in Keys(ms) && k in Keys(ns)
    ensures Canon(o, Get(ms, k)) == Canon(o, Get(ns, k))
  {
    SameSortedKeys(o, ms, ns);
    var i := CanonValueAt(o, ms, k);
    var j := CanonValueAt(o, ns, k);
    AscendingDistinct(o, SortKeys(o, Keys(ms)), i, j);
  }

  lemma AscendingDistinct(o: KeyOrder, ks: seq<string>, i: nat, j: nat)
    requires Ascending(o, ks) && i < |ks| && j < |ks| && ks[i] == ks[j]
    ensures i == j
  {
    KeyOrderTotal(o, ks[i], ks[j]);
  }

  lemma SameSortedKeys(o: KeyOrder, ms: seq<Member>, ns: seq<Member>)
    requires Distinct(Keys(ms)) && Distinct(Keys(ns)) && Canon(o, Obj(ms)) == Canon(o, Obj(ns))
    ensures SortKeys(o, Keys(ms)) == SortKeys(o, Keys(ns)) && Ascending(o, SortKeys(o, Keys(ms)))
    ensures forall k :: k in Keys(ms) <==> k in Keys(ns)
  {
    CanonObject(o, ms);
    CanonObject(o, ns);
  }

  lemma SameCanonKeys(o: KeyOrder, ms: seq<Member>, ns: seq<Member>)
    requires Distinct(Keys(ms)) && Distinct(Keys(ns)) && Canon(o, Obj(ms)) == Canon(o, Obj(ns))
    ensures forall k :: k in Keys(ms) <==> k in Keys(ns)
    ensures forall k :: k in Keys(ms) ==> Canon(o, Get(ms, k)) == Canon(o, Get(ns, k))
  {
    SameSortedKeys(o, ms, ns);
    forall k | k in Keys(ms) ensures Canon(o, Get(ms, k)) == Canon(o, Get(ns, k)) {
      SameCanonKey(o, ms, ns, k);
    }
  }

  lemma {:induction false} SameCanonIsSameValue(o: KeyOrder, v: Json, w: Json)
    requires WellFormed(v) && WellFormed(w) && Canon(o, v) == Canon(o, w)
    ensures SameValue(v, w)
    decreases v
  {
    match v
    case Arr(xs) =>
      var c, d := Canon(o, v).items, Canon(o, w).items;
      forall i | 0 <= i < |xs| ensures SameValue(xs[i], w.items[i]) {
        assert c[i] == d[i];
        SameCanonIsSameValue(o, xs[i], w.items[i]);
      }
    case Obj(ms) =>
      SameCanonKeys(o, ms, w.members);
      forall k | k in Keys(ms) ensures SameValue(Get(ms, k), Get(w.members, k)) {
        WellFormedGet(ms, k);
        WellFormedGet(w.members, k);
        SameCanonIsSameValue(o, Get(ms, k), Get(w.members, k));
      }
    case _ =>
  }

  lemma {:induction false} SameValueIsSameCanon(o: KeyOrder, v: Json, w: Json)
    requires WellFormed(v) && WellFormed(w) && SameValue(v, w)
    ensures Canon(o, v) == Canon(o, w)
    decreases v
  {
    match v
    case Arr(xs) =>
      forall i | 0 <= i < |xs| ensures Canon(o, xs[i]) == Canon(o, w.items[i]) {
        SameValueIsSameCanon(o, xs[i], w.items[i]);
      }
    case Obj(ms) =>
      forall k | k in Keys(ms) ensures Canon(o, Get(ms, k)) == Canon(o, Get(w.members, k)) {
        WellFormedGet(ms, k);
        WellFormedGet(w.members, k);
        SameValueIsSameCanon(o, Get(ms, k), Get(w.members, k));
      }
      SameObjectCanon(o, ms, w.members);
    case _ =>
  }

  lemma SameObjectCanon(o: KeyOrder, ms: seq<Member>, ns: seq<Member>)
    requires WellFormed(Obj(ms)) && WellFormed(Obj(ns))
    requires forall k :: k in Keys(ms) <==> k in Keys(ns)
    requires forall k :: k in Keys(ms) ==> Canon(o, Get(ms, k)) == Canon(o, Get(ns, k))
    ensures Canon(o, Obj(ms)) == Canon(o, Obj(ns))
  {
    var ks := SortKeys(o, Keys(ms));
    SortedKeys(o, ms);
    SortedKeys(o, ns);
    AscendingUnique(o, ks, SortKeys(o, Keys(ns)));
    SameMembersCanon(o, ms, ns, ks);
  }

  lemma {:induction false} SameMembersCanon(o: KeyOrder, ms: seq<Member>, ns: seq<Member>, ks: seq<string>)
    requires forall k :: k in ks ==> k in Keys(ms) && k in Keys(ns)
    requires forall k :: k in ks ==> Canon(o, Get(ms, k)) == Canon(o, Get(ns, k))
    ensures CanonMembers(o, ms, ks) == CanonMembers(o, ns, ks)
  {
    if ks != [] {
      assert ks[0] in ks;
      SameMembersCanon(o, ms, ns, ks[1..]);
    }
  }

  /** Two values have the same canonical bytes exactly when they are the same value up to
      member order: nothing is confused, and no insertion order shows through. */
  lemma CanonicalBytesIff(v: Json, w: Json)
    requires WellFormed(v) && WellFormed(w)
    ensures CanonicalBytes(v) == CanonicalBytes(w) <==> SameValue(v, w)
  {
    if CanonicalBytes(v) == CanonicalBytes(w) {
      EncodeInjective(Text(ByUtf16, v), Text(ByUtf16, w));
      assert Text(ByUtf16, v) + "" == Text(ByUtf16, w) + "";
      EmitInjective(Canon(ByUtf16, v), Canon(ByUtf16, w), "", "");
      SameCanonIsSameValue(ByUtf16, v, w);
    }
    if SameValue(v, w) {
      SameValueIsSameCanon(ByUtf16, v, w);
    }
  }

  lemma {:induction false} SameValueReflexive(v: Json)
    ensures SameValue(v, v)
  {
    match v
    case Arr(xs) => forall i | 0 <= i < |xs| { SameValueReflexive(xs[i]); }
    case Obj(ms) => forall k | k in Keys(ms) { SameValueReflexive(Get(ms, k)); }
    case _ =>
  }

  /** Any reordering of an object's members prints the same bytes. */
  lemma ReorderedObject(ms: seq<Member>, ns: seq<Member>)
    requires WellFormed(Obj(ms)) && WellFormed(Obj(ns)) && multiset(ms) == multiset(ns)
    ensures CanonicalBytes(Obj(ms)) == CanonicalBytes(Obj(ns))
  {
    ReorderedKeys(ms, ns);
    ReorderedKeys(ns, ms);
    forall k | k in Keys(ms) ensures SameValue(Get(ms, k), Get(ns, k)) {
      SameValueReflexive(Get(ms, k));
    }
    CanonicalBytesIff(Obj(ms), Obj(ns));
  }

  lemma ReorderedKeys(ms: seq<Member>, ns: seq<Member>)
    requires Distinct(Keys(ns)) && multiset(ms) == multiset(ns)
    ensures forall k :: k in Keys(ms) ==> k in Keys(ns) && Get(ms, k) == Get(ns, k)
  {
    forall k | k in Keys(ms) ensures k in Keys(ns) && Get(ms, k) == Get(ns, k) {
      var i :| 0 <= i < |ms| && ms[i].key == k && ms[i].value == Get(ms, k);
      assert ms[i] in multiset(ns);
      var j :| 0 <= j < |ns| && ns[j] == ms[i];
      GetAt(ns, j);
    }
  }

  lemma ObjectKeepsValue(o: KeyOrder, ms: seq<Member>)
    requires WellFormed(Obj(ms))
    requires forall k :: k in Keys(ms) ==> WellFormed(Canon(o, Get(ms, k))) && SameValue(Get(ms, k), Canon(o, Get(ms, k)))
    ensures WellFormed(Canon(o, Obj(ms))) && SameValue(Obj(ms), Canon(o, Obj(ms)))
  {
    var c := Canon(o, Obj(ms)).members;
    var ks := SortKeys(o, Keys(ms));
    CanonObject(o, ms);
    forall i, j | 0 <= i < j < |ks| ensures ks[i] != ks[j] {
      KeyOrderTotal(o, ks[i], ks[j]);
    }
    forall i | 0 <= i < |c| ensures WellFormed(c[i].value) {
      CanonObjectAt(o, ms, i);
    }
    forall k | k in Keys(ms) ensures k in Keys(c) && Get(c, k) == Canon(o, Get(ms, k)) {
      var i :| 0 <= i < |ks| && ks[i] == k;
      CanonObjectAt(o, ms, i);
      GetAt(c, i);
    }
  }

  // The canonical form is itself a well-formed value, the same as the original.
  lemma {:induction false} CanonKeepsValue(o: KeyOrder, v: Json)
    requires WellFormed(v)
    ensures WellFormed(Canon(o, v)) && SameValue(v, Canon(o, v))
  {
    match v
    case Arr(xs) =>
      forall i | 0 <= i < |xs| ensures WellFormed(Canon(o, xs[i])) && SameValue(xs[i], Canon(o, xs[i])) {
        CanonKeepsValue(o, xs[i]);
      }
    case Obj(ms) =>
      forall k | k in Keys(ms) ensures WellFormed(Canon(o, Get(ms, k))) && SameValue(Get(ms, k), Canon(o, Get(ms, k))) {
        WellFormedGet(ms, k);
        CanonKeepsValue(o, Get(ms, k));
      }
      ObjectKeepsValue(o, ms);
    case _ =>
  }

  /** Reading canonical text, with any legal text after it, gives back the same value in
      canonical member order and leaves exactly the following text. */
  lemma CanonicalTextReadsBack(v: Json, rest: string)
    requires WellFormed(v) && LegalAfter(rest)
    ensures ParseValue(Text(ByUtf16, v) + rest) == Some((Canon(ByUtf16, v), rest))
    ensures SameValue(v, Canon(ByUtf16, v))
  {
    ParseEmit(Canon(ByUtf16, v), rest);
    CanonKeepsValue(ByUtf16, v);
  }

  // ---------- the Python port ----------

  ghost predicate KeysSplit(ms: seq<Member>)
  {
    exists i, j :: 0 <= i < |ms| && 0 <= j < |ms| && Diverge(ms[i].key, ms[j].key)
  }

  /** Some object, at any depth, has two keys that the two orders rank differently. */
  ghost predicate HasSplitKeys(v: Json)
  {
    match v
    case Arr(items) => exists i :: 0 <= i < |items| && HasSplitKeys(items[i])
    case Obj(ms) => KeysSplit(ms) || exists i :: 0 <= i < |ms| && HasSplitKeys(ms[i].value)
    case _ => false
  }

  // Two keys of one list that both orders sort alike do not diverge.
  lemma SortedAlike(ks: seq<string>, p: string, q: string)
    requires Ascending(ByUtf16, ks) && Ascending(ByCodePoint, ks) && p in ks && q in ks
    ensures !Diverge(p, q)
  {
    OrdersDisagreeIff(p, q);
    var i :| 0 <= i < |ks| && ks[i] == p;
    var j :| 0 <= j < |ks| && ks[j] == q;
    SortedAlikeAt(ByUtf16, ks, i, j);
    SortedAlikeAt(ByCodePoint, ks, i, j);
  }

  lemma SortedAlikeAt(o: KeyOrder, ks: seq<string>, i: nat, j: nat)
    requires Ascending(o, ks) && i < |ks| && j < |ks|
    ensures KeyLess(o, ks[i], ks[j]) <==> i < j
  {
    KeyOrderTotal(o, ks[i], ks[j]);
  }

  // Keys of which no two diverge ascend in one order when they ascend in the other.
  lemma AscendsAlike(ms: seq<Member>, ks: seq<string>)
    requires !KeysSplit(ms) && Ascending(ByCodePoint, ks) && forall k :: k in ks ==> k in Keys(ms)
    ensures Ascending(ByUtf16, ks)
  {
    forall i, j | 0 <= i < j < |ks| ensures KeyLess(ByUtf16, ks[i], ks[j]) {
      assert ks[i] in ks && ks[j] in ks;
      NoSplit(ms, ks[i], ks[j]);
      OrdersDisagreeIff(ks[i], ks[j]);
    }
  }

  lemma NoSplit(ms: seq<Member>, p: string, q: string)
    requires !KeysSplit(ms) && p in Keys(ms) && q in Keys(ms)
    ensures !Diverge(p, q)
  {
    var x :| 0 <= x < |ms| && Keys(ms)[x] == p;
    var y :| 0 <= y < |ms| && Keys(ms)[y] == q;
    assert ms[x].key == p && ms[y].key == q;
  }

  lemma SortsAgreeIff(ms: seq<Member>)
    requires Distinct(Keys(ms))
    ensures SortKeys(ByUtf16, Keys(ms)) == SortKeys(ByCodePoint, Keys(ms)) <==> !KeysSplit(ms)
  {
    SortedKeys(ByUtf16, ms);
    SortedKeys(ByCodePoint, ms);
    var a, b := SortKeys(ByUtf16, Keys(ms)), SortKeys(ByCodePoint, Keys(ms));
    if a == b {
      forall i, j | 0 <= i < |ms| && 0 <= j < |ms| ensures !Diverge(ms[i].key, ms[j].key) {
        assert Keys(ms)[i] == ms[i].key && Keys(ms)[j] == ms[j].key;
        SortedAlike(a, ms[i].key, ms[j].key);
      }
    }
    if !KeysSplit(ms) {
      AscendsAlike(ms, b);
      AscendingUnique(ByUtf16, a, b);
    }
  }

  lemma {:induction false} CanonsAgreeIff(v: Json)
    requires WellFormed(v)
    ensures Canon(ByUtf16, v) == Canon(ByCodePoint, v) <==> !HasSplitKeys(v)
    decreases v, 0
  {
    match v
    case Arr(xs) =>
      var c, d := Canon(ByUtf16, v).items, Canon(ByCodePoint, v).items;
      forall i | 0 <= i < |xs|
        ensures c[i] == d[i] <==> !HasSplitKeys(xs[i])
      {
        CanonsAgreeIff(xs[i]);
      }
      assert c == d <==> forall i :: 0 <= i < |xs| ==> c[i] == d[i];
    case Obj(ms) =>
      forall i | 0 <= i < |ms|
        ensures Canon(ByUtf16, ms[i].value) == Canon(ByCodePoint, ms[i].value) <==> !HasSplitKeys(ms[i].value)
      {
        CanonsAgreeIff(ms[i].value);
      }
      ObjectCanonsAgreeIff(ms);
    case _ =>
  }

  lemma ObjectCanonsAgreeIff(ms: seq<Member>)
    requires WellFormed(Obj(ms))
    requires forall i :: 0 <= i < |ms| ==>
      (Canon(ByUtf16, ms[i].value) == Canon(ByCodePoint, ms[i].value) <==> !HasSplitKeys(ms[i].value))
    ensures Canon(ByUtf16, Obj(ms)) == Canon(ByCodePoint, Obj(ms)) <==> !HasSplitKeys(Obj(ms))
  {
    SortsAgreeIff(ms);
    if Canon(ByUtf16, Obj(ms)) == Canon(ByCodePoint, Obj(ms)) {
      AgreeingMembers(ms);
    } else {
      DifferingMember(ms);
    }
  }

  lemma AgreeingMembers(ms: seq<Member>)
    requires WellFormed(Obj(ms)) && Canon(ByUtf16, Obj(ms)) == Canon(ByCodePoint, Obj(ms))
    ensures SortKeys(ByUtf16, Keys(ms)) == SortKeys(ByCodePoint, Keys(ms))
    ensures forall i :: 0 <= i < |ms| ==> Canon(ByUtf16, ms[i].value) == Canon(ByCodePoint, ms[i].value)
  {
    CanonObject(ByUtf16, ms);
    CanonObject(ByCodePoint, ms);
    var ks := SortKeys(ByUtf16, Keys(ms));
    forall i | 0 <= i < |ms| ensures Canon(ByUtf16, ms[i].value) == Canon(ByCodePoint, ms[i].value) {
      GetAt(ms, i);
      var j :| 0 <= j < |ks| && ks[j] == ms[i].key;
    }
  }

  lemma DifferingMember(ms: seq<Member>)
    requires WellFormed(Obj(ms))
    ensures Canon(ByUtf16, Obj(ms)) == Canon(ByCodePoint, Obj(ms)) ||
      SortKeys(ByUtf16, Keys(ms)) != SortKeys(ByCodePoint, Keys(ms)) ||
      exists i :: 0 <= i < |ms| && Canon(ByUtf16, ms[i].value) != Canon(ByCodePoint, ms[i].value)
  {
    var c, d := Canon(ByUtf16, Obj(ms)).members, Canon(ByCodePoint, Obj(ms)).members;
    var ks := SortKeys(ByUtf16, Keys(ms));
    if c != d && ks == SortKeys(ByCodePoint, Keys(ms)) {
      SortKeysLength(ByUtf16, Keys(ms));
      assert |c| == |d| == |ks|;
      var j :| 0 <= j < |ks| && c[j] != d[j];
      CanonObjectAt(ByUtf16, ms, j);
      CanonObjectAt(ByCodePoint, ms, j);
      var i :| 0 <= i < |ms| && ms[i].key == ks[j] && ms[i].value == Get(ms, ks[j]);
    }
  }

  /** The Python port prints what the Rust canonicalizer prints exactly on values in which
      no two keys of one object diverge. */
  lemma PythonAgreesIff(v: Json)
    requires WellFormed(v)
    ensures Text(ByCodePoint, v) == Text(ByUtf16, v) <==> !HasSplitKeys(v)
  {
    CanonsAgreeIff(v);
    if Text(ByCodePoint, v) == Text(ByUtf16, v) {
      assert Text(ByCodePoint, v) + "" == Text(ByUtf16, v) + "";
      EmitInjective(Canon(ByCodePoint, v), Canon(ByUtf16, v), "", "");
    }
  }

  /** The object {"\uE000": 0, "\u{10000}": 0} is printed differently by the two. */
  lemma PythonDiffersOn()
    ensures var v := Obj([Member([0xE000 as char], Num(0)), Member([0x1_0000 as char], Num(0))]);
      WellFormed(v) && Text(ByCodePoint, v) != Text(ByUtf16, v)
  {
    var a, b := [0xE000 as char], [0x1_0000 as char];
    var ms := [Member(a, Num(0)), Member(b, Num(0))];
    assert a[0] != b[0];
    assert Keys(ms) == [a, b];
    assert Parts(a, b, 0);
    assert Diverge(ms[0].key, ms[1].key);
    PythonAgreesIff(Obj(ms));
  }

  predicate BmpOnly(s: string) { forall i :: 0 <= i < |s| ==> (s[i] as int) < 0x1_0000 }

  /** Every key at every depth lies in the Basic Multilingual Plane. */
  predicate BmpKeys(v: Json)
  {
    match v
    case Arr(items) => forall i :: 0 <= i < |items| ==> BmpKeys(items[i])
    case Obj(ms) => forall i :: 0 <= i < |ms| ==> BmpOnly(ms[i].key) && BmpKeys(ms[i].value)
    case _ => true
  }

  lemma {:induction false} BmpKeysNeverSplit(v: Json)
    requires BmpKeys(v)
    ensures !HasSplitKeys(v)
  {
    match v
    case Arr(items) => forall i | 0 <= i < |items| { BmpKeysNeverSplit(items[i]); }
    case Obj(ms) => forall i | 0 <= i < |ms| { BmpKeysNeverSplit(ms[i].value); }
    case _ =>
  }

  /** In particular they agree on every value with BMP-only keys. */
  lemma PythonAgreesOnBmpKeys(v: Json)
    requires WellFormed(v) && BmpKeys(v)
    ensures Text(ByCodePoint, v) == Text(ByUtf16, v)
  {
    BmpKeysNeverSplit(v);
    PythonAgreesIff(v);
  }
}
