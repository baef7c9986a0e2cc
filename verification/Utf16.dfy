/** Key comparison by UTF-16 code unit (RFC 8785, section 3.2.3) and by code point,
    and exactly where the two orders part. */
module Utf16 {

  datatype KeyOrder = ByUtf16 | ByCodePoint

  datatype Ordering = Less | Equal | Greater

  /** The code units of one scalar value: one unit, or a surrogate pair. */
  function CharUnits(c: char): (r: seq<nat>)
    ensures 1 <= |r| <= 2
  {
    var n := c as int;
    if n < 0x1_0000 then [n]
    else [0xD800 + (n - 0x1_0000) / 0x400, 0xDC00 + (n - 0x1_0000) % 0x400]
  }

  /** A character of the Basic Multilingual Plane is its own unit; any other is a high and a
      low surrogate holding ten bits each. */
  lemma SurrogatesOf(c: char)
    ensures var u, n := CharUnits(c), c as int;
      && (n < 0x1_0000 <==> |u| == 1) && (|u| == 1 ==> u[0] == n)
      && (|u| == 2 ==> 0xD800 <= u[0] < 0xDC00 && 0xDC00 <= u[1] < 0xE000)
      && (|u| == 2 ==> n == 0x1_0000 + (u[0] - 0xD800) * 0x400 + (u[1] - 0xDC00))
  {
  }

  function Units(s: string): (r: seq<nat>)
  {
    if s == "" then [] else CharUnits(s[0]) + Units(s[1..])
  }

  function CodePoints(s: string): (r: seq<nat>)
    ensures |r| == |s|
    ensures forall i :: 0 <= i < |s| ==> r[i] == s[i] as int
  {
    seq(|s|, i requires 0 <= i < |s| => s[i] as int)
  }

  /** Lexicographic order: at the first difference, or a proper prefix first. */
  predicate LexLess(x: seq<nat>, y: seq<nat>)
  {
    y != [] && (x == [] || x[0] < y[0] || (x[0] == y[0] && LexLess(x[1..], y[1..])))
  }

  /** What the two key orders mean. */
  predicate KeyLess(o: KeyOrder, a: string, b: string)
  {
    match o
    case ByUtf16 => LexLess(Units(a), Units(b))
    case ByCodePoint => LexLess(CodePoints(a), CodePoints(b))
  }

  lemma {:induction false} LexTotal(x: seq<nat>, y: seq<nat>)
    ensures LexLess(x, y) || LexLess(y, x) || x == y
    ensures !(LexLess(x, y) && LexLess(y, x))
    ensures x == y ==> !LexLess(x, y)
  {
    if x != [] && y != [] && x[0] == y[0] {
      LexTotal(x[1..], y[1..]);
      assert x[1..] == y[1..] ==> x == [x[0]] + x[1..] == y;
    }
  }

  lemma {:induction false} LexTransitive(x: seq<nat>, y: seq<nat>, z: seq<nat>)
    requires LexLess(x, y) && LexLess(y, z)
    ensures LexLess(x, z)
  {
    if x != [] && x[0] == y[0] == z[0] {
      LexTransitive(x[1..], y[1..], z[1..]);
    }
  }

  lemma {:induction false} LexCommonPrefix(p: seq<nat>, x: seq<nat>, y: seq<nat>)
    ensures LexLess(p + x, p + y) == LexLess(x, y)
  {
    if p == [] {
      assert p + x == x && p + y == y;
    } else {
      assert (p + x)[1..] == p[1..] + x && (p + y)[1..] == p[1..] + y;
      LexCommonPrefix(p[1..], x, y);
    }
  }

  /** At the first differing character: UTF-16 and code-point order disagree just for a
      character in U+E000..U+FFFF against one that needs a surrogate pair. */
  predicate SplitPair(c: char, d: char)
  {
    (0xE000 <= c as int < 0x1_0000 && d as int >= 0x1_0000) ||
    (0xE000 <= d as int < 0x1_0000 && c as int >= 0x1_0000)
  }

  /** The keys agree up to `i` and differ there by a split pair. */
  predicate Parts(a: string, b: string, i: nat)
  {
    i < |a| && i < |b| && (forall j :: 0 <= j < i ==> a[j] == b[j]) && SplitPair(a[i], b[i])
  }

  /** Some position splits the keys. */
  ghost predicate Diverge(a: string, b: string)
  {
    exists i: nat :: Parts(a, b, i)
  }

  lemma FirstCharDecides(a: string, b: string)
    requires a != "" && b != "" && a[0] != b[0]
    ensures KeyLess(ByUtf16, a, b) == LexLess(CharUnits(a[0]), CharUnits(b[0]))
    ensures KeyLess(ByCodePoint, a, b) == (a[0] < b[0])
    ensures KeyLess(ByUtf16, a, b) != KeyLess(ByCodePoint, a, b) <==> SplitPair(a[0], b[0])
  {
    var m, n := a[0] as int, b[0] as int;
    var x, y := CharUnits(a[0]), CharUnits(b[0]);
    assert Units(a)[0] == x[0] && Units(b)[0] == y[0];
    if m >= 0x1_0000 && n >= 0x1_0000 && x[0] == y[0] {
      assert x[1] != y[1];
      LexCommonPrefix([x[0]], Units(a)[1..], Units(b)[1..]);
      assert Units(a) == [x[0]] + Units(a)[1..] && Units(b) == [x[0]] + Units(b)[1..];
      assert Units(a)[1..][0] == x[1] && Units(b)[1..][0] == y[1];
      assert x[1..][0] == x[1] && y[1..][0] == y[1];
    }
  }

  /** The two orders rank a pair of keys differently exactly when the keys diverge. */
  lemma {:induction false} OrdersDisagreeIff(a: string, b: string)
    ensures KeyLess(ByUtf16, a, b) != KeyLess(ByCodePoint, a, b) <==> Diverge(a, b)
  {
    if a == "" || b == "" {
    } else if a[0] != b[0] {
      FirstCharDecides(a, b);
      if SplitPair(a[0], b[0]) {
        assert Parts(a, b, 0);
      }
    } else {
      LexCommonPrefix(CharUnits(a[0]), Units(a[1..]), Units(b[1..]));
      assert CodePoints(a)[1..] == CodePoints(a[1..]) && CodePoints(b)[1..] == CodePoints(b[1..]);
      OrdersDisagreeIff(a[1..], b[1..]);
      if Diverge(a[1..], b[1..]) {
        var i: nat :| Parts(a[1..], b[1..], i);
        forall j | 0 <= j < i + 1 ensures a[j] == b[j] {
          assert j > 0 ==> a[j] == a[1..][j - 1] && b[j] == b[1..][j - 1];
        }
        assert Parts(a, b, i + 1);
      }
      if Diverge(a, b) {
        var i: nat :| Parts(a, b, i);
        assert Parts(a[1..], b[1..], i - 1);
      }
    }
  }

  lemma {:induction false} UnitsInjective(a: string, b: string)
    requires Units(a) == Units(b)
    ensures a == b
  {
    if a != "" && b != "" {
      var x, y := CharUnits(a[0]), CharUnits(b[0]);
      assert Units(a)[0] == x[0] && Units(b)[0] == y[0];
      if |x| == 2 {
        assert Units(a)[1] == x[1] && Units(b)[1] == y[1];
      }
      assert Units(a)[|x|..] == Units(a[1..]) && Units(b)[|x|..] == Units(b[1..]);
      UnitsInjective(a[1..], b[1..]);
    }
  }

  /** Both orders are strict total orders on keys. */
  lemma KeyOrderTotal(o: KeyOrder, a: string, b: string)
    ensures !(KeyLess(o, a, b) && KeyLess(o, b, a))
    ensures !KeyLess(o, a, a)
    ensures a != b ==> KeyLess(o, a, b) || KeyLess(o, b, a)
  {
    LexTotal(Units(a), Units(b));
    LexTotal(Units(a), Units(a));
    LexTotal(CodePoints(a), CodePoints(b));
    LexTotal(CodePoints(a), CodePoints(a));
    if Units(a) == Units(b) {
      UnitsInjective(a, b);
    }
    if CodePoints(a) == CodePoints(b) {
      forall i | 0 <= i < |a| ensures a[i] == b[i] {
        assert CodePoints(a)[i] == CodePoints(b)[i];
      }
    }
  }

  lemma KeyOrderTransitive(o: KeyOrder, a: string, b: string, c: string)
    requires KeyLess(o, a, b) && KeyLess(o, b, c)
    ensures KeyLess(o, a, c)
  {
    match o
    case ByUtf16 => LexTransitive(Units(a), Units(b), Units(c));
    case ByCodePoint => LexTransitive(CodePoints(a), CodePoints(b), CodePoints(c));
  }

  /** The comparator: walk both code-unit streams until one ends or they differ. */
  method CompareUtf16(a: string, b: string) returns (r: Ordering)
    ensures r == Less <==> KeyLess(ByUtf16, a, b)
    ensures r == Greater <==> KeyLess(ByUtf16, b, a)
    ensures r == Equal <==> a == b
  {
    var ai, bi := Units(a), Units(b);
    KeyOrderTotal(ByUtf16, a, b);
    while true
      invariant LexLess(ai, bi) == KeyLess(ByUtf16, a, b)
      invariant LexLess(bi, ai) == KeyLess(ByUtf16, b, a)
      decreases |ai|
    {
      if ai == [] && bi == [] {
        return Equal;
      } else if ai == [] {
        return Less;
      } else if bi == [] {
        return Greater;
      } else if ai[0] != bi[0] {
        return if ai[0] < bi[0] then Less else Greater;
      }
      ai, bi := ai[1..], bi[1..];
    }
  }
}
