/** The Python canonicalizer in its own form: lists of parts, joined at the end, with the keys
    sorted by code point. */
module PythonPort {
  import opened Utf16
  import opened Json
  import opened Canonical

  /** `",".join(parts)`, with a leading comma unless `first`. */
  function Joined(parts: seq<string>, first: bool): string
  {
    if parts == [] then "" else Sep(first) + parts[0] + Joined(parts[1..], false)
  }

  lemma {:induction false} JoinedItems(items: seq<Json>, parts: seq<string>, first: bool)
    requires |parts| == |items| && forall i :: 0 <= i < |items| ==> parts[i] == Emit(items[i])
    ensures Joined(parts, first) == EmitItems(items, first)
  {
    if items != [] {
      JoinedItems(items[1..], parts[1..], false);
    }
  }

  lemma {:induction false} JoinedMembers(ms: seq<Member>, parts: seq<string>, first: bool)
    requires |parts| == |ms| && forall i :: 0 <= i < |ms| ==> parts[i] == EmitMember(ms[i])
    ensures Joined(parts, first) == EmitMembers(ms, first)
  {
    if ms != [] {
      JoinedMembers(ms[1..], parts[1..], false);
    }
  }

  /** `"".join(out)`. */
  function Concat(out: seq<string>): string
  {
    if out == [] then "" else out[0] + Concat(out[1..])
  }

  lemma {:induction false} ConcatSnoc(out: seq<string>, t: string)
    ensures Concat(out + [t]) == Concat(out) + t
  {
    if out == [] {
      assert out + [t] == [t] && [t][1..] == [];
      assert t + "" == t;
    } else {
      assert (out + [t])[1..] == out[1..] + [t];
      ConcatSnoc(out[1..], t);
      Assoc(out[0], Concat(out[1..]), t);
    }
  }

  lemma PieceAppended(out: seq<string>, s: string, i: nat)
    requires i < |s|
    ensures Concat(out + [EscapeChar(s[i])]) + (Escape(s[i + 1..]) + "\"") == Concat(out) + (Escape(s[i..]) + "\"")
  {
    assert s[i..][0] == s[i] && s[i..][1..] == s[i + 1..];
    ConcatSnoc(out, EscapeChar(s[i]));
    Assoc(Concat(out), EscapeChar(s[i]), Escape(s[i + 1..]) + "\"");
    Assoc(EscapeChar(s[i]), Escape(s[i + 1..]), "\"");
  }

  method CanonicalizeJcsString(s: string) returns (t: string)
    ensures t == Quote(s)
  {
    var out := ["\""];
    assert Concat(out) == "\"" by { ConcatSnoc([], "\""); assert [] + ["\""] == out; }
    assert s[0..] == s;
    Assoc("\"", Escape(s), "\"");
    var i := 0;
    while i < |s|
      invariant 0 <= i <= |s| && Concat(out) + (Escape(s[i..]) + "\"") == Quote(s)
    {
      PieceAppended(out, s, i);
      var ch := s[i];
      var piece;
      if ch == '\"' {
        piece := "\\\"";
      } else if ch == '\\' {
        piece := "\\\\";
      } else if ch as int == 8 {
        piece := "\\b";
      } else if ch as int == 12 {
        piece := "\\f";
      } else if ch == '\n' {
        piece := "\\n";
      } else if ch == '\r' {
        piece := "\\r";
      } else if ch == '\t' {
        piece := "\\t";
      } else if ch as int < 0x20 {
        piece := "\\u00" + [Nib(ch as int / 16), Nib(ch as int % 16)];
      } else {
        piece := [ch];
      }
      out := out + [piece];
      i := i + 1;
    }
    assert Escape(s[i..]) + "\"" == "\"";
    ConcatSnoc(out, "\"");
    t := Concat(out + ["\""]);
  }

  /** `canonicalize_jcs`: the text of the shared printer under code-point order. */
  method CanonicalizeJcs(v: Json) returns (t: string)
    requires WellFormed(v)
    ensures t == Text(ByCodePoint, v)
    decreases v, 1
  {
    match v
    case Null => t := "null";
    case Bool(b) => t := if b then "true" else "false";
    case Num(n) => t := IntText(n);
    case Str(s) => t := CanonicalizeJcsString(s);
    case Arr(items) => t := CanonicalizeList(items);
    case Obj(ms) => t := CanonicalizeDict(ms);
  }

  method CanonicalizeList(items: seq<Json>) returns (t: string)
    requires WellFormed(Arr(items))
    ensures t == Text(ByCodePoint, Arr(items))
    decreases items, 0
  {
    ghost var c := Canon(ByCodePoint, Arr(items)).items;
    var parts: seq<string> := [];
    var i := 0;
    while i < |items|
      invariant 0 <= i <= |items| && |parts| == i
      invariant forall j :: 0 <= j < i ==> parts[j] == Emit(c[j])
    {
      var part := CanonicalizeJcs(items[i]);
      parts := parts + [part];
      i := i + 1;
    }
    JoinedItems(c, parts, true);
    t := "[" + Joined(parts, true) + "]";
  }

  /** The parts so far are the first members as printed. */
  predicate FirstMembers(c: seq<Member>, parts: seq<string>)
  {
    |parts| <= |c| && forall j :: 0 <= j < |parts| ==> parts[j] == EmitMember(c[j])
  }

  lemma OneMorePart(c: seq<Member>, parts: seq<string>, part: string)
    requires FirstMembers(c, parts) && |parts| < |c| && part == EmitMember(c[|parts|])
    ensures FirstMembers(c, parts + [part])
  {
  }

  lemma NextMember(ms: seq<Member>, i: nat)
    requires WellFormed(Obj(ms)) && i < |SortKeys(ByCodePoint, Keys(ms))|
    ensures var k, c := SortKeys(ByCodePoint, Keys(ms))[i], Canon(ByCodePoint, Obj(ms)).members;
      k in Keys(ms) && WellFormed(Get(ms, k)) && i < |c| &&
      EmitMember(c[i]) == Quote(k) + ":" + Text(ByCodePoint, Get(ms, k))
  {
    CanonObjectAt(ByCodePoint, ms, i);
  }

  method CanonicalizeDict(ms: seq<Member>) returns (t: string)
    requires WellFormed(Obj(ms))
    ensures t == Text(ByCodePoint, Obj(ms))
    decreases ms, 0
  {
    var keys := SortKeys(ByCodePoint, Keys(ms));
    ghost var c := Canon(ByCodePoint, Obj(ms)).members;
    var parts: seq<string> := [];
    var i := 0;
    while i < |keys|
      invariant 0 <= i <= |keys| && |parts| == i && FirstMembers(c, parts)
    {
      NextMember(ms, i);
      var key := CanonicalizeJcsString(keys[i]);
      var value := CanonicalizeJcs(Get(ms, keys[i]));
      OneMorePart(c, parts, key + ":" + value);
      parts := parts + [key + ":" + value];
      i := i + 1;
    }
    CanonObject(ByCodePoint, ms);
    JoinedMembers(c, parts, true);
    t := "{" + Joined(parts, true) + "}";
  }
}
