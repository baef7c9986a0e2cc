/** The byte writers of the Rust canonicalizer: they push onto a byte vector, and are
    proved to append exactly the canonical bytes. */
module Writers {
  import opened Utf8
  import opened Utf16
  import opened Json
  import opened Canonical

  /** The growing `Vec<u8>` every writer pushes onto. */
  class ByteVec {
    var data: seq<byte>

    constructor ()
      ensures data == []
    {
      data := [];
    }

    method ExtendFromSlice(b: seq<byte>)
      modifies this
      ensures data == old(data) + b
    {
      data := data + b;
    }

    method PushText(t: string)
      modifies this
      ensures data == old(data) + Encode(t)
    {
      ExtendFromSlice(Encode(t));
    }
  }

  method WriteNumber(n: JsonInt, out: ByteVec)
    modifies out
    ensures out.data == old(out.data) + Encode(Emit(Num(n)))
  {
    if n < 0x8000_0000_0000_0000 {
      out.PushText(IntText(n));
    } else {
      out.PushText(NatText(n));
    }
  }

  lemma StringTail(c: char, t: string)
    ensures Encode(Escape([c] + t) + "\"") == Encode(EscapeChar(c)) + Encode(Escape(t) + "\"")
  {
    assert ([c] + t)[1..] == t;
    Assoc(EscapeChar(c), Escape(t), "\"");
    EncodeConcat(EscapeChar(c), Escape(t) + "\"");
  }

  // Pushing the next pieces moves them from what is owed to what is written.
  lemma Pushed(data: seq<byte>, a: seq<byte>, b: seq<byte>, owed: seq<byte>, goal: seq<byte>)
    requires data + (a + (b + owed)) == goal
    ensures data + a + b + owed == goal
  {
    Assoc(data + a, b, owed);
    Assoc(data, a, b + owed);
  }

  lemma SepTail(first: bool, e: string, tail: string, end: string)
    ensures Encode(Sep(first) + e + tail + end) == Encode(Sep(first)) + (Encode(e) + Encode(tail + end))
  {
    Assoc(Sep(first) + e, tail, end);
    Assoc(Sep(first), e, tail + end);
    EncodeConcat(Sep(first), e + (tail + end));
    EncodeConcat(e, tail + end);
  }

  lemma ItemsOwed(c: seq<Json>, i: nat, first: bool)
    requires i < |c|
    ensures Encode(EmitItems(c[i..], first) + "]") ==
      Encode(Sep(first)) + (Encode(Emit(c[i])) + Encode(EmitItems(c[i + 1..], false) + "]"))
  {
    assert c[i..][0] == c[i] && c[i..][1..] == c[i + 1..];
    SepTail(first, Emit(c[i]), EmitItems(c[i + 1..], false), "]");
  }

  lemma MembersOwed(c: seq<Member>, i: nat, first: bool)
    requires i < |c|
    ensures Encode(EmitMembers(c[i..], first) + "}") ==
      Encode(Sep(first)) + (Encode(EmitMember(c[i])) + Encode(EmitMembers(c[i + 1..], false) + "}"))
  {
    assert c[i..][0] == c[i] && c[i..][1..] == c[i + 1..];
    SepTail(first, EmitMember(c[i]), EmitMembers(c[i + 1..], false), "}");
  }

  lemma ItemsEnds(c: seq<Json>)
    ensures Encode(Emit(Arr(c))) == Encode("[") + Encode(EmitItems(c[0..], true) + "]")
    ensures forall first :: Encode(EmitItems(c[|c|..], first) + "]") == Encode("]")
  {
    assert c[0..] == c;
    Assoc("[", EmitItems(c, true), "]");
    EncodeConcat("[", EmitItems(c, true) + "]");
    forall first ensures EmitItems(c[|c|..], first) + "]" == "]" {
      assert EmitItems(c[|c|..], first) == "";
    }
  }

  lemma MembersEnds(c: seq<Member>)
    ensures Encode(Emit(Obj(c))) == Encode("{") + Encode(EmitMembers(c[0..], true) + "}")
    ensures forall first :: Encode(EmitMembers(c[|c|..], first) + "}") == Encode("}")
  {
    assert c[0..] == c;
    Assoc("{", EmitMembers(c, true), "}");
    EncodeConcat("{", EmitMembers(c, true) + "}");
    forall first ensures EmitMembers(c[|c|..], first) + "}" == "}" {
      assert EmitMembers(c[|c|..], first) == "";
    }
  }

  lemma MemberBytes(m: Member)
    ensures Encode(EmitMember(m)) == Encode(Quote(m.key)) + (Encode(":") + Encode(Emit(m.value)))
  {
    Assoc(Quote(m.key), ":", Emit(m.value));
    EncodeConcat(Quote(m.key), ":" + Emit(m.value));
    EncodeConcat(":", Emit(m.value));
  }

  method WriteChar(c: char, out: ByteVec)
    modifies out
    ensures out.data == old(out.data) + Encode(EscapeChar(c))
  {
    if c == '\"' {
      out.PushText("\\\"");
    } else if c == '\\' {
      out.PushText("\\\\");
    } else if c as int == 8 {
      out.PushText("\\b");
    } else if c as int == 12 {
      out.PushText("\\f");
    } else if c == '\n' {
      out.PushText("\\n");
    } else if c == '\r' {
      out.PushText("\\r");
    } else if c == '\t' {
      out.PushText("\\t");
    } else if c as int < 0x20 {
      out.PushText("\\u00" + [Nib(c as int / 16), Nib(c as int % 16)]);
    } else {
      out.PushText([c]);
    }
  }

  method WriteString(s: string, out: ByteVec)
    modifies out
    ensures out.data == old(out.data) + Encode(Quote(s))
  {
    ghost var goal := out.data + Encode(Quote(s));
    Assoc("\"", Escape(s), "\"");
    EncodeConcat("\"", Escape(s) + "\"");
    Assoc(out.data, Encode("\""), Encode(Escape(s) + "\""));
    out.PushText("\"");
    var i := 0;
    assert s[0..] == s;
    while i < |s|
      invariant 0 <= i <= |s|
      invariant out.data + Encode(Escape(s[i..]) + "\"") == goal
    {
      assert s[i..] == [s[i]] + s[i + 1..];
      StringTail(s[i], s[i + 1..]);
      Assoc(out.data, Encode(EscapeChar(s[i])), Encode(Escape(s[i + 1..]) + "\""));
      WriteChar(s[i], out);
      i := i + 1;
    }
    out.PushText("\"");
  }

  /** Appends the canonical bytes of `v`: keys sorted, no space, members looked up by key. */
  method WriteCanonical(v: Json, out: ByteVec)
    requires WellFormed(v)
    modifies out
    ensures out.data == old(out.data) + CanonicalBytes(v)
    decreases v, 1
  {
    match v
    case Null => out.PushText("null");
    case Bool(b) => if b { out.PushText("true"); } else { out.PushText("false"); }
    case Num(n) => WriteNumber(n, out);
    case Str(s) => WriteString(s, out);
    case Arr(items) => WriteArray(items, out);
    case Obj(ms) => WriteObject(ms, out);
  }

  /** After `i` items, what is still owed completes `goal`. */
  ghost predicate ItemsLeft(items: seq<Json>, i: nat, first: bool, data: seq<byte>, goal: seq<byte>)
    requires WellFormed(Arr(items)) && i <= |items|
  {
    var c := Canon(ByUtf16, Arr(items)).items;
    data + Encode(EmitItems(c[i..], first) + "]") == goal
  }

  lemma ItemStep(items: seq<Json>, i: nat, first: bool, data: seq<byte>, goal: seq<byte>)
    requires WellFormed(Arr(items)) && i < |items| && ItemsLeft(items, i, first, data, goal)
    ensures WellFormed(items[i])
    ensures ItemsLeft(items, i + 1, false, data + Encode(Sep(first)) + CanonicalBytes(items[i]), goal)
  {
    var c := Canon(ByUtf16, Arr(items)).items;
    ItemsOwed(c, i, first);
    Pushed(data, Encode(Sep(first)), Encode(Emit(c[i])), Encode(EmitItems(c[i + 1..], false) + "]"), goal);
  }

  lemma ItemsStart(items: seq<Json>, data: seq<byte>)
    requires WellFormed(Arr(items))
    ensures ItemsLeft(items, 0, true, data + Encode("["), data + CanonicalBytes(Arr(items)))
  {
    var c := Canon(ByUtf16, Arr(items)).items;
    ItemsEnds(c);
    Assoc(data, Encode("["), Encode(EmitItems(c[0..], true) + "]"));
  }

  lemma ItemsDone(items: seq<Json>, first: bool, data: seq<byte>, goal: seq<byte>)
    requires WellFormed(Arr(items)) && ItemsLeft(items, |items|, first, data, goal)
    ensures data + Encode("]") == goal
  {
    ItemsEnds(Canon(ByUtf16, Arr(items)).items);
  }

  method WriteArray(items: seq<Json>, out: ByteVec)
    requires WellFormed(Arr(items))
    modifies out
    ensures out.data == old(out.data) + CanonicalBytes(Arr(items))
    decreases items, 0
  {
    ghost var goal := out.data + CanonicalBytes(Arr(items));
    ItemsStart(items, out.data);
    out.PushText("[");
    var first := true;
    var i := 0;
    while i < |items|
      invariant 0 <= i <= |items| && ItemsLeft(items, i, first, out.data, goal)
    {
      ItemStep(items, i, first, out.data, goal);
      WriteSep(first, out);
      first := false;
      WriteCanonical(items[i], out);
      i := i + 1;
    }
    ItemsDone(items, first, out.data, goal);
    out.PushText("]");
  }

  method WriteSep(first: bool, out: ByteVec)
    modifies out
    ensures out.data == old(out.data) + Encode(Sep(first))
  {
    if !first {
      out.PushText(",");
    }
  }

  method WriteMember(key: string, value: Json, out: ByteVec)
    requires WellFormed(value)
    modifies out
    ensures out.data == old(out.data) + Encode(EmitMember(Member(key, Canon(ByUtf16, value))))
    decreases value, 2
  {
    ghost var q, e := Encode(Quote(key)), CanonicalBytes(value);
    MemberBytes(Member(key, Canon(ByUtf16, value)));
    Assoc(out.data + q, Encode(":"), e);
    Assoc(out.data, q, Encode(":") + e);
    WriteString(key, out);
    out.PushText(":");
    WriteCanonical(value, out);
  }

  /** After `i` members, what is still owed completes `goal`. */
  ghost predicate MembersLeft(ms: seq<Member>, i: nat, first: bool, data: seq<byte>, goal: seq<byte>)
    requires WellFormed(Obj(ms))
  {
    var c := Canon(ByUtf16, Obj(ms)).members;
    i <= |c| && data + Encode(EmitMembers(c[i..], first) + "}") == goal
  }

  lemma MemberStep(ms: seq<Member>, i: nat, first: bool, data: seq<byte>, goal: seq<byte>)
    requires WellFormed(Obj(ms)) && i < |SortKeys(ByUtf16, Keys(ms))| && MembersLeft(ms, i, first, data, goal)
    ensures var k := SortKeys(ByUtf16, Keys(ms))[i];
      k in Keys(ms) && WellFormed(Get(ms, k)) &&
      MembersLeft(ms, i + 1, false,
                  data + Encode(Sep(first)) + Encode(EmitMember(Member(k, Canon(ByUtf16, Get(ms, k))))), goal)
  {
    var c := Canon(ByUtf16, Obj(ms)).members;
    CanonObjectAt(ByUtf16, ms, i);
    MembersOwed(c, i, first);
    Pushed(data, Encode(Sep(first)), Encode(EmitMember(c[i])), Encode(EmitMembers(c[i + 1..], false) + "}"), goal);
  }

  lemma MembersStart(ms: seq<Member>, data: seq<byte>)
    requires WellFormed(Obj(ms))
    ensures MembersLeft(ms, 0, true, data + Encode("{"), data + CanonicalBytes(Obj(ms)))
  {
    var c := Canon(ByUtf16, Obj(ms)).members;
    MembersEnds(c);
    Assoc(data, Encode("{"), Encode(EmitMembers(c[0..], true) + "}"));
  }

  lemma MembersDone(ms: seq<Member>, first: bool, data: seq<byte>, goal: seq<byte>)
    requires WellFormed(Obj(ms)) && MembersLeft(ms, |SortKeys(ByUtf16, Keys(ms))|, first, data, goal)
    ensures data + Encode("}") == goal
  {
    CanonObject(ByUtf16, ms);
    MembersEnds(Canon(ByUtf16, Obj(ms)).members);
  }

  method WriteObject(ms: seq<Member>, out: ByteVec)
    requires WellFormed(Obj(ms))
    modifies out
    ensures out.data == old(out.data) + CanonicalBytes(Obj(ms))
    decreases ms, 0
  {
    var keys := SortKeys(ByUtf16, Keys(ms));
    ghost var goal := out.data + CanonicalBytes(Obj(ms));
    MembersStart(ms, out.data);
    out.PushText("{");
    var first := true;
    var i := 0;
    while i < |keys|
      invariant 0 <= i <= |keys| && MembersLeft(ms, i, first, out.data, goal)
    {
      MemberStep(ms, i, first, out.data, goal);
      WriteSep(first, out);
      first := false;
      WriteMember(keys[i], Get(ms, keys[i]), out);
      i := i + 1;
    }
    MembersDone(ms, first, out.data, goal);
    out.PushText("}");
  }

  /** The public entry point: canonicalize a value into a fresh vector. */
  method ToVecFromValue(v: Json) returns (bytes: seq<byte>)
    requires WellFormed(v)
    ensures bytes == CanonicalBytes(v)
  {
    var out := new ByteVec();
    WriteCanonical(v, out);
    bytes := out.data;
  }
}
