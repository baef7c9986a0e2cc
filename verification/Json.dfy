/** Integer-only JSON values, the compact text the printers emit for a value whose
    members are already in order, and a strict reader that inverts it. */
module Json {
  import opened Wrappers
  import opened Texts

  /** serde_json integers: every i64 and every u64. */
  type JsonInt = n: int | -0x8000_0000_0000_0000 <= n < 0x1_0000_0000_0000_0000

  datatype Json =
    | Null
    | Bool(b: bool)
    | Num(n: JsonInt)
    | Str(s: string)
    | Arr(items: seq<Json>)
    | Obj(members: seq<Member>)

  datatype Member = Member(key: string, value: Json)

  /** Regrouping of concatenated texts, and dropping a one-character head. */
  lemma Assoc<T>(a: seq<T>, b: seq<T>, c: seq<T>)
    ensures (a + b) + c == a + (b + c)
  {
  }

  lemma DropHead(c: char, t: string)
    ensures ([c] + t)[0] == c && ([c] + t)[1..] == t
  {
  }

  // ---------- integers ----------

  function DigitChar(d: nat): (c: char)
    requires d < 10
    ensures IsDigit(c) && c as int - 48 == d
  {
    (48 + d) as char
  }

  predicate IsDigit(c: char) { '0' <= c <= '9' }

  predicate AllDigits(t: string) { forall i :: 0 <= i < |t| ==> IsDigit(t[i]) }

  function NatText(n: nat): (t: string)
    ensures t != "" && AllDigits(t)
  {
    if n < 10 then [DigitChar(n)] else NatText(n / 10) + [DigitChar(n % 10)]
  }

  function IntText(n: int): (t: string)
    ensures t != "" && (t[0] == '-' || IsDigit(t[0]))
  {
    if n < 0 then "-" + NatText(-n) else NatText(n)
  }

  /** Decimal without leading zeros. */
  lemma {:induction false} NoLeadingZero(n: nat)
    ensures NatText(n)[0] == '0' <==> n == 0
  {
    if n >= 10 {
      NoLeadingZero(n / 10);
      assert NatText(n)[0] == NatText(n / 10)[0];
    }
  }

  function DigitRun(t: string): (k: nat)
    ensures k <= |t| && AllDigits(t[..k])
  {
    if t == "" || !IsDigit(t[0]) then 0
    else
      var k := DigitRun(t[1..]);
      assert t[..k + 1] == [t[0]] + t[1..][..k];
      k + 1
  }

  function NatValue(ds: string): (n: nat)
    requires AllDigits(ds)
  {
    if ds == "" then 0 else NatValue(ds[..|ds| - 1]) * 10 + (ds[|ds| - 1] as int - 48)
  }

  lemma {:induction false} NatValueText(n: nat)
    ensures NatValue(NatText(n)) == n
  {
    var t := NatText(n);
    if n < 10 {
      assert t[..|t| - 1] == "";
    } else {
      NatValueText(n / 10);
      assert t[..|t| - 1] == NatText(n / 10);
    }
  }

  /** Text that no printed integer could continue into. */
  predicate LegalAfter(rest: string) { rest == "" || !IsDigit(rest[0]) }

  lemma {:induction false} DigitRunStops(ds: string, rest: string)
    requires AllDigits(ds) && LegalAfter(rest)
    ensures DigitRun(ds + rest) == |ds|
  {
    if ds == "" {
      assert ds + rest == rest;
    } else {
      assert (ds + rest)[1..] == ds[1..] + rest;
      DigitRunStops(ds[1..], rest);
    }
  }

  function ReadNat(t: string): (n: nat)
  {
    NatValue(t[..DigitRun(t)])
  }

  /** The integer whose printed form `t` begins with, by looking at sign and digits. */
  function ReadInt(t: string): (n: int)
  {
    if t != "" && t[0] == '-' then 0 - ReadNat(t[1..]) else ReadNat(t)
  }

  function ParseInt(t: string): (r: Option<(JsonInt, string)>)
    ensures r.Some? ==> t == IntText(r.value.0) + r.value.1 && |r.value.1| < |t|
  {
    var n := ReadInt(t);
    var text := IntText(n);
    if -0x8000_0000_0000_0000 <= n < 0x1_0000_0000_0000_0000 && StartsWith(t, text) && LegalAfter(t[|text|..])
    then Some((n, t[|text|..]))
    else None
  }

  lemma ReadNatText(n: nat, rest: string)
    requires LegalAfter(rest)
    ensures ReadNat(NatText(n) + rest) == n
  {
    DigitRunStops(NatText(n), rest);
    assert (NatText(n) + rest)[..|NatText(n)|] == NatText(n);
    NatValueText(n);
  }

  lemma ReadIntText(n: int, rest: string)
    requires LegalAfter(rest)
    ensures ReadInt(IntText(n) + rest) == n
  {
    if n < 0 {
      Assoc("-", NatText(-n), rest);
      DropHead('-', NatText(-n) + rest);
      ReadNatText(-n, rest);
    } else {
      ReadNatText(n, rest);
    }
  }

  lemma ParseIntText(n: JsonInt, rest: string)
    requires LegalAfter(rest)
    ensures ParseInt(IntText(n) + rest) == Some((n, rest))
  {
    ReadIntText(n, rest);
    var text := IntText(n);
    assert (text + rest)[..|text|] == text && (text + rest)[|text|..] == rest;
  }

  // ---------- strings ----------

  function Nib(n: nat): (c: char)
    requires n < 16
  {
    if n < 10 then (48 + n) as char else (87 + n) as char
  }

  function UnNib(c: char): (n: Option<nat>)
    ensures n.Some? ==> n.value < 16
  {
    if '0' <= c <= '9' then Some(c as int - 48)
    else if 'a' <= c <= 'f' then Some(c as int - 87)
    else None
  }

  /** One character, escaped as RFC 8785 section 3.2.2.2 asks. */
  function EscapeChar(c: char): (t: string)
    ensures 1 <= |t| <= 6 && t[0] != '\"'
  {
    var n := c as int;
    if c == '\"' then "\\\""
    else if c == '\\' then "\\\\"
    else if n == 8 then "\\b"
    else if n == 12 then "\\f"
    else if c == '\n' then "\\n"
    else if c == '\r' then "\\r"
    else if c == '\t' then "\\t"
    else if n < 0x20 then "\\u00" + [Nib(n / 16), Nib(n % 16)]
    else [c]
  }

  /** Lower-case hexadecimal digits. */
  lemma NibIs(n: nat)
    requires n < 16
    ensures Nib(n) == "0123456789abcdef"[n]
  {
  }

  /** The escapes of RFC 8785 section 3.2.2.2: the two characters that must be, the five controls
      with short names, every other control as four lower-case hex digits, and nothing else. */
  lemma EscapeTable(c: char)
    ensures c == '\"' ==> EscapeChar(c) == "\\\""
    ensures c == '\\' ==> EscapeChar(c) == "\\\\"
    ensures c as int == 0x08 ==> EscapeChar(c) == "\\b"
    ensures c as int == 0x09 ==> EscapeChar(c) == "\\t"
    ensures c as int == 0x0A ==> EscapeChar(c) == "\\n"
    ensures c as int == 0x0C ==> EscapeChar(c) == "\\f"
    ensures c as int == 0x0D ==> EscapeChar(c) == "\\r"
    ensures c as int < 0x20 && c as int !in {0x08, 0x09, 0x0A, 0x0C, 0x0D} ==>
      EscapeChar(c) == "\\u00" + ["0123456789abcdef"[c as int / 16], "0123456789abcdef"[c as int % 16]]
    ensures c as int >= 0x20 && c != '\"' && c != '\\' ==> EscapeChar(c) == [c]
  {
    var n := c as int;
    if n < 0x20 {
      NibIs(n / 16);
      NibIs(n % 16);
    }
  }

  function Escape(s: string): (t: string)
  {
    if s == "" then "" else EscapeChar(s[0]) + Escape(s[1..])
  }

  function Quote(s: string): (t: string)
  {
    "\"" + Escape(s) + "\""
  }

  /** The character whose escaped form `t` begins with, by looking at that form's shape. */
  function ReadChar(t: string): (c: char)
    requires t != ""
  {
    if t[0] != '\\' || |t| == 1 then t[0]
    else if t[1] == 'b' then 8 as char
    else if t[1] == 'f' then 12 as char
    else if t[1] == 'n' then '\n'
    else if t[1] == 'r' then '\r'
    else if t[1] == 't' then '\t'
    else if t[1] == 'u' && |t| >= 6 && UnNib(t[4]).Some? && UnNib(t[5]).Some?
    then (UnNib(t[4]).value * 16 + UnNib(t[5]).value) as char
    else t[1]
  }

  lemma ReadEscapedChar(c: char, rest: string)
    ensures ReadChar(EscapeChar(c) + rest) == c
    ensures EscapeChar(c) <= EscapeChar(c) + rest
  {
    var n := c as int;
    var t := EscapeChar(c) + rest;
    assert t[..|EscapeChar(c)|] == EscapeChar(c);
    if n < 0x20 && |EscapeChar(c)| == 6 {
      assert t[4] == Nib(n / 16) && t[5] == Nib(n % 16);
      assert UnNib(Nib(n / 16)) == Some(n / 16) && UnNib(Nib(n % 16)) == Some(n % 16);
    }
  }

  function ParseChars(t: string): (r: Option<(string, string)>)
    ensures r.Some? ==> |r.value.1| < |t| && t == Escape(r.value.0) + "\"" + r.value.1
  {
    if t == "" then None
    else if t[0] == '\"' then Some(("", t[1..]))
    else
      var c := ReadChar(t);
      if EscapeChar(c) <= t then
        match ParseChars(t[|EscapeChar(c)|..])
        case None => None
        case Some((s, rest)) =>
          OneMoreChar(t, c, s, rest);
          Some(([c] + s, rest))
      else None
  }

  lemma OneMoreChar(t: string, c: char, s: string, rest: string)
    requires EscapeChar(c) <= t && t[|EscapeChar(c)|..] == Escape(s) + "\"" + rest
    ensures t == Escape([c] + s) + "\"" + rest
  {
    var e, x := EscapeChar(c), Escape(s);
    assert t == e + t[|e|..];
    DropHead(c, s);
    Assoc(e, x + "\"", rest);
    Assoc(e, x, "\"");
  }

  lemma {:induction false} ParseEscaped(s: string, rest: string)
    ensures ParseChars(Escape(s) + "\"" + rest) == Some((s, rest))
  {
    var t := Escape(s) + "\"" + rest;
    if s == "" {
      assert t == "\"" + rest && t[1..] == rest;
    } else {
      var e := EscapeChar(s[0]);
      var tail := Escape(s[1..]) + "\"" + rest;
      assert t == e + tail;
      ReadEscapedChar(s[0], tail);
      assert t[|e|..] == tail && t[0] == e[0];
      ParseEscaped(s[1..], rest);
      assert [s[0]] + s[1..] == s;
    }
  }

  // ---------- values ----------

  /** The compact text of a value, members in the order given. */
  function Emit(v: Json): (t: string)
    ensures t != "" && t[0] != ']'
    decreases v, 0
  {
    match v
    case Null => "null"
    case Bool(b) => if b then "true" else "false"
    case Num(n) => IntText(n)
    case Str(s) => Quote(s)
    case Arr(items) => "[" + EmitItems(items, true) + "]"
    case Obj(members) => "{" + EmitMembers(members, true) + "}"
  }

  function Sep(first: bool): string { if first then "" else "," }

  function EmitItems(items: seq<Json>, first: bool): (t: string)
    decreases items, 1
  {
    if items == [] then ""
    else Sep(first) + Emit(items[0]) + EmitItems(items[1..], false)
  }

  function EmitMember(m: Member): (t: string)
    ensures t != "" && t[0] == '\"'
    decreases m, 0
  {
    Quote(m.key) + ":" + Emit(m.value)
  }

  function EmitMembers(members: seq<Member>, first: bool): (t: string)
    decreases members, 1
  {
    if members == [] then ""
    else Sep(first) + EmitMember(members[0]) + EmitMembers(members[1..], false)
  }

  /** Texts separated by single commas. */
  function Commas(parts: seq<string>): string
  {
    if parts == [] then "" else if |parts| == 1 then parts[0] else parts[0] + ("," + Commas(parts[1..]))
  }

  predicate PairText(m: Member, t: string) { t == Quote(m.key) + ":" + Emit(m.value) }

  /** The punctuation: bare words, brackets and braces, commas and colons, and no blanks. */
  lemma Punctuation(items: seq<Json>, members: seq<Member>, texts: seq<string>, pairs: seq<string>)
    requires |texts| == |items| && forall i :: 0 <= i < |items| ==> texts[i] == Emit(items[i])
    requires |pairs| == |members|
    requires forall i :: 0 <= i < |members| ==> PairText(members[i], pairs[i])
    ensures Emit(Null) == "null" && Emit(Bool(true)) == "true" && Emit(Bool(false)) == "false"
    ensures Emit(Arr(items)) == "[" + Commas(texts) + "]" && Emit(Obj(members)) == "{" + Commas(pairs) + "}"
  {
    ItemsJoined(items, texts);
    MembersJoined(members, pairs);
  }

  // One more text in front; `tail` is the rest with its comma.
  lemma CommaBefore(texts: seq<string>, text: string, tail: string)
    requires texts != [] && text == texts[0] && tail == if |texts| == 1 then "" else "," + Commas(texts[1..])
    ensures "" + text + tail == Commas(texts) && "," + text + tail == "," + Commas(texts)
  {
    assert Commas(texts) == text + tail;
    Assoc(",", text, tail);
    assert "" + text == text;
  }

  lemma {:induction false} ItemsJoined(items: seq<Json>, texts: seq<string>)
    requires |texts| == |items| && forall i :: 0 <= i < |items| ==> texts[i] == Emit(items[i])
    ensures EmitItems(items, true) == Commas(texts)
    ensures EmitItems(items, false) == if items == [] then "" else "," + Commas(texts)
  {
    if items != [] {
      ItemsJoined(items[1..], texts[1..]);
      CommaBefore(texts, texts[0], EmitItems(items[1..], false));
    }
  }

  lemma {:induction false} MembersJoined(members: seq<Member>, pairs: seq<string>)
    requires |pairs| == |members|
    requires forall i :: 0 <= i < |members| ==> PairText(members[i], pairs[i])
    ensures EmitMembers(members, true) == Commas(pairs)
    ensures EmitMembers(members, false) == if members == [] then "" else "," + Commas(pairs)
  {
    if members != [] {
      MembersJoined(members[1..], pairs[1..]);
      assert PairText(members[0], pairs[0]) && EmitMember(members[0]) == pairs[0];
      CommaBefore(pairs, pairs[0], EmitMembers(members[1..], false));
    }
  }

  /** A strict reader: it consumes one emitted value and returns what follows. */
  function ParseValue(t: string): (r: Option<(Json, string)>)
    ensures r.Some? ==> |r.value.1| < |t|
    decreases |t|, 0
  {
    if t == "" then None
    else if t[0] == 'n' then if StartsWith(t, "null") then Some((Null, t[4..])) else None
    else if t[0] == 't' then if StartsWith(t, "true") then Some((Bool(true), t[4..])) else None
    else if t[0] == 'f' then if StartsWith(t, "false") then Some((Bool(false), t[5..])) else None
    else if t[0] == '\"' then
      match ParseChars(t[1..])
      case None => None
      case Some((s, rest)) => Some((Str(s), rest))
    else if t[0] == '[' then
      match ParseItems(t[1..], true)
      case None => None
      case Some((items, rest)) => Some((Arr(items), rest))
    else if t[0] == '{' then
      match ParseMembers(t[1..], true)
      case None => None
      case Some((members, rest)) => Some((Obj(members), rest))
    else
      match ParseInt(t)
      case None => None
      case Some((n, rest)) => Some((Num(n), rest))
  }

  function ParseItems(t: string, first: bool): (r: Option<(seq<Json>, string)>)
    ensures r.Some? ==> |r.value.1| < |t|
    decreases |t|, 1
  {
    if t == "" then None
    else if t[0] == ']' then Some(([], t[1..]))
    else if !first && t[0] != ',' then None
    else
      match ParseValue(if first then t else t[1..])
      case None => None
      case Some((v, more)) =>
        match ParseItems(more, false)
        case None => None
        case Some((items, rest)) => Some(([v] + items, rest))
  }

  function ParseMembers(t: string, first: bool): (r: Option<(seq<Member>, string)>)
    ensures r.Some? ==> |r.value.1| < |t|
    decreases |t|, 1
  {
    if t == "" then None
    else if t[0] == '}' then Some(([], t[1..]))
    else if !first && t[0] != ',' then None
    else
      match ParseMember(if first then t else t[1..])
      case None => None
      case Some((m, more)) =>
        match ParseMembers(more, false)
        case None => None
        case Some((members, rest)) => Some(([m] + members, rest))
  }

  function ParseMember(t: string): (r: Option<(Member, string)>)
    ensures r.Some? ==> |r.value.1| < |t|
    decreases |t|, 0
  {
    if t == "" || t[0] != '\"' then None
    else
      match ParseChars(t[1..])
      case None => None
      case Some((key, after)) =>
        if after == "" || after[0] != ':' then None
        else
          match ParseValue(after[1..])
          case None => None
          case Some((v, more)) => Some((Member(key, v), more))
  }

  lemma ParseEmitWord(v: Json, rest: string)
    requires v.Null? || v.Bool?
    ensures ParseValue(Emit(v) + rest) == Some((v, rest))
  {
    var e := Emit(v);
    var t := e + rest;
    assert t[0] == e[0] && t[..|e|] == e && t[|e|..] == rest;
  }

  lemma ParseEmitNum(n: JsonInt, rest: string)
    requires LegalAfter(rest)
    ensures ParseValue(Emit(Num(n)) + rest) == Some((Num(n), rest))
  {
    ParseIntText(n, rest);
    assert (IntText(n) + rest)[0] == IntText(n)[0];
  }

  lemma ParseEmitStr(s: string, rest: string)
    ensures ParseValue(Emit(Str(s)) + rest) == Some((Str(s), rest))
  {
    ParseEscaped(s, rest);
    Assoc("\"" + Escape(s), "\"", rest);
    Assoc("\"", Escape(s), "\"" + rest);
    Assoc(Escape(s), "\"", rest);
    DropHead('\"', Escape(s) + "\"" + rest);
  }

  /** Unique readability: an emitted value followed by any legal text reads back as that
      value and leaves exactly that text. */
  lemma {:induction false} ParseEmit(v: Json, rest: string)
    requires LegalAfter(rest)
    ensures ParseValue(Emit(v) + rest) == Some((v, rest))
    decreases v, 2
  {
    match v
    case Arr(items) =>
      ParseEmitArr(items, rest);
    case Obj(members) =>
      ParseEmitObj(members, rest);
    case Num(n) =>
      ParseEmitNum(n, rest);
    case Str(s) =>
      ParseEmitStr(s, rest);
    case _ =>
      ParseEmitWord(v, rest);
  }

  // What the reader does after an opening bracket or brace.
  lemma ParseBracket(u: string)
    ensures ParseValue("[" + u) ==
      match ParseItems(u, true) case None => None case Some((items, rest)) => Some((Arr(items), rest))
  {
    DropHead('[', u);
  }

  lemma ParseBrace(u: string)
    ensures ParseValue("{" + u) ==
      match ParseMembers(u, true) case None => None case Some((members, rest)) => Some((Obj(members), rest))
  {
    DropHead('{', u);
  }

  lemma {:induction false} ParseEmitArr(items: seq<Json>, rest: string)
    ensures ParseValue(Emit(Arr(items)) + rest) == Some((Arr(items), rest))
    decreases items, 2
  {
    ParseEmitItems(items, true, rest);
    Bracketed("[", EmitItems(items, true), "]", rest);
    ParseBracket(EmitItems(items, true) + "]" + rest);
  }

  lemma {:induction false} ParseEmitObj(members: seq<Member>, rest: string)
    ensures ParseValue(Emit(Obj(members)) + rest) == Some((Obj(members), rest))
    decreases members, 2
  {
    ParseEmitMembers(members, true, rest);
    Bracketed("{", EmitMembers(members, true), "}", rest);
    ParseBrace(EmitMembers(members, true) + "}" + rest);
  }

  lemma Bracketed(open: string, inner: string, close: string, rest: string)
    ensures (open + inner + close) + rest == open + (inner + close + rest)
  {
    Assoc(open, inner, close);
    Assoc(open, inner + close, rest);
  }

  // Text after its separator, if there is one.
  lemma AfterSep(first: bool, u: string)
    requires u != ""
    ensures var t := Sep(first) + u; t != "" && t[0] == (if first then u[0] else ',') && (if first then t else t[1..]) == u
  {
    if !first {
      DropHead(',', u);
    } else {
      assert "" + u == u;
    }
  }

  // One more item read, given what is read of it and after it.
  lemma ItemRead(t: string, first: bool, u: string, v: Json, more: string, tail: seq<Json>, rest: string)
    requires t != "" && t[0] != ']' && (first || t[0] == ',') && u == (if first then t else t[1..])
    requires ParseValue(u) == Some((v, more)) && ParseItems(more, false) == Some((tail, rest))
    ensures ParseItems(t, first) == Some(([v] + tail, rest))
  {
  }

  lemma {:induction false} ParseEmitItems(items: seq<Json>, first: bool, rest: string)
    ensures ParseItems(EmitItems(items, first) + "]" + rest, first) == Some((items, rest))
    decreases items, 1
  {
    if items == [] {
      var t := EmitItems(items, first) + "]" + rest;
      assert t == "]" + rest && t[1..] == rest;
    } else {
      var v, tail := items[0], items[1..];
      var more := EmitItems(tail, false) + "]" + rest;
      ParseEmit(v, more);
      ParseEmitItems(tail, false, rest);
      var u := Emit(v) + more;
      AfterSep(first, u);
      ItemRead(Sep(first) + u, first, u, v, more, tail, rest);
      ItemsText(u, first, v, more, tail, rest);
      assert [v] + tail == items;
    }
  }

  lemma MemberText(m: Member, rest: string)
    ensures EmitMember(m) + rest == "\"" + (Escape(m.key) + "\"" + (":" + (Emit(m.value) + rest)))
  {
    var q, e := Escape(m.key), Emit(m.value);
    Assoc("\"" + q + "\"" + ":", e, rest);
    Assoc("\"" + q + "\"", ":", e + rest);
    Assoc("\"" + q, "\"", ":" + (e + rest));
    Assoc("\"", q, "\"" + (":" + (e + rest)));
    Assoc(q, "\"", ":" + (e + rest));
  }

  lemma {:induction false} ParseEmitMember(m: Member, rest: string)
    requires LegalAfter(rest)
    ensures ParseMember(EmitMember(m) + rest) == Some((m, rest))
    decreases m, 0
  {
    var t := EmitMember(m) + rest;
    var value := Emit(m.value) + rest;
    ParseEmit(m.value, rest);
    MemberText(m, rest);
    assert t[1..] == Escape(m.key) + "\"" + (":" + value);
    ParseEscaped(m.key, ":" + value);
    assert (":" + value)[1..] == value;
  }

  lemma MemberRead(t: string, first: bool, u: string, m: Member, more: string, tail: seq<Member>, rest: string)
    requires t != "" && t[0] != '}' && (first || t[0] == ',') && u == (if first then t else t[1..])
    requires ParseMember(u) == Some((m, more)) && ParseMembers(more, false) == Some((tail, rest))
    ensures ParseMembers(t, first) == Some(([m] + tail, rest))
  {
  }

  lemma {:induction false} ParseEmitMembers(members: seq<Member>, first: bool, rest: string)
    ensures ParseMembers(EmitMembers(members, first) + "}" + rest, first) == Some((members, rest))
    decreases members, 1
  {
    if members == [] {
      var t := EmitMembers(members, first) + "}" + rest;
      assert t == "}" + rest && t[1..] == rest;
    } else {
      var m, tail := members[0], members[1..];
      var more := EmitMembers(tail, false) + "}" + rest;
      ParseEmitMember(m, more);
      ParseEmitMembers(tail, false, rest);
      var u := EmitMember(m) + more;
      AfterSep(first, u);
      MemberRead(Sep(first) + u, first, u, m, more, tail, rest);
      MembersText(u, first, m, more, tail, rest);
      assert [m] + tail == members;
    }
  }

  // The opening character decides what was read.
  lemma ReadShape(t: string, v: Json, rest: string)
    requires ParseValue(t) == Some((v, rest))
    ensures t != ""
    ensures v.Null? || v.Bool? <==> t[0] == 'n' || t[0] == 't' || t[0] == 'f'
    ensures v.Str? <==> t[0] == '\"'
    ensures v.Arr? ==> t[0] == '[' && ParseItems(t[1..], true) == Some((v.items, rest))
    ensures v.Obj? ==> t[0] == '{' && ParseMembers(t[1..], true) == Some((v.members, rest))
    ensures v.Num? ==> ParseInt(t) == Some((v.n, rest))
  {
  }

  lemma ReadWord(t: string, v: Json, rest: string)
    requires ParseValue(t) == Some((v, rest)) && (v.Null? || v.Bool?)
    ensures t == Emit(v) + rest
  {
    ReadShape(t, v, rest);
    var word := Emit(v);
    assert StartsWith(t, word) && t[|word|..] == rest;
  }

  lemma ReadString(t: string, s: string, rest: string)
    requires ParseValue(t) == Some((Str(s), rest))
    ensures t == Emit(Str(s)) + rest
  {
    ReadShape(t, Str(s), rest);
    assert t == "\"" + t[1..];
    Bracketed("\"", Escape(s), "\"", rest);
  }

  lemma ReadBracketed(t: string, c: char, inner: string, close: string, rest: string)
    requires t != "" && t[0] == c && t[1..] == inner + close + rest
    ensures t == ([c] + inner + close) + rest
  {
    assert t == [c] + t[1..];
    Bracketed([c], inner, close, rest);
  }

  /** The converse: whatever the reader accepts is the emitted form of what it returns. */
  lemma {:induction false} ParseSound(t: string, v: Json, rest: string)
    requires ParseValue(t) == Some((v, rest))
    ensures t == Emit(v) + rest
    decreases |t|, 0
  {
    ReadShape(t, v, rest);
    match v
    case Arr(items) =>
      ParseItemsSound(t[1..], true, items, rest);
      ReadBracketed(t, '[', EmitItems(items, true), "]", rest);
    case Obj(members) =>
      ParseMembersSound(t[1..], true, members, rest);
      ReadBracketed(t, '{', EmitMembers(members, true), "}", rest);
    case Num(_) =>
    case Str(s) => ReadString(t, s, rest);
    case _ => ReadWord(t, v, rest);
  }

  lemma SepBody(t: string, first: bool)
    requires t != "" && (first || t[0] == ',')
    ensures Sep(first) + (if first then t else t[1..]) == t
  {
  }

  lemma ItemsText(u: string, first: bool, v: Json, more: string, tail: seq<Json>, rest: string)
    requires u == Emit(v) + more
    requires more == EmitItems(tail, false) + "]" + rest
    ensures Sep(first) + u == EmitItems([v] + tail, first) + "]" + rest
  {
    assert ([v] + tail)[1..] == tail;
    var e, es := Emit(v), EmitItems(tail, false);
    Assoc(Sep(first) + e + es, "]", rest);
    Assoc(Sep(first) + e, es, "]" + rest);
    Assoc(Sep(first), e, es + ("]" + rest));
    Assoc(es, "]", rest);
  }

  lemma {:induction false} ParseItemsSound(t: string, first: bool, items: seq<Json>, rest: string)
    requires ParseItems(t, first) == Some((items, rest))
    ensures t == EmitItems(items, first) + "]" + rest
    decreases |t|, 1
  {
    if t[0] != ']' {
      var u := if first then t else t[1..];
      var (v, more) := ParseValue(u).value;
      var (tail, end) := ParseItems(more, false).value;
      assert items == [v] + tail && end == rest;
      ParseSound(u, v, more);
      ParseItemsSound(more, false, tail, rest);
      SepBody(t, first);
      ItemsText(u, first, v, more, tail, rest);
    }
  }

  lemma MembersText(u: string, first: bool, m: Member, more: string, tail: seq<Member>, rest: string)
    requires u == EmitMember(m) + more
    requires more == EmitMembers(tail, false) + "}" + rest
    ensures Sep(first) + u == EmitMembers([m] + tail, first) + "}" + rest
  {
    assert ([m] + tail)[1..] == tail;
    var e, es := EmitMember(m), EmitMembers(tail, false);
    Assoc(Sep(first) + e + es, "}", rest);
    Assoc(Sep(first) + e, es, "}" + rest);
    Assoc(Sep(first), e, es + ("}" + rest));
    Assoc(es, "}", rest);
  }

  lemma {:induction false} ParseMembersSound(t: string, first: bool, ms: seq<Member>, rest: string)
    requires ParseMembers(t, first) == Some((ms, rest))
    ensures t == EmitMembers(ms, first) + "}" + rest
    decreases |t|, 1
  {
    if t[0] != '}' {
      var u := if first then t else t[1..];
      var (m, more) := ParseMember(u).value;
      var (tail, end) := ParseMembers(more, false).value;
      assert ms == [m] + tail && end == rest;
      ParseMemberSound(u, m, more);
      ParseMembersSound(more, false, tail, rest);
      SepBody(t, first);
      MembersText(u, first, m, more, tail, rest);
    }
  }

  lemma {:induction false} ParseMemberSound(t: string, m: Member, rest: string)
    requires ParseMember(t) == Some((m, rest))
    ensures t == EmitMember(m) + rest
    decreases |t|, 0
  {
    var after := ParseChars(t[1..]).value.1;
    ParseSound(after[1..], m.value, rest);
    MemberText(m, rest);
    assert after == ":" + (Emit(m.value) + rest);
    assert t[1..] == Escape(m.key) + "\"" + after;
  }

  /** Emitted texts are prefix-free up to legal following text. */
  lemma EmitInjective(v: Json, w: Json, x: string, y: string)
    requires LegalAfter(x) && LegalAfter(y)
    requires Emit(v) + x == Emit(w) + y
    ensures v == w && x == y
  {
    ParseEmit(v, x);
    ParseEmit(w, y);
  }
}
