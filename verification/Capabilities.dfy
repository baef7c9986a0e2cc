/** Capability scoping: the one-pass glob matcher against the meaning of `*`. */
module Capabilities {
  import opened Wrappers
  import opened Texts

  datatype Capability =
    | NetConnect(glob: string)
    | FileRead(glob: string)
    | FileWrite(glob: string)
    | ShellExec(glob: string)
    | EnvRead(glob: string)
    | LlmQuery(glob: string)
    | SecretRead(glob: string)

  /** The meaning of a pattern: `*` stands for any text, every other character for itself. */
  ghost predicate Fits(p: string, c: string)
    decreases |p|
  {
    if p == "" then c == ""
    else if p[0] == '*' then exists k :: 0 <= k <= |c| && Fits(p[1..], c[k..])
    else c != "" && c[0] == p[0] && Fits(p[1..], c[1..])
  }

  /** The pattern cut at every `*`. */
  function Split(p: string): (parts: seq<string>)
    ensures parts != []
  {
    if p == "" then [""]
    else
      var rest := Split(p[1..]);
      if p[0] == '*' then [""] + rest else [[p[0]] + rest[0]] + rest[1..]
  }

  /** The leftmost place where `part` occurs. */
  function Find(s: string, part: string): (r: Option<nat>)
    ensures r.Some? ==> r.value + |part| <= |s|
  {
    if |s| < |part| then None
    else if s[..|part|] == part then Some(0)
    else
      match Find(s[1..], part)
      case None => None
      case Some(k) => Some(k + 1)
  }

  /** It is a place where `part` occurs, it is the first, and there is none only if there is none. */
  lemma {:induction false} FindIsLeftmost(s: string, part: string, j: nat)
    ensures Find(s, part).Some? ==> OccursAt(s, part, Find(s, part).value)
    ensures OccursAt(s, part, j) ==> Find(s, part).Some? && Find(s, part).value <= j
  {
    if |part| <= |s| && s[..|part|] != part {
      FindIsLeftmost(s[1..], part, if j == 0 then 0 else j - 1);
      OccursLater(s, part, j);
      if Find(s[1..], part).Some? {
        OccursLater(s, part, Find(s[1..], part).value + 1);
      }
    }
  }

  lemma OccursLater(s: string, part: string, j: nat)
    requires s != ""
    ensures j > 0 ==> (OccursAt(s, part, j) <==> OccursAt(s[1..], part, j - 1))
    ensures j == 0 ==> (OccursAt(s, part, j) <==> StartsWith(s, part))
  {
    if j > 0 && j + |part| <= |s| {
      assert s[1..][j - 1..j - 1 + |part|] == s[j..j + |part|];
    }
  }

  lemma DropDrop<T>(s: seq<T>, a: nat, b: nat)
    requires a + b <= |s|
    ensures s[a..][b..] == s[a + b..]
  {
  }

  // ---------- the meaning, part by part ----------

  ghost predicate FitsParts(parts: seq<string>, c: string)
    requires parts != []
    decreases |parts|, 0
  {
    if |parts| == 1 then c == parts[0]
    else StartsWith(c, parts[0]) && FitsLater(parts[1..], c[|parts[0]|..])
  }

  /** The parts fit after skipping some text. */
  ghost predicate FitsLater(parts: seq<string>, c: string)
    requires parts != []
    decreases |parts|, 1
  {
    exists k :: 0 <= k <= |c| && FitsParts(parts, c[k..])
  }

  lemma StarFirst(rest: seq<string>, c: string)
    requires rest != []
    ensures FitsParts([""] + rest, c) <==> FitsLater(rest, c)
  {
    var parts := [""] + rest;
    assert parts[1..] == rest && parts[0] == "" && c[0..] == c;
  }

  lemma StartsAfter(x: char, part: string, c: string)
    ensures StartsWith(c, [x] + part) <==> c != "" && c[0] == x && StartsWith(c[1..], part)
    ensures StartsWith(c, [x] + part) ==> c[1 + |part|..] == c[1..][|part|..]
    ensures c == [x] + part <==> c != "" && c[0] == x && c[1..] == part
  {
    if c != "" {
      assert c == [c[0]] + c[1..];
      assert |c| >= 1 + |part| ==> c[..1 + |part|] == [c[0]] + c[1..][..|part|];
    }
  }

  lemma CharFirst(x: char, rest: seq<string>, c: string)
    requires rest != []
    ensures FitsParts([[x] + rest[0]] + rest[1..], c) <==> c != "" && c[0] == x && FitsParts(rest, c[1..])
  {
    var parts := [[x] + rest[0]] + rest[1..];
    assert parts[0] == [x] + rest[0] && parts[1..] == rest[1..];
    StartsAfter(x, rest[0], c);
  }

  lemma {:induction false} SplitMeaning(p: string, c: string)
    ensures Fits(p, c) <==> FitsParts(Split(p), c)
    decreases |p|
  {
    if p == "" {
    } else {
      var rest := Split(p[1..]);
      if p[0] == '*' {
        StarFirst(rest, c);
        forall k | 0 <= k <= |c| ensures Fits(p[1..], c[k..]) <==> FitsParts(rest, c[k..]) {
          SplitMeaning(p[1..], c[k..]);
        }
      } else {
        CharFirst(p[0], rest, c);
        if c != "" {
          SplitMeaning(p[1..], c[1..]);
        }
      }
    }
  }

  // Text skipped on the left can always be skipped by the next `*`.
  lemma FitsEarlier(parts: seq<string>, c: string, i: nat, j: nat)
    requires parts != [] && i <= j <= |c| && FitsLater(parts, c[j..])
    ensures FitsLater(parts, c[i..])
  {
    var k :| 0 <= k <= |c[j..]| && FitsParts(parts, c[j..][k..]);
    assert c[j..][k..] == c[i..][j - i + k..];
  }

  // Fitting from position j on, in terms of the whole candidate.
  lemma FitsFrom(parts: seq<string>, c: string, j: nat)
    requires |parts| >= 2 && j <= |c|
    ensures FitsParts(parts, c[j..]) <==>
      OccursAt(c, parts[0], j) && FitsLater(parts[1..], c[j + |parts[0]|..])
  {
    var n := |parts[0]|;
    if j + n <= |c| {
      assert c[j..][..n] == c[j..j + n];
      assert c[j..][n..] == c[j + n..];
    }
  }

  lemma LeftmostLosesNothing(part: string, tail: seq<string>, c: string, j: nat)
    requires tail != [] && OccursAt(c, part, j) && FitsLater(tail, c[j + |part|..])
    ensures Find(c, part).Some? && FitsLater(tail, c[Find(c, part).value + |part|..])
  {
    FindIsLeftmost(c, part, j);
    FitsEarlier(tail, c, Find(c, part).value + |part|, j + |part|);
  }

  lemma FitsLaterAt(parts: seq<string>, c: string) returns (j: nat)
    requires |parts| >= 2 && FitsLater(parts, c)
    ensures j <= |c| && OccursAt(c, parts[0], j) && FitsLater(parts[1..], c[j + |parts[0]|..])
  {
    j :| 0 <= j <= |c| && FitsParts(parts, c[j..]);
    FitsFrom(parts, c, j);
  }

  lemma FitsAt(parts: seq<string>, c: string, j: nat)
    requires |parts| >= 2 && OccursAt(c, parts[0], j)
    ensures FitsLater(parts[1..], c[j + |parts[0]|..]) ==> FitsLater(parts, c)
  {
    FitsFrom(parts, c, j);
  }

  /** The leftmost occurrence of a middle part loses no match. */
  lemma LeftmostIsEnough(parts: seq<string>, c: string)
    requires |parts| >= 2
    ensures FitsLater(parts, c) <==>
      Find(c, parts[0]).Some? && FitsLater(parts[1..], c[Find(c, parts[0]).value + |parts[0]|..])
  {
    if FitsLater(parts, c) {
      var j := FitsLaterAt(parts, c);
      LeftmostLosesNothing(parts[0], parts[1..], c, j);
    } else if Find(c, parts[0]).Some? {
      FindIsLeftmost(c, parts[0], 0);
      FitsAt(parts, c, Find(c, parts[0]).value);
    }
  }

  lemma LastPart(part: string, c: string)
    ensures FitsLater([part], c) <==> EndsWith(c, part)
  {
    if FitsLater([part], c) {
      var k :| 0 <= k <= |c| && FitsParts([part], c[k..]);
      assert k == |c| - |part|;
    }
    if EndsWith(c, part) {
      assert FitsParts([part], c[|c| - |part|..]);
    }
  }

  /** The greedy search: every part but the last at its leftmost place, the last at the end. */
  predicate Greedy(parts: seq<string>, c: string)
    requires parts != []
  {
    if |parts| == 1 then EndsWith(c, parts[0])
    else
      match Find(c, parts[0])
      case None => false
      case Some(k) => Greedy(parts[1..], c[k + |parts[0]|..])
  }

  lemma {:induction false} GreedyLosesNothing(parts: seq<string>, c: string)
    requires parts != []
    ensures Greedy(parts, c) <==> FitsLater(parts, c)
    decreases |parts|
  {
    if |parts| == 1 {
      assert parts == [parts[0]];
      LastPart(parts[0], c);
    } else {
      LeftmostIsEnough(parts, c);
      if Find(c, parts[0]).Some? {
        GreedyLosesNothing(parts[1..], c[Find(c, parts[0]).value + |parts[0]|..]);
      }
    }
  }

  lemma GreedyMeaning(pattern: string, candidate: string)
    ensures var parts := Split(pattern);
      Fits(pattern, candidate) <==>
        if |parts| == 1 then pattern == candidate
        else StartsWith(candidate, parts[0]) && Greedy(parts[1..], candidate[|parts[0]|..])
  {
    var parts := Split(pattern);
    SplitMeaning(pattern, candidate);
    if |parts| == 1 {
      SplitWithoutStar(pattern);
    } else if StartsWith(candidate, parts[0]) {
      GreedyLosesNothing(parts[1..], candidate[|parts[0]|..]);
    }
  }

  /** The greedy search resumed at part `i` and the cursor. */
  predicate GreedyAt(parts: seq<string>, i: nat, c: string, cursor: nat)
    requires i < |parts| && cursor <= |c|
  {
    Greedy(parts[i..], c[cursor..])
  }

  lemma GreedyUnfolds(parts: seq<string>, c: string)
    requires |parts| >= 2
    ensures var found := Find(c, parts[0]);
      Greedy(parts, c) == (found.Some? && Greedy(parts[1..], c[found.value + |parts[0]|..]))
  {
  }

  lemma GreedyStep(parts: seq<string>, i: nat, c: string, cursor: nat)
    requires i < |parts| && cursor <= |c|
    ensures var found, n := Find(c[cursor..], parts[i]), |parts[i]|;
      && (found.Some? ==> cursor + found.value + n <= |c|)
      && GreedyAt(parts, i, c, cursor) ==
         if i == |parts| - 1 then EndsWith(c[cursor..], parts[i])
         else found.Some? && GreedyAt(parts, i + 1, c, cursor + found.value + n)
  {
    var ps, r := parts[i..], c[cursor..];
    assert ps[0] == parts[i];
    if i < |parts| - 1 {
      DropDrop(parts, i, 1);
      GreedyUnfolds(ps, r);
      if Find(r, parts[i]).Some? {
        DropDrop(c, cursor, Find(r, parts[i]).value + |parts[i]|);
      }
    } else {
      GreedyLast(ps, r);
    }
  }

  lemma GreedyLast(parts: seq<string>, c: string)
    requires |parts| == 1
    ensures Greedy(parts, c) == EndsWith(c, parts[0])
  {
  }

  /** The parts after the first, one after another from a cursor, without backtracking. */
  method MatchParts(parts: seq<string>, candidate: string, start: nat) returns (b: bool)
    requires |parts| >= 2 && start <= |candidate|
    ensures b == Greedy(parts[1..], candidate[start..])
  {
    ghost var goal := Greedy(parts[1..], candidate[start..]);
    var lastIdx := |parts| - 1;
    var cursor: nat := start;
    var i := 1;
    while i <= lastIdx
      invariant 1 <= i <= lastIdx && cursor <= |candidate|
      invariant GreedyAt(parts, i, candidate, cursor) == goal
      decreases lastIdx - i
    {
      var part, remainder := parts[i], candidate[cursor..];
      GreedyStep(parts, i, candidate, cursor);
      if i == lastIdx {
        return EndsWith(remainder, part);
      }
      match Find(remainder, part) {
        case Some(idx) => cursor := cursor + idx + |part|;
        case None => return false;
      }
      i := i + 1;
    }
    return true;
  }

  /** The matcher: one pass over the parts with a cursor, no backtracking, decides exactly
      the meaning of the pattern. */
  method GlobMatch(pattern: string, candidate: string) returns (b: bool)
    ensures b <==> Fits(pattern, candidate)
  {
    var parts := Split(pattern);
    GreedyMeaning(pattern, candidate);
    if |parts| == 1 {
      return pattern == candidate;
    }
    var cursor: nat := 0;
    if parts[0] != "" {
      if !StartsWith(candidate, parts[0]) {
        return false;
      }
      cursor := |parts[0]|;
    }
    b := MatchParts(parts, candidate, cursor);
  }

  lemma {:induction false} SplitWithoutStar(p: string)
    requires |Split(p)| == 1
    ensures Split(p)[0] == p
  {
    if p != "" {
      SplitWithoutStar(p[1..]);
    }
  }

  /** Consecutive stars collapse. */
  lemma {:induction false} StarsCollapse(a: string, b: string, c: string)
    ensures Fits(a + "**" + b, c) <==> Fits(a + "*" + b, c)
    decreases |a|
  {
    var x, y := a + "**" + b, a + "*" + b;
    if a == "" {
      assert x[1..] == y && y[1..] == b && y[0] == '*';
      if Fits(x, c) {
        var k :| 0 <= k <= |c| && Fits(y, c[k..]);
        var j :| 0 <= j <= |c[k..]| && Fits(b, c[k..][j..]);
        assert c[k..][j..] == c[k + j..];
      }
      assert c[0..] == c;
    } else {
      assert x[1..] == a[1..] + "**" + b && y[1..] == a[1..] + "*" + b;
      assert x[0] == a[0] == y[0];
      if a[0] == '*' {
        forall k | 0 <= k <= |c| ensures Fits(x[1..], c[k..]) <==> Fits(y[1..], c[k..]) {
          StarsCollapse(a[1..], b, c[k..]);
        }
      } else if c != "" {
        StarsCollapse(a[1..], b, c[1..]);
      }
    }
  }

  // ---------- capabilities ----------

  function VariantName(c: Capability): string
  {
    match c
    case NetConnect(_) => "net_connect"
    case FileRead(_) => "file_read"
    case FileWrite(_) => "file_write"
    case ShellExec(_) => "shell_exec"
    case EnvRead(_) => "env_read"
    case LlmQuery(_) => "llm_query"
    case SecretRead(_) => "secret_read"
  }

  predicate SameVariant(a: Capability, b: Capability)
  {
    match a
    case NetConnect(_) => b.NetConnect?
    case FileRead(_) => b.FileRead?
    case FileWrite(_) => b.FileWrite?
    case ShellExec(_) => b.ShellExec?
    case EnvRead(_) => b.EnvRead?
    case LlmQuery(_) => b.LlmQuery?
    case SecretRead(_) => b.SecretRead?
  }

  /** Two capabilities are of one kind exactly when they are named alike. */
  lemma SameVariantIff(a: Capability, b: Capability)
    ensures SameVariant(a, b) <==> VariantName(a) == VariantName(b)
  {
    // The names differ in length or in their first letter.
    NameShape(a);
    NameShape(b);
  }

  lemma NameShape(c: Capability)
    ensures (|VariantName(c)|, VariantName(c)[0]) == match c
      case NetConnect(_) => (11, 'n')
      case FileRead(_) => (9, 'f')
      case FileWrite(_) => (10, 'f')
      case ShellExec(_) => (10, 's')
      case EnvRead(_) => (8, 'e')
      case LlmQuery(_) => (9, 'l')
      case SecretRead(_) => (11, 's')
  {
  }

  /** A granted capability allows a request of its own kind whose text its pattern fits. */
  ghost predicate Grants(granted: Capability, requested: Capability)
  {
    SameVariant(granted, requested) && Fits(granted.glob, requested.glob)
  }

  method MatchesRequest(granted: Capability, requested: Capability) returns (b: bool)
    ensures b <==> Grants(granted, requested)
  {
    if !SameVariant(granted, requested) {
      return false;
    }
    b := GlobMatch(granted.glob, requested.glob);
  }

  method IsGrantedBy(declared: seq<Capability>, requested: Capability) returns (b: bool)
    ensures b <==> exists d :: d in declared && Grants(d, requested)
  {
    var i := 0;
    while i < |declared|
      invariant 0 <= i <= |declared|
      invariant forall j :: 0 <= j < i ==> !Grants(declared[j], requested)
    {
      var granted := MatchesRequest(declared[i], requested);
      if granted {
        return true;
      }
      i := i + 1;
    }
    return false;
  }
}
