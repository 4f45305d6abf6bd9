/** The component-aware glob matcher.  Matching inside one component is an oracle. */
module Glob {
  import opened Basics
  import opened Paths

  type ComponentMatcher = (Bytes, Bytes) -> bool

  const STAR: byte := 42
  const ANY_DEPTH: Bytes := [STAR, STAR]

  /** What a pattern means: `**` stands for zero or more components, anything else for one. */
  predicate Matches(one: ComponentMatcher, parts: seq<Bytes>, patterns: seq<Bytes>)
    decreases |patterns|
  {
    if patterns == [] then parts == []
    else if patterns[0] == ANY_DEPTH then exists k | 0 <= k <= |parts| :: Matches(one, parts[k..], patterns[1..])
    else parts != [] && one(parts[0], patterns[0]) && Matches(one, parts[1..], patterns[1..])
  }

  /** The rest of the path matches the rest of the pattern. */
  ghost predicate Rest(one: ComponentMatcher, parts: seq<Bytes>, i: nat, patterns: seq<Bytes>, j: nat)
    requires i <= |parts| && j <= |patterns|
  {
    Matches(one, parts[i..], patterns[j..])
  }

  /** The indexed matcher, with its run-skipping loop, early return and backtracking. */
  method MatchFrom(one: ComponentMatcher, parts: seq<Bytes>, patterns: seq<Bytes>, pathIndex: nat, patternIndex: nat)
    returns (matched: bool)
    requires pathIndex <= |parts| && patternIndex <= |patterns|
    ensures matched <==> Rest(one, parts, pathIndex, patterns, patternIndex)
    decreases |patterns| - patternIndex, 0
  {
    var i: nat, j: nat := pathIndex, patternIndex;
    while j < |patterns|
      invariant i <= |parts| && patternIndex <= j <= |patterns|
      invariant Rest(one, parts, pathIndex, patterns, patternIndex) <==> Rest(one, parts, i, patterns, j)
    {
      if patterns[j] == ANY_DEPTH {
        while j + 1 < |patterns| && patterns[j + 1] == ANY_DEPTH
          invariant patternIndex <= j < |patterns| && patterns[j] == ANY_DEPTH
          invariant Rest(one, parts, pathIndex, patterns, patternIndex) <==> Rest(one, parts, i, patterns, j)
        {
          RunStep(one, parts, i, patterns, j);
          j := j + 1;
        }
        if j + 1 == |patterns| {
          LastAnyDepth(one, parts, i, patterns, j);
          return true;
        }
        AnyDepthStep(one, parts, i, patterns, j, j + 1);
        matched := MatchAny(one, parts, patterns, i, j + 1);
        return;
      }
      OneStep(one, parts, i, patterns, j);
      if i >= |parts| {
        return false;
      }
      if !one(parts[i], patterns[j]) {
        return false;
      }
      i, j := i + 1, j + 1;
    }
    return i == |parts|;
  }

  /** The backtracking search: try the rest of the pattern at every later path index. */
  method MatchAny(one: ComponentMatcher, parts: seq<Bytes>, patterns: seq<Bytes>, pathIndex: nat, patternIndex: nat)
    returns (matched: bool)
    requires pathIndex <= |parts| && patternIndex <= |patterns|
    ensures matched <==> exists c | pathIndex <= c <= |parts| :: Rest(one, parts, c, patterns, patternIndex)
    decreases |patterns| - patternIndex, 1
  {
    for k := pathIndex to |parts| + 1
      invariant forall c | pathIndex <= c < k :: !Rest(one, parts, c, patterns, patternIndex)
    {
      var found := MatchFrom(one, parts, patterns, k, patternIndex);
      if found {
        return true;
      }
    }
    return false;
  }

  lemma OneStep(one: ComponentMatcher, parts: seq<Bytes>, i: nat, patterns: seq<Bytes>, j: nat)
    requires i <= |parts| && j < |patterns| && patterns[j] != ANY_DEPTH
    ensures Rest(one, parts, i, patterns, j) <==>
            i < |parts| && one(parts[i], patterns[j]) && Rest(one, parts, i + 1, patterns, j + 1)
  {
    assert patterns[j..][1..] == patterns[j + 1..];
    if i < |parts| {
      assert parts[i..][1..] == parts[i + 1..];
    }
  }

  lemma RunStep(one: ComponentMatcher, parts: seq<Bytes>, i: nat, patterns: seq<Bytes>, j: nat)
    requires i <= |parts| && j + 1 < |patterns| && patterns[j] == ANY_DEPTH == patterns[j + 1]
    ensures Rest(one, parts, i, patterns, j) <==> Rest(one, parts, i, patterns, j + 1)
  {
    RunsCollapse(one, parts[i..], patterns[j..]);
    assert patterns[j..][1..] == patterns[j + 1..];
  }

  lemma LastAnyDepth(one: ComponentMatcher, parts: seq<Bytes>, i: nat, patterns: seq<Bytes>, j: nat)
    requires i <= |parts| && j + 1 == |patterns| && patterns[j] == ANY_DEPTH
    ensures Rest(one, parts, i, patterns, j)
  {
    AnyDepthStep(one, parts, i, patterns, j, j + 1);
    assert parts[|parts|..] == [] && patterns[|patterns|..] == [];
    assert Rest(one, parts, |parts|, patterns, j + 1);
  }

  /** A `**` at index `j` matches when the rest of the pattern matches at some later index. */
  lemma AnyDepthStep(one: ComponentMatcher, parts: seq<Bytes>, i: nat, patterns: seq<Bytes>, j: nat, next: nat)
    requires i <= |parts| && j < |patterns| && next == j + 1 && patterns[j] == ANY_DEPTH
    ensures Rest(one, parts, i, patterns, j) <==>
            exists c | i <= c <= |parts| :: Rest(one, parts, c, patterns, next)
  {
    assert patterns[j..][1..] == patterns[j + 1..];
    if Matches(one, parts[i..], patterns[j..]) {
      var k :| 0 <= k <= |parts[i..]| && Matches(one, parts[i..][k..], patterns[j + 1..]);
      assert parts[i..][k..] == parts[i + k..];
      assert Rest(one, parts, i + k, patterns, next);
    }
    if c :| i <= c <= |parts| && Rest(one, parts, c, patterns, next) {
      assert parts[i..][c - i..] == parts[c..];
    }
  }

  /** Consecutive `**` components mean the same as one of them. */
  lemma RunsCollapse(one: ComponentMatcher, parts: seq<Bytes>, patterns: seq<Bytes>)
    requires |patterns| >= 2 && patterns[0] == ANY_DEPTH && patterns[1] == ANY_DEPTH
    ensures Matches(one, parts, patterns) <==> Matches(one, parts, patterns[1..])
  {
    if Matches(one, parts, patterns) {
      var k :| 0 <= k <= |parts| && Matches(one, parts[k..], patterns[1..]);
      var m :| 0 <= m <= |parts[k..]| && Matches(one, parts[k..][m..], patterns[1..][1..]);
      assert parts[k..][m..] == parts[k + m..];
    }
    if Matches(one, parts, patterns[1..]) {
      assert parts[0..] == parts;
    }
  }

  method PathMatches(one: ComponentMatcher, path: Bytes, pattern: Bytes) returns (matched: bool)
    ensures matched <==> MatchesPath(one, path, pattern)
  {
    var parts, patterns := Split(path), Split(pattern);
    assert parts[0..] == parts && patterns[0..] == patterns;
    matched := MatchFrom(one, parts, patterns, 0, 0);
  }

  predicate MatchesPath(one: ComponentMatcher, path: Bytes, pattern: Bytes) {
    Matches(one, Split(path), Split(pattern))
  }

  // ---- A second, non-recursive reading of a match ----

  /** One pattern component covers the path components from `start` up to `end`. */
  predicate Piece(one: ComponentMatcher, parts: seq<Bytes>, pattern: Bytes, start: nat, end: nat) {
    start <= end <= |parts| && (pattern == ANY_DEPTH || (end == start + 1 && one(parts[start], pattern)))
  }

  ghost predicate Covers(one: ComponentMatcher, parts: seq<Bytes>, patterns: seq<Bytes>, cuts: seq<nat>) {
    && |cuts| == |patterns| + 1 && cuts[0] == 0 && cuts[|patterns|] == |parts|
    && forall i | 0 <= i < |patterns| :: Piece(one, parts, patterns[i], cuts[i], cuts[i + 1])
  }

  /** A path matches exactly when it can be cut into one piece per pattern component. */
  lemma {:induction false} MatchIsCover(one: ComponentMatcher, parts: seq<Bytes>, patterns: seq<Bytes>)
    ensures Matches(one, parts, patterns) <==> exists cuts :: Covers(one, parts, patterns, cuts)
  {
    if Matches(one, parts, patterns) {
      var cuts := CutsOf(one, parts, patterns);
    }
    if cuts :| Covers(one, parts, patterns, cuts) {
      CoverMatches(one, parts, patterns, cuts);
    }
  }

  lemma {:induction false} CutsOf(one: ComponentMatcher, parts: seq<Bytes>, patterns: seq<Bytes>) returns (cuts: seq<nat>)
    requires Matches(one, parts, patterns)
    ensures Covers(one, parts, patterns, cuts)
    decreases |patterns|
  {
    if patterns == [] {
      return [0];
    }
    var k: nat := 1;
    if patterns[0] == ANY_DEPTH {
      k :| 0 <= k <= |parts| && Matches(one, parts[k..], patterns[1..]);
    }
    var rest := CutsOf(one, parts[k..], patterns[1..]);
    cuts := [0] + seq(|rest|, i requires 0 <= i < |rest| => rest[i] + k);
    forall i | 0 <= i < |patterns|
      ensures Piece(one, parts, patterns[i], cuts[i], cuts[i + 1])
    {
      if i > 0 {
        assert Piece(one, parts[k..], patterns[1..][i - 1], rest[i - 1], rest[i - 1 + 1]);
      }
    }
  }

  lemma {:induction false} CoverMatches(one: ComponentMatcher, parts: seq<Bytes>, patterns: seq<Bytes>, cuts: seq<nat>)
    requires Covers(one, parts, patterns, cuts)
    ensures Matches(one, parts, patterns)
    decreases |patterns|
  {
    if patterns != [] {
      var k := cuts[1];
      assert Piece(one, parts, patterns[0], cuts[0], cuts[0 + 1]);
      CutsRise(one, parts, patterns, cuts, 1);
      var rest := seq(|cuts| - 1, i requires 0 <= i < |cuts| - 1 => if cuts[i + 1] >= k then cuts[i + 1] - k else 0);
      forall i | 0 <= i < |patterns[1..]|
        ensures Piece(one, parts[k..], patterns[1..][i], rest[i], rest[i + 1])
      {
        assert Piece(one, parts, patterns[i + 1], cuts[i + 1], cuts[i + 1 + 1]);
        CutsRise(one, parts, patterns, cuts, i + 1);
        CutsRise(one, parts, patterns, cuts, i + 2);
      }
      CutsRise(one, parts, patterns, cuts, |patterns|);
      CoverMatches(one, parts[k..], patterns[1..], rest);
    }
  }

  lemma {:induction false} CutsRise(one: ComponentMatcher, parts: seq<Bytes>, patterns: seq<Bytes>, cuts: seq<nat>, i: nat)
    requires Covers(one, parts, patterns, cuts) && 1 <= i <= |patterns|
    ensures cuts[1] <= cuts[i] <= |parts|
    decreases i
  {
    if i > 1 {
      CutsRise(one, parts, patterns, cuts, i - 1);
      assert Piece(one, parts, patterns[i - 1], cuts[i - 1], cuts[i - 1 + 1]);
    } else {
      assert Piece(one, parts, patterns[0], cuts[0], cuts[0 + 1]);
    }
  }
}
