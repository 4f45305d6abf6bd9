/**
 Path classification: protection first, then omission, then opacity.

 A change takes its class from all the paths it touches.
 */
module Policy {
  import opened Basics
  import opened Splitting
  import opened Paths
  import opened Manifests
  import opened Diff
  import opened Glob

  datatype Disposition = Protected | DiscardOnly | OpaqueNonsemantic | Semantic

  const DOT_GIT: Bytes := [46, 103, 105, 116]

  /** The four byte tests for the Git control plane. */
  predicate InGit(path: Bytes) {
    || path == DOT_GIT
    || OccursAt(path, DOT_GIT + [SLASH], 0)
    || OccursAt(path, [SLASH] + DOT_GIT, |path| - 5)
    || exists i | 0 <= i < |path| :: OccursAt(path, [SLASH] + DOT_GIT + [SLASH], i)
  }

  predicate OccursAt(path: Bytes, word: Bytes, i: int) {
    0 <= i && i + |word| <= |path| && path[i..i + |word|] == word
  }

  datatype PathPolicy = PathPolicy(
    protected: seq<Bytes>, discardOnly: seq<Bytes>, opaqueNonsemantic: seq<Bytes>, optIn: seq<Bytes>,
    one: ComponentMatcher)
  {
    predicate Any(path: Bytes, patterns: seq<Bytes>) {
      exists pattern | pattern in patterns :: MatchesPath(one, path, pattern)
    }

    function Classify(path: Bytes): Disposition {
      if InGit(path) then Protected
      else if Any(path, protected) && !Any(path, optIn) then Protected
      else if Any(path, discardOnly) then DiscardOnly
      else if Any(path, opaqueNonsemantic) then OpaqueNonsemantic
      else Semantic
    }

    function ClassifyChange(c: Change): Disposition {
      var dispositions := set p | p in ChangePaths(c) :: Classify(p);
      if Protected in dispositions then Protected
      else if dispositions == {DiscardOnly} then DiscardOnly
      else if dispositions == {OpaqueNonsemantic} then OpaqueNonsemantic
      else Semantic
    }
  }

  function ChangePaths(c: Change): (paths: seq<Bytes>)
    ensures paths != [] && forall p :: p in paths <==> c.Touches(p)
  {
    if c.Create? then [c.after.path]
    else if c.Delete? || c.before.path == c.after.path then [c.before.path]
    else [c.before.path, c.after.path]
  }

  // ---- The Git control plane, component by component ----

  lemma Found(path: Bytes, word: Bytes, i: int)
    requires OccursAt(path, word, i)
    ensures path == path[..i] + word + path[i + |word|..]
  {
  }

  lemma Occurs(a: Bytes, word: Bytes, b: Bytes)
    ensures OccursAt(a + word + b, word, |a|)
  {
  }

  lemma GitComponent()
    ensures Split(DOT_GIT) == [DOT_GIT]
  {
    SplitJoin(SLASH, [DOT_GIT]);
  }

  lemma Leading(path: Bytes)
    requires OccursAt(path, DOT_GIT + [SLASH], 0)
    ensures DOT_GIT in Split(path)
  {
    Found(path, DOT_GIT + [SLASH], 0);
    assert path == DOT_GIT + [SLASH] + path[5..];
    SplitConcat(SLASH, DOT_GIT, path[5..]);
    GitComponent();
  }

  lemma Trailing(path: Bytes)
    requires OccursAt(path, [SLASH] + DOT_GIT, |path| - 5)
    ensures DOT_GIT in Split(path)
  {
    Found(path, [SLASH] + DOT_GIT, |path| - 5);
    assert path == path[..|path| - 5] + [SLASH] + DOT_GIT;
    SplitConcat(SLASH, path[..|path| - 5], DOT_GIT);
    GitComponent();
  }

  lemma Between(path: Bytes, i: nat)
    requires OccursAt(path, [SLASH] + DOT_GIT + [SLASH], i)
    ensures DOT_GIT in Split(path)
  {
    Found(path, [SLASH] + DOT_GIT + [SLASH], i);
    var rest := DOT_GIT + [SLASH] + path[i + 6..];
    assert path == path[..i] + [SLASH] + rest;
    SplitConcat(SLASH, path[..i], rest);
    SplitConcat(SLASH, DOT_GIT, path[i + 6..]);
    GitComponent();
  }

  lemma ComponentPassesGitTests(head: seq<Bytes>, tail: seq<Bytes>)
    ensures InGit(Join(head + [DOT_GIT] + tail))
  {
    var path := Join(head + [DOT_GIT] + tail);
    if head == [] && tail == [] {
      assert head + [DOT_GIT] + tail == [DOT_GIT];
    } else if head == [] {
      assert head + [DOT_GIT] + tail == [DOT_GIT] + tail;
      JoinConcat(SLASH, [DOT_GIT], tail);
      Occurs([], DOT_GIT + [SLASH], Join(tail));
      assert path == [] + (DOT_GIT + [SLASH]) + Join(tail);
    } else if tail == [] {
      assert head + [DOT_GIT] + tail == head + [DOT_GIT];
      JoinConcat(SLASH, head, [DOT_GIT]);
      Occurs(Join(head), [SLASH] + DOT_GIT, []);
      assert path == Join(head) + ([SLASH] + DOT_GIT) + [];
    } else {
      MiddlePassesGitTests(head, tail);
    }
  }

  lemma MiddlePassesGitTests(head: seq<Bytes>, tail: seq<Bytes>)
    requires head != [] && tail != []
    ensures InGit(Join(head + [DOT_GIT] + tail))
  {
    var word := [SLASH] + DOT_GIT + [SLASH];
    assert head + [DOT_GIT] + tail == head + ([DOT_GIT] + tail);
    JoinConcat(SLASH, head, [DOT_GIT] + tail);
    JoinConcat(SLASH, [DOT_GIT], tail);
    assert Join(head + [DOT_GIT] + tail) == Join(head) + word + Join(tail);
    Occurs(Join(head), word, Join(tail));
  }

  /** The byte tests find exactly the paths with a `.git` component, at any depth. */
  lemma GitIsAComponent(path: Bytes)
    ensures InGit(path) <==> DOT_GIT in Split(path)
  {
    GitComponent();
    if OccursAt(path, DOT_GIT + [SLASH], 0) { Leading(path); }
    if OccursAt(path, [SLASH] + DOT_GIT, |path| - 5) { Trailing(path); }
    if i :| 0 <= i < |path| && OccursAt(path, [SLASH] + DOT_GIT + [SLASH], i) { Between(path, i); }
    if DOT_GIT in Split(path) {
      var parts := Split(path);
      var i :| 0 <= i < |parts| && parts[i] == DOT_GIT;
      assert parts == parts[..i] + [DOT_GIT] + parts[i + 1..];
      JoinSplit(SLASH, path);
      ComponentPassesGitTests(parts[..i], parts[i + 1..]);
    }
  }
}
