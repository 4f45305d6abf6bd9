/**
 Raw byte paths: their order, their components, and which path lies below which.

 Paths are compared byte by byte, as Python compares `bytes`; an ancestor is a proper prefix that
 ends before a slash.
 */
module Paths {
  import opened Basics
  import opened Splitting

  const SLASH: byte := 47

  // ---- The order of Python `bytes` ----

  predicate Before(a: Bytes, b: Bytes)
    decreases |a|
  {
    if b == [] then false
    else if a == [] then true
    else a[0] < b[0] || (a[0] == b[0] && Before(a[1..], b[1..]))
  }

  lemma {:induction false} Trichotomy(a: Bytes, b: Bytes)
    ensures a != b ==> (Before(a, b) <==> !Before(b, a))
    ensures a == b ==> !Before(a, b)
    decreases |a|
  {
    if a != [] && b != [] && a[0] == b[0] {
      Trichotomy(a[1..], b[1..]);
      assert a == [a[0]] + a[1..] && b == [b[0]] + b[1..];
    }
  }

  lemma {:induction false} Transitive(a: Bytes, b: Bytes, c: Bytes)
    requires Before(a, b) && Before(b, c)
    ensures Before(a, c)
    decreases |a|
  {
    if a != [] && a[0] == b[0] == c[0] {
      Transitive(a[1..], b[1..], c[1..]);
    }
  }

  lemma {:induction false} PrefixIsBefore(a: Bytes, b: Bytes)
    requires a < b
    ensures Before(a, b)
    decreases |a|
  {
    if a != [] {
      assert a[1..] < b[1..];
      PrefixIsBefore(a[1..], b[1..]);
    }
  }

  // ---- Components ----

  function Split(path: Bytes): seq<Bytes> {
    SplitOn(SLASH, path)
  }

  function Join(parts: seq<Bytes>): Bytes
    requires parts != []
  {
    JoinWith(SLASH, parts)
  }

  // ---- Ancestors ----

  /** `a` is a directory on the way to `p`. */
  predicate Above(a: Bytes, p: Bytes) {
    |a| < |p| && p[..|a|] == a && p[|a|] == SLASH
  }

  /** The joined proper prefixes of the components, as both ancestor checks compute them. */
  predicate IsAncestor(a: Bytes, p: Bytes) {
    exists end | 1 <= end < |Split(p)| :: Join(Split(p)[..end]) == a
  }

  /** Joining component prefixes yields exactly the byte prefixes that end before a slash. */
  lemma AncestorIsAbove(a: Bytes, p: Bytes)
    ensures IsAncestor(a, p) <==> Above(a, p)
  {
    var parts := Split(p);
    JoinSplit(SLASH, p);
    if IsAncestor(a, p) {
      var end :| 1 <= end < |parts| && Join(parts[..end]) == a;
      assert parts == parts[..end] + parts[end..];
      JoinConcat(SLASH, parts[..end], parts[end..]);
    }
    if Above(a, p) {
      assert p == a + [SLASH] + p[|a| + 1..];
      SplitConcat(SLASH, a, p[|a| + 1..]);
      JoinSplit(SLASH, a);
      var end := |Split(a)|;
      assert parts[..end] == Split(a);
    }
  }

  // ---- Accepted subject paths ----

  const DOT: byte := 46

  /** `validate_subject_path`: normalized, relative and NUL-free. */
  predicate ValidPath(path: Bytes) {
    && path != [] && path[0] != SLASH && 0 !in path
    && forall part | part in Split(path) :: part != [] && part != [DOT] && part != [DOT, DOT]
  }
}
