/**
 Writing a set of records into an empty root.

 Nothing is written before the whole set has been checked and sorted.
 */
module Materialise {
  import opened Basics
  import opened Splitting
  import opened Paths
  import opened Sorting
  import opened Manifests
  import opened Trees
  import opened Scanning

  const PRIVATE_FILE_MODE: nat := 384
  const PRIVATE_DIR_MODE: nat := 448

  const EMPTY_DIR := Dir(PRIVATE_DIR_MODE, map[])

  // ---- Which record sets are accepted ----

  predicate LeafFits(leaf: Leaf, limits: Limits) {
    match leaf
    case Plain(_, payload) => |payload| <= limits.maxFileBytes
    case Literal(target) => target != [] && 0 !in target
  }

  function PathSet(records: seq<Record>): set<Bytes> {
    set r | r in records :: r.path
  }

  function Parents(path: Bytes): set<Bytes> {
    set end | 1 <= end < |Split(path)| :: Join(Split(path)[..end])
  }

  function Implied(records: seq<Record>): set<Bytes> {
    set r, p | r in records && p in Parents(r.path) :: p
  }

  predicate DistinctPaths(records: seq<Record>) {
    forall i, j | 0 <= i < j < |records| :: records[i].path != records[j].path
  }

  predicate EachFits(records: seq<Record>, limits: Limits) {
    forall r | r in records :: FitsPath(r.path, limits) && LeafFits(r.leaf, limits)
  }

  /** `_validated_materialization_records`, as one condition. */
  predicate Accepts(records: seq<Record>, limits: Limits) {
    && EachFits(records, limits) && DistinctPaths(records)
    && TotalContent(records) <= limits.maxSubjectBytes
    && PathSet(records) * Implied(records) == {}
    && |PathSet(records) + Implied(records)| <= limits.maxFiles
  }

  lemma Grow(records: seq<Record>, i: nat)
    requires i < |records|
    ensures PathSet(records[..i + 1]) == PathSet(records[..i]) + {records[i].path}
    ensures Implied(records[..i + 1]) == Implied(records[..i]) + Parents(records[i].path)
    ensures TotalContent(records[..i + 1]) == TotalContent(records[..i]) + |records[i].leaf.Content()|
  {
    assert records[..i + 1] == records[..i] + [records[i]];
  }

  lemma {:induction false} TotalGrows(records: seq<Record>, i: nat)
    requires i <= |records|
    ensures TotalContent(records[..i]) <= TotalContent(records)
    decreases |records| - i
  {
    if i == |records| {
      assert records[..i] == records;
    } else {
      Grow(records, i);
      TotalGrows(records, i + 1);
    }
  }

  /** The checks made while record `i` is read, after the records before it have passed. */
  predicate PassesAt(records: seq<Record>, i: nat, limits: Limits)
    requires i < |records|
  {
    && FitsPath(records[i].path, limits) && records[i].path !in PathSet(records[..i])
    && LeafFits(records[i].leaf, limits) && TotalContent(records[..i + 1]) <= limits.maxSubjectBytes
  }

  predicate PassesUpTo(records: seq<Record>, n: nat, limits: Limits)
    requires n <= |records|
  {
    forall i | 0 <= i < n :: PassesAt(records, i, limits)
  }

  /** Passing every record one by one is passing as a whole. */
  lemma {:induction false} PassesAll(records: seq<Record>, limits: Limits)
    ensures PassesUpTo(records, |records|, limits) ==> EachFits(records, limits) && DistinctPaths(records)
    ensures PassesUpTo(records, |records|, limits) && records != [] ==> TotalContent(records) <= limits.maxSubjectBytes
  {
    if PassesUpTo(records, |records|, limits) {
      forall r | r in records ensures FitsPath(r.path, limits) && LeafFits(r.leaf, limits) {
        var i :| 0 <= i < |records| && records[i] == r;
        assert PassesAt(records, i, limits);
      }
      forall i, j | 0 <= i < j < |records| ensures records[i].path != records[j].path {
        assert PassesAt(records, j, limits);
        assert records[..j][i] == records[i];
      }
      if records != [] {
        assert PassesAt(records, |records| - 1, limits);
        assert records[..|records| - 1 + 1] == records;
      }
    }
  }

  lemma FailsOne(records: seq<Record>, i: nat, limits: Limits)
    requires i < |records| && !PassesAt(records, i, limits)
    ensures !Accepts(records, limits)
  {
    TotalGrows(records, i + 1);
    assert records[i] in records;
    if records[i].path in PathSet(records[..i]) {
      var r :| r in records[..i] && r.path == records[i].path;
      var j :| 0 <= j < i && records[..i][j] == r;
      assert records[j].path == records[i].path;
    }
  }

  /** `_validated_materialization_records`. */
  method ValidateRecords(records: seq<Record>, limits: Limits) returns (result: Option<seq<Record>>)
    ensures result == if Accepts(records, limits) then Some(Sort(PathBefore, records)) else None
  {
    var paths: set<Bytes>, implied: set<Bytes>, totalBytes: nat := {}, {}, 0;
    for i := 0 to |records|
      invariant paths == PathSet(records[..i]) && implied == Implied(records[..i])
      invariant totalBytes == TotalContent(records[..i])
      invariant PassesUpTo(records, i, limits)
    {
      var r := records[i];
      Grow(records, i);
      if !PassesAt(records, i, limits) { FailsOne(records, i, limits); }
      if !FitsPath(r.path, limits) {
        return None;
      }
      if r.path in paths {
        return None;
      }
      paths := paths + {r.path};
      implied := implied + Parents(r.path);
      totalBytes := totalBytes + |r.leaf.Content()|;
      if !LeafFits(r.leaf, limits) {
        return None;
      }
      if totalBytes > limits.maxSubjectBytes {
        return None;
      }
    }
    assert records[..|records|] == records;
    PassesAll(records, limits);
    if paths * implied != {} {
      return None;
    }
    if |paths + implied| > limits.maxFiles {
      return None;
    }
    return Some(Sort(PathBefore, records));
  }

  // ---- Placing nodes in a tree ----

  /** Put `leaf` at `at`, creating the directories above it that are missing. */
  function Put(n: Node, at: Components, leaf: Node): Node
    decreases at
  {
    if at == [] then leaf
    else if !n.Dir? then n
    else
      var child := if at[0] in n.children then n.children[at[0]] else EMPTY_DIR;
      n.(children := n.children[at[0] := Put(child, at[1..], leaf)])
  }

  /** Nothing but directories stands in the way. */
  predicate CanPut(n: Node, at: Components)
    decreases at
  {
    at == [] || (n.Dir? && (at[0] in n.children ==> CanPut(n.children[at[0]], at[1..])))
  }

  lemma {:induction false} CanPutBelow(n: Node, at: Components)
    requires n.Dir?
    requires forall k | 0 < k < |at| && Lookup(n, at[..k]).Some? :: Lookup(n, at[..k]).value.Dir?
    ensures CanPut(n, at)
    decreases at
  {
    if at != [] && at[0] in n.children && |at| > 1 {
      var child, rest := n.children[at[0]], at[1..];
      assert at[..1][1..] == [] && at[..1][0] == at[0];
      assert Lookup(n, at[..1]) == Some(child);
      forall k | 0 < k < |rest| && Lookup(child, rest[..k]).Some? ensures Lookup(child, rest[..k]).value.Dir? {
        assert at[..k + 1][1..] == rest[..k];
        assert Lookup(n, at[..k + 1]) == Lookup(child, rest[..k]);
      }
      CanPutBelow(child, rest);
    }
  }

  lemma {:induction false} PutLookup(n: Node, at: Components, leaf: Node, c: Components)
    requires CanPut(n, at)
    ensures at <= c ==> Lookup(Put(n, at, leaf), c) == Lookup(leaf, c[|at|..])
    ensures c < at ==> Lookup(Put(n, at, leaf), c).Some? && Lookup(Put(n, at, leaf), c).value.Dir?
    ensures !(at <= c) && !(c < at) ==> Lookup(Put(n, at, leaf), c) == Lookup(n, c)
    decreases at
  {
    if at != [] && c != [] && c[0] == at[0] {
      var child := if at[0] in n.children then n.children[at[0]] else EMPTY_DIR;
      var rest, below := at[1..], c[1..];
      assert at <= c <==> rest <= below;
      assert c < at <==> below < rest;
      PutLookup(child, rest, leaf, below);
      if at <= c {
        assert c[|at|..] == below[|rest|..];
      }
      if child == EMPTY_DIR && at[0] !in n.children && !(at <= c) && !(c < at) {
        assert below != [];
        assert Lookup(EMPTY_DIR, below).None?;
      }
    }
  }

  function NodeOf(leaf: Leaf): Node {
    match leaf
    case Plain(executable, payload) => File(if executable then PRIVATE_DIR_MODE else PRIVATE_FILE_MODE, payload)
    case Literal(target) => Link(target)
  }

  lemma NodeOfLeaf(leaf: Leaf)
    ensures LeafOf(NodeOf(leaf)) == leaf
  {
  }

  // ---- The tree that the records describe ----

  /** Some record lies at `c` or below it. */
  predicate Needed(records: seq<Record>, c: Components) {
    exists r | r in records :: c <= Split(r.path)
  }

  /** The tree holds the records, the directories above them, and nothing else. */
  ghost predicate Holds(tree: Node, records: seq<Record>) {
    && tree.Dir?
    && (forall r | r in records :: Lookup(tree, Split(r.path)) == Some(NodeOf(r.leaf)))
    && (forall c | c != [] && Lookup(tree, c).Some? :: Needed(records, c))
    && forall r, k | r in records && 0 <= k < |Split(r.path)| ::
         Lookup(tree, Split(r.path)[..k]).Some? && Lookup(tree, Split(r.path)[..k]).value.Dir?
  }

  /** No record lies at or above another one. */
  predicate Apart(records: seq<Record>) {
    forall i, j | 0 <= i < |records| && 0 <= j < |records| && i != j ::
      !(Split(records[i].path) <= Split(records[j].path))
  }

  lemma ParentsHave(path: Bytes, end: nat)
    requires 1 <= end < |Split(path)|
    ensures Join(Split(path)[..end]) in Parents(path)
  {
  }

  lemma AboveIsConflict(records: seq<Record>, a: Record, b: Record)
    requires a in records && b in records && Split(a.path) < Split(b.path)
    ensures a.path in PathSet(records) * Implied(records)
  {
    var end := |Split(a.path)|;
    assert Split(b.path)[..end] == Split(a.path);
    JoinSplit(SLASH, a.path);
    ParentsHave(b.path, end);
  }

  lemma SplitIdentifies(a: Bytes, b: Bytes)
    ensures Split(a) == Split(b) ==> a == b
  {
    JoinSplit(SLASH, a);
    JoinSplit(SLASH, b);
  }

  lemma AcceptedAreApart(records: seq<Record>)
    requires DistinctPaths(records) && PathSet(records) * Implied(records) == {}
    ensures Apart(records)
  {
    forall i, j | 0 <= i < |records| && 0 <= j < |records| && i != j
      ensures !(Split(records[i].path) <= Split(records[j].path))
    {
      var a, b := records[i], records[j];
      assert a.path != b.path;
      SplitIdentifies(a.path, b.path);
      if Split(a.path) < Split(b.path) {
        AboveIsConflict(records, a, b);
      }
    }
  }

  /** `mkdirs`: create whatever is missing on the way to a directory. */
  function MakeDirs(n: Node, at: Components): Node {
    if Lookup(n, at).Some? then n else Put(n, at, EMPTY_DIR)
  }

  /** The parents first, then the file or symlink. */
  function Place(n: Node, r: Record): Node {
    var at := Split(r.path);
    var parented := if |at| > 1 then MakeDirs(n, at[..|at| - 1]) else n;
    Put(parented, at, NodeOf(r.leaf))
  }

  predicate OnlyDirsAbove(n: Node, at: Components) {
    n.Dir? && forall k | 0 < k < |at| && Lookup(n, at[..k]).Some? :: Lookup(n, at[..k]).value.Dir?
  }

  lemma MakeDirsLookup(n: Node, at: Components, c: Components)
    requires at != [] && OnlyDirsAbove(n, at + [[]])
    ensures c <= at ==> Lookup(MakeDirs(n, at), c).Some? && Lookup(MakeDirs(n, at), c).value.Dir?
    ensures !(c <= at) ==> Lookup(MakeDirs(n, at), c) == Lookup(n, c)
  {
    assert forall k | 0 < k <= |at| :: (at + [[]])[..k] == at[..k];
    assert at[..|at|] == at;
    if c <= at { assert at == c + at[|c|..] && c == at[..|c|]; }
    if Lookup(n, at).Some? {
      if c <= at {
        LookupConcat(n, c, at[|c|..]);
      }
    } else {
      CanPutBelow(n, at);
      PutLookup(n, at, EMPTY_DIR, c);
      if at < c {
        assert c == at + c[|at|..];
        LookupConcat(n, at, c[|at|..]);
      }
    }
  }

  /** Placing a record adds it and its parents and changes nothing else. */
  lemma PlaceLookup(n: Node, r: Record, c: Components)
    requires OnlyDirsAbove(n, Split(r.path))
    ensures var at, m := Split(r.path), Place(n, r);
      && (at <= c ==> Lookup(m, c) == Lookup(NodeOf(r.leaf), c[|at|..]))
      && (c < at ==> Lookup(m, c).Some? && Lookup(m, c).value.Dir?)
      && (!(at <= c) && !(c < at) ==> Lookup(m, c) == Lookup(n, c))
  {
    var at := Split(r.path);
    if |at| == 1 {
      CanPutBelow(n, at);
      PutLookup(n, at, NodeOf(r.leaf), c);
    } else {
      var parent := at[..|at| - 1];
      var parented := MakeDirs(n, parent);
      forall k | 0 < k <= |parent| ensures (parent + [[]])[..k] == at[..k] {
      }
      forall k | 0 <= k < |at| ensures Lookup(parented, at[..k]).Some? && Lookup(parented, at[..k]).value.Dir? {
        assert at[..k] <= parent;
        MakeDirsLookup(n, parent, at[..k]);
      }
      assert Lookup(parented, at[..0]) == Some(parented);
      CanPutBelow(parented, at);
      PutLookup(parented, at, NodeOf(r.leaf), c);
      MakeDirsLookup(n, parent, c);
      if c <= parent { assert c < at; }
    }
  }

  /** The new record keeps clear of those already written. */
  predicate Clear(written: seq<Record>, r: Record) {
    forall x | x in written :: !(Split(x.path) <= Split(r.path)) && !(Split(r.path) <= Split(x.path))
  }

  lemma SharedStart(at: Components, other: Components, k: nat)
    requires k <= |at| && at[..k] <= other && !(other <= at)
    ensures k < |other| && at[..k] == other[..k]
  {
  }

  lemma {:induction false} PrefixIsClear(tree: Node, written: seq<Record>, r: Record, k: nat)
    requires Holds(tree, written) && Clear(written, r) && 0 < k < |Split(r.path)|
    ensures var c := Split(r.path)[..k]; Lookup(tree, c).Some? ==> Lookup(tree, c).value.Dir?
  {
    var c := Split(r.path)[..k];
    if Lookup(tree, c).Some? {
      var x :| x in written && c <= Split(x.path);
      SharedStart(Split(r.path), Split(x.path), k);
    }
  }

  lemma {:induction false} WayIsClear(tree: Node, written: seq<Record>, r: Record)
    requires Holds(tree, written) && Clear(written, r)
    ensures OnlyDirsAbove(tree, Split(r.path))
  {
    forall k | 0 < k < |Split(r.path)| && Lookup(tree, Split(r.path)[..k]).Some?
      ensures Lookup(tree, Split(r.path)[..k]).value.Dir?
    {
      PrefixIsClear(tree, written, r, k);
    }
  }

  lemma {:induction false} StillRead(tree: Node, written: seq<Record>, r: Record, x: Record)
    requires Holds(tree, written) && Clear(written, r) && OnlyDirsAbove(tree, Split(r.path)) && x in written + [r]
    ensures Lookup(Place(tree, r), Split(x.path)) == Some(NodeOf(x.leaf))
  {
    PlaceLookup(tree, r, Split(x.path));
    if x == r {
      assert Split(r.path)[|Split(r.path)|..] == [];
    }
  }

  lemma StillNeeded(tree: Node, written: seq<Record>, r: Record, c: Components)
    requires Holds(tree, written) && OnlyDirsAbove(tree, Split(r.path))
    requires c != [] && Lookup(Place(tree, r), c).Some?
    ensures Needed(written + [r], c)
  {
    var at := Split(r.path);
    PlaceLookup(tree, r, c);
    if at <= c {
      assert c[|at|..] == [];
      assert c == at;
    }
    if c <= at {
      assert r in written + [r];
    } else {
      var x :| x in written && c <= Split(x.path);
      assert x in written + [r];
    }
  }

  lemma {:induction false} StillAbove(tree: Node, written: seq<Record>, r: Record, x: Record, k: nat)
    requires Holds(tree, written) && Clear(written, r) && OnlyDirsAbove(tree, Split(r.path))
    requires x in written + [r] && k < |Split(x.path)|
    ensures Lookup(Place(tree, r), Split(x.path)[..k]).Some? && Lookup(Place(tree, r), Split(x.path)[..k]).value.Dir?
  {
    PlaceLookup(tree, r, Split(x.path)[..k]);
  }

  lemma HoldsMore(tree: Node, written: seq<Record>, r: Record)
    requires Holds(tree, written) && Clear(written, r)
    ensures Holds(Place(tree, r), written + [r])
  {
    var m := Place(tree, r);
    WayIsClear(tree, written, r);
    PlaceLookup(tree, r, []);
    forall x | x in written + [r] ensures Lookup(m, Split(x.path)) == Some(NodeOf(x.leaf)) {
      StillRead(tree, written, r, x);
    }
    forall c | c != [] && Lookup(m, c).Some? ensures Needed(written + [r], c) {
      StillNeeded(tree, written, r, c);
    }
    forall x, k | x in written + [r] && 0 <= k < |Split(x.path)|
      ensures Lookup(m, Split(x.path)[..k]).Some? && Lookup(m, Split(x.path)[..k]).value.Dir?
    {
      StillAbove(tree, written, r, x, k);
    }
  }

  function Built(root: Node, records: seq<Record>): Node {
    if records == [] then root else Place(Built(root, records[..|records| - 1]), records[|records| - 1])
  }

  lemma BuiltStep(root: Node, records: seq<Record>, i: nat)
    requires i < |records|
    ensures Built(root, records[..i + 1]) == Place(Built(root, records[..i]), records[i])
  {
    assert records[..i + 1][..i] == records[..i];
  }

  lemma {:induction false} BuiltHolds(root: Node, records: seq<Record>)
    requires root.Dir? && root.children == map[] && Apart(records)
    ensures Holds(Built(root, records), records)
  {
    if records == [] {
      forall c | c != [] ensures Lookup(root, c).None? {
      }
    } else {
      var n := |records| - 1;
      var init, r := records[..n], records[n];
      assert records == init + [r];
      forall i, j | 0 <= i < n && 0 <= j < n && i != j ensures !(Split(init[i].path) <= Split(init[j].path)) {
        assert init[i] == records[i] && init[j] == records[j];
      }
      BuiltHolds(root, init);
      forall x | x in init ensures !(Split(x.path) <= Split(r.path)) && !(Split(r.path) <= Split(x.path)) {
        var i :| 0 <= i < n && init[i] == x;
        assert records[i] == x;
      }
      HoldsMore(Built(root, init), init, r);
    }
  }

  // ---- The writer ----

  class ConfinedRoot {
    var tree: Node

    constructor (tree: Node)
      ensures this.tree == tree
    {
      this.tree := tree;
    }

    method Mkdirs(at: Components)
      modifies this
      ensures tree == MakeDirs(old(tree), at)
    {
      if Lookup(tree, at).None? {
        tree := Put(tree, at, EMPTY_DIR);
      }
    }

    method Write(at: Components, leaf: Node)
      modifies this
      ensures tree == Put(old(tree), at, leaf)
    {
      tree := Put(tree, at, leaf);
    }

    /** One turn of the loop: the missing directories above the record, then its file or link. */
    method WriteRecord(r: Record)
      modifies this
      ensures tree == Place(old(tree), r)
    {
      var at := Split(r.path);
      if |at| > 1 {
        Mkdirs(at[..|at| - 1]);
      }
      Write(at, NodeOf(r.leaf));
    }

    /** `materialize_records`: all checks come before the first write. */
    method MaterializeRecords(records: seq<Record>, limits: Limits) returns (ok: bool)
      requires tree.Dir?
      modifies this
      ensures ok <==> Accepts(records, limits) && old(tree).children == map[]
      ensures tree == if ok then Built(old(tree), Sort(PathBefore, records)) else old(tree)
    {
      var normalized := ValidateRecords(records, limits);
      if normalized.None? || tree.children != map[] {
        return false;
      }
      var list := normalized.value;
      for i := 0 to |list|
        invariant tree == Built(old(tree), list[..i])
      {
        BuiltStep(old(tree), list, i);
        WriteRecord(list[i]);
      }
      assert list[..|list|] == list;
      return true;
    }
  }
}
