/** Materialising a set of records and scanning it back is the identity. */
module RoundTrip {
  import opened Basics
  import opened Splitting
  import opened Paths
  import opened Sorting
  import opened Manifests
  import opened Trees
  import opened Scanning
  import opened Materialise

  // ---- What a scan sees in a tree that holds the records ----

  /** A directory on the way to a path that fits, fits too. */
  lemma ParentFits(path: Bytes, k: nat, limits: Limits)
    requires FitsPath(path, limits) && 1 <= k <= |Split(path)|
    ensures FitsPath(Join(Split(path)[..k]), limits) && Split(Join(Split(path)[..k])) == Split(path)[..k]
  {
    var parts := Split(path);
    JoinSplit(SLASH, path);
    var front := parts[..k];
    forall part | part in front ensures SLASH !in part && part in parts {
    }
    SplitJoin(SLASH, front);
    if k < |parts| {
      assert parts == front + parts[k..];
      JoinConcat(SLASH, front, parts[k..]);
      assert path[..|Join(front)|] == Join(front);
    } else {
      assert front == parts;
    }
    var p := Join(front);
    assert p <= path;
    assert p != [] by {
      assert parts[0] in parts && front[0] == parts[0];
      assert |front| > 1 ==> p == front[0] + [SLASH] + JoinWith(SLASH, front[1..]);
    }
    assert p[0] == path[0];
    forall part | part in Split(p) ensures part != [] && part != [DOT] && part != [DOT, DOT] {
      assert part in parts;
    }
  }

  lemma CutOrWhole(c: Components, at: Components)
    requires c <= at
    ensures c == at || (|c| < |at| && c == at[..|c|])
  {
  }

  lemma NeededIsDirOrLeaf(tree: Node, records: seq<Record>, c: Components)
    requires Holds(tree, records) && c != [] && Needed(records, c)
    ensures Lookup(tree, c).Some?
    ensures Lookup(tree, c).value.Dir? || exists r :: r in records && Lookup(tree, c).value == NodeOf(r.leaf)
  {
    var r :| r in records && c <= Split(r.path);
    CutOrWhole(c, Split(r.path));
  }

  /** Every visited entry lies on the way to a record. */
  lemma VisitedIsNeeded(tree: Node, records: seq<Record>, c: Components)
    requires Holds(tree, records)
    ensures c in Walk(tree, []) <==> c != [] && Needed(records, c)
  {
    WalkVisits(tree, [], c);
    assert c[0..] == c;
    if c != [] && Needed(records, c) {
      NeededIsDirOrLeaf(tree, records, c);
    }
  }

  function Joined(list: seq<Components>): seq<Bytes>
    requires forall c | c in list :: c != []
  {
    seq(|list|, i requires 0 <= i < |list| => assert list[i] in list; Join(list[i]))
  }

  /** The namespace budget counts exactly the paths and their parents. */
  lemma WalkCounts(tree: Node, records: seq<Record>, limits: Limits)
    requires Holds(tree, records) && EachFits(records, limits)
    ensures |Walk(tree, [])| == |PathSet(records) + Implied(records)|
  {
    var list := Walk(tree, []);
    WalkVisitsOnce(tree, []);
    forall c | c in list ensures c != [] && Split(Join(c)) == c && Join(c) in PathSet(records) + Implied(records) {
      VisitedIsNeeded(tree, records, c);
      NeededIsImplied(records, c, limits);
    }
    var joined := Joined(list);
    forall i, j | 0 <= i < j < |joined| ensures joined[i] != joined[j] {
      assert list[i] in list && list[j] in list;
      assert Split(joined[i]) == list[i] && Split(joined[j]) == list[j];
    }
    forall p | p in joined ensures p in PathSet(records) + Implied(records) {
      var i :| 0 <= i < |joined| && joined[i] == p;
      assert list[i] in list;
    }
    forall p | p in PathSet(records) + Implied(records) ensures p in joined {
      ImpliedIsVisited(tree, records, p, limits);
      var i :| 0 <= i < |list| && list[i] == Split(p);
      assert joined[i] == Join(Split(p));
      JoinSplit(SLASH, p);
    }
    CountDistinct(joined, PathSet(records) + Implied(records));
  }

  lemma NeededIsImplied(records: seq<Record>, c: Components, limits: Limits)
    requires c != [] && Needed(records, c) && EachFits(records, limits)
    ensures Split(Join(c)) == c && FitsPath(Join(c), limits)
    ensures Join(c) in PathSet(records) + Implied(records)
  {
    var r :| r in records && c <= Split(r.path);
    var at := Split(r.path);
    assert c == at[..|c|];
    ParentFits(r.path, |c|, limits);
    if |c| == |at| {
      assert c == at;
      JoinSplit(SLASH, r.path);
      assert r.path in PathSet(records);
    } else {
      ParentsHave(r.path, |c|);
      assert Join(c) in Implied(records);
    }
  }

  lemma ParentIsNeeded(records: seq<Record>, r: Record, end: nat, limits: Limits)
    requires r in records && EachFits(records, limits) && 1 <= end <= |Split(r.path)|
    ensures Needed(records, Split(Join(Split(r.path)[..end])))
  {
    ParentFits(r.path, end, limits);
  }

  lemma ImpliedIsNeeded(records: seq<Record>, p: Bytes, limits: Limits)
    requires EachFits(records, limits) && p in Implied(records)
    ensures Needed(records, Split(p))
  {
    var r :| r in records && p in Parents(r.path);
    var end :| 1 <= end < |Split(r.path)| && Join(Split(r.path)[..end]) == p;
    ParentIsNeeded(records, r, end, limits);
  }

  lemma {:induction false} ImpliedIsVisited(tree: Node, records: seq<Record>, p: Bytes, limits: Limits)
    requires Holds(tree, records) && EachFits(records, limits) && p in PathSet(records) + Implied(records)
    ensures Split(p) in Walk(tree, [])
  {
    VisitedIsNeeded(tree, records, Split(p));
    if p in PathSet(records) {
      var r :| r in records && r.path == p;
      assert Needed(records, Split(p));
    } else {
      ImpliedIsNeeded(records, p, limits);
    }
  }

  // ---- The records come back ----

  predicate IsLeafAt(root: Node, c: Components, r: Record) {
    && c != [] && Lookup(root, c).Some?
    && var n := Lookup(root, c).value; (n.File? || n.Link?) && r == Record(Join(c), LeafOf(n))
  }

  lemma {:induction false} LeafRecordsHave(root: Node, list: seq<Components>, r: Record)
    requires Entries(root, list)
    ensures r in LeafRecords(root, list) <==> exists c :: c in list && IsLeafAt(root, c, r)
    decreases |list|
  {
    if list != [] {
      LeafRecordsStep(root, list);
      assert list == [list[0]] + list[1..];
      assert r in Own(Join(list[0]), Lookup(root, list[0]).value) <==> IsLeafAt(root, list[0], r);
      LeafRecordsHave(root, list[1..], r);
      assert forall c :: c in list <==> c == list[0] || c in list[1..];
    }
  }

  lemma {:induction false} WrittenIsLeaf(tree: Node, records: seq<Record>, r: Record)
    requires Holds(tree, records) && r in records
    ensures Split(r.path) in Walk(tree, []) && IsLeafAt(tree, Split(r.path), r)
  {
    VisitedIsNeeded(tree, records, Split(r.path));
    JoinSplit(SLASH, r.path);
    NodeOfLeaf(r.leaf);
  }

  lemma LeafIsWritten(tree: Node, records: seq<Record>, c: Components, r: Record)
    requires Holds(tree, records) && IsLeafAt(tree, c, r)
    ensures r in records
  {
    var x :| x in records && c <= Split(x.path);
    CutOrWhole(c, Split(x.path));
    JoinSplit(SLASH, x.path);
    NodeOfLeaf(x.leaf);
  }

  /** The leaves found by the scan are the records that were written. */
  lemma FoundIsWritten(tree: Node, records: seq<Record>, r: Record)
    requires Holds(tree, records) && Entries(tree, Walk(tree, []))
    ensures r in LeafRecords(tree, Walk(tree, [])) <==> r in records
  {
    LeafRecordsHave(tree, Walk(tree, []), r);
    if r in records {
      WrittenIsLeaf(tree, records, r);
    }
    if c :| c in Walk(tree, []) && IsLeafAt(tree, c, r) {
      LeafIsWritten(tree, records, c, r);
    }
  }

  lemma {:induction false} LeafRecordsRepeatNothing(root: Node, list: seq<Components>)
    requires Entries(root, list) && NoRepeats(list)
    requires forall c | c in list :: Split(Join(c)) == c
    ensures DistinctPaths(LeafRecords(root, list))
    decreases |list|
  {
    if list != [] {
      LeafRecordsStep(root, list);
      assert list == [list[0]] + list[1..];
      LeafRecordsRepeatNothing(root, list[1..]);
      forall r | r in LeafRecords(root, list[1..]) ensures r.path != Join(list[0]) {
        LeafRecordsHave(root, list[1..], r);
        var c :| c in list[1..] && IsLeafAt(root, c, r);
        assert c != list[0] && Split(Join(c)) == c && Split(Join(list[0])) == list[0];
      }
    }
  }

  // ---- Sorted records ----

  lemma PathOrderIsTransitive()
    ensures IsTransitive(PathBefore)
  {
    forall a, b, c | PathBefore(a, b) && PathBefore(b, c) ensures PathBefore(a, c) {
      Transitive(a.path, b.path, c.path);
    }
  }

  /** Sorting depends only on which records there are. */
  lemma {:induction false} SameRecordsSortAlike(a: seq<Record>, b: seq<Record>)
    requires DistinctPaths(a) && DistinctPaths(b) && forall r :: r in a <==> r in b
    ensures Sort(PathBefore, a) == Sort(PathBefore, b)
  {
    SortByPath(a);
    SortByPath(b);
    var x, y := Sort(PathBefore, a), Sort(PathBefore, b);
    forall r ensures r in x <==> r in y {
      SortMembers(PathBefore, a, r);
      SortMembers(PathBefore, b, r);
    }
    forall r, t | r in x && t in x ensures !(PathBefore(r, t) && PathBefore(t, r)) {
      Trichotomy(r.path, t.path);
    }
    RisingIsUnique(PathBefore, x, y);
  }

  lemma {:induction false} SortByPath(a: seq<Record>)
    requires DistinctPaths(a)
    ensures Rising(PathBefore, Sort(PathBefore, a))
  {
    PathOrderIsTransitive();
    forall i, j | 0 <= i < j < |a| ensures PathBefore(a[i], a[j]) <==> !PathBefore(a[j], a[i]) {
      Trichotomy(a[i].path, a[j].path);
    }
    SortRises(PathBefore, a);
  }

  lemma {:induction false} InsertTotal(items: seq<Record>, r: Record)
    ensures TotalContent(Insert(PathBefore, items, r)) == TotalContent(items) + |r.leaf.Content()|
  {
    if items == [] || !PathBefore(r, items[|items| - 1]) {
      assert (items + [r])[..|items|] == items;
    } else {
      var init := items[..|items| - 1];
      InsertTotal(init, r);
      var out := Insert(PathBefore, init, r);
      assert (out + [items[|items| - 1]])[..|out|] == out;
    }
  }

  lemma {:induction false} SortTotal(items: seq<Record>)
    ensures TotalContent(Sort(PathBefore, items)) == TotalContent(items)
  {
    if items != [] {
      SortTotal(items[..|items| - 1]);
      InsertTotal(Sort(PathBefore, items[..|items| - 1]), items[|items| - 1]);
    }
  }

  // ---- Materialise, then scan ----

  /** Only a symlink whose target is longer than the file limit is accepted but not scanned back. */
  predicate TargetsFit(records: seq<Record>, limits: Limits) {
    forall r | r in records && r.leaf.Literal? :: |r.leaf.target| <= limits.maxFileBytes
  }

  lemma {:induction false} EntriesAreOk(tree: Node, records: seq<Record>, limits: Limits)
    requires Holds(tree, records) && EachFits(records, limits) && Entries(tree, Walk(tree, []))
    ensures AllOk(limits, tree, Walk(tree, [])) <==> TargetsFit(records, limits)
  {
    forall c | c in Walk(tree, []) && TargetsFit(records, limits)
      ensures EntryOk(limits, Join(c), Lookup(tree, c).value)
    {
      VisitedIsNeeded(tree, records, c);
      NeededIsImplied(records, c, limits);
      NeededIsDirOrLeaf(tree, records, c);
    }
    if AllOk(limits, tree, Walk(tree, [])) {
      forall r | r in records && r.leaf.Literal? ensures |r.leaf.target| <= limits.maxFileBytes {
        WrittenIsLeaf(tree, records, r);
        assert EntryOk(limits, Join(Split(r.path)), Lookup(tree, Split(r.path)).value);
      }
    }
  }

  /** A tree that holds accepted records is scanned back to them, sorted, within the same budgets. */
  lemma {:induction false} ScanReadsBack(tree: Node, records: seq<Record>, limits: Limits)
    requires Holds(tree, records) && Accepts(records, limits)
    ensures Scan(limits, tree) == if TargetsFit(records, limits) then Some(Sort(PathBefore, records)) else None
  {
    ScanByTotals(limits, tree);
    EntriesAreOk(tree, records, limits);
    WalkCounts(tree, records, limits);
    ScanFinds(tree, records, limits);
    SortTotal(LeafRecords(tree, Walk(tree, [])));
    SortTotal(records);
  }

  lemma ScanByTotals(limits: Limits, tree: Node)
    ensures Entries(tree, Walk(tree, []))
    ensures var list := Walk(tree, []); var found := LeafRecords(tree, list);
      Scan(limits, tree) ==
      if AllOk(limits, tree, list) && |list| <= limits.maxFiles && TotalContent(found) <= limits.maxSubjectBytes
      then Some(Sort(PathBefore, found)) else None
  {
    var list := Walk(tree, []);
    WalkEntries(tree, tree, []);
    ScanListIsTotalled(limits, tree, Progress(0, 0, []), list);
    assert [] + LeafRecords(tree, list) == LeafRecords(tree, list);
  }

  lemma {:induction false} ScanFinds(tree: Node, records: seq<Record>, limits: Limits)
    requires Holds(tree, records) && EachFits(records, limits) && DistinctPaths(records)
    requires Entries(tree, Walk(tree, []))
    ensures Sort(PathBefore, LeafRecords(tree, Walk(tree, []))) == Sort(PathBefore, records)
  {
    var list := Walk(tree, []);
    WalkVisitsOnce(tree, []);
    forall c | c in list ensures Split(Join(c)) == c {
      VisitedIsNeeded(tree, records, c);
      NeededIsImplied(records, c, limits);
    }
    LeafRecordsRepeatNothing(tree, list);
    forall r ensures r in LeafRecords(tree, list) <==> r in records {
      FoundIsWritten(tree, records, r);
    }
    SameRecordsSortAlike(LeafRecords(tree, list), records);
  }

  /**
   Materialise, then scan: on an empty root any accepted record set comes back sorted, if and only
   if its symlink targets are within the file limit.
   */
  lemma {:induction false} MaterialiseThenScan(root: Node, records: seq<Record>, limits: Limits)
    requires root.Dir? && root.children == map[] && Accepts(records, limits)
    ensures var tree := Built(root, Sort(PathBefore, records));
      Scan(limits, tree) == if TargetsFit(records, limits) then Some(Sort(PathBefore, records)) else None
  {
    var sorted := Sort(PathBefore, records);
    AcceptsSorted(records, limits);
    AcceptedAreApart(sorted);
    BuiltHolds(root, sorted);
    ScanReadsBack(Built(root, sorted), sorted, limits);
    SameRecordsSortAlike(sorted, records);
  }

  lemma SameSets(a: seq<Record>, b: seq<Record>)
    requires forall r :: r in a <==> r in b
    ensures PathSet(a) == PathSet(b) && Implied(a) == Implied(b)
  {
  }

  /** Acceptance depends only on which records there are. */
  lemma {:induction false} SameRecordsAcceptAlike(a: seq<Record>, b: seq<Record>, limits: Limits)
    requires (forall r :: r in a <==> r in b) && TotalContent(a) == TotalContent(b)
    requires DistinctPaths(a) && Accepts(b, limits)
    ensures Accepts(a, limits) && (TargetsFit(a, limits) <==> TargetsFit(b, limits))
  {
    SameSets(a, b);
  }

  lemma {:induction false} AcceptsSorted(records: seq<Record>, limits: Limits)
    requires Accepts(records, limits)
    ensures var sorted := Sort(PathBefore, records);
      Accepts(sorted, limits) && (TargetsFit(sorted, limits) <==> TargetsFit(records, limits))
      && forall r :: r in sorted <==> r in records
  {
    var sorted := Sort(PathBefore, records);
    forall r ensures r in sorted <==> r in records {
      SortMembers(PathBefore, records, r);
    }
    SortedIsDistinct(records);
    SortTotal(records);
    SameRecordsAcceptAlike(sorted, records, limits);
  }

  lemma SortedIsDistinct(records: seq<Record>)
    requires DistinctPaths(records)
    ensures DistinctPaths(Sort(PathBefore, records))
  {
    var sorted := Sort(PathBefore, records);
    SortByPath(records);
    forall i, j | 0 <= i < j < |sorted| ensures sorted[i].path != sorted[j].path {
      Trichotomy(sorted[i].path, sorted[j].path);
    }
  }

  // ---- A record set that does not come back ----

  /** One link `a`, two bytes long, where a file may have one byte. */
  const LONG_LINK: seq<Record> := [Record([97], Literal([98, 98]))]

  const SMALL_FILES := Limits(1, 9, 9, 1, 9)

  /** A single record without parents is accepted when it fits by itself. */
  lemma OneIsAccepted(r: Record, limits: Limits)
    requires FitsPath(r.path, limits) && LeafFits(r.leaf, limits) && Parents(r.path) == {}
    requires limits.maxFiles > 0 && |r.leaf.Content()| <= limits.maxSubjectBytes
    ensures Accepts([r], limits)
  {
    var list := [r];
    assert list[..0] == [] && list[..1] == list;
    Grow(list, 0);
    assert PathSet(list) + Implied(list) == {r.path};
    assert |{r.path}| == 1;
  }

  lemma LongLinkIsAccepted()
    ensures Accepts(LONG_LINK, SMALL_FILES) && !TargetsFit(LONG_LINK, SMALL_FILES)
  {
    var r := LONG_LINK[0];
    SplitJoin(SLASH, [[97]]);
    assert Split(r.path) == [[97]];
    OneIsAccepted(r, SMALL_FILES);
    assert r in LONG_LINK;
  }

  /** The failing input: the writer accepts it, and the scan of the tree it wrote refuses. */
  lemma LongLinkIsNotScanned()
    ensures Accepts(LONG_LINK, SMALL_FILES) && Scan(SMALL_FILES, Built(EMPTY_DIR, Sort(PathBefore, LONG_LINK))) == None
  {
    LongLinkIsAccepted();
    MaterialiseThenScan(EMPTY_DIR, LONG_LINK, SMALL_FILES);
  }
}
