/** From a manifest to a tree and back: blobs, materialisation, scan and rebuilding. */
module Subject {
  import opened Basics
  import opened Splitting
  import opened Paths
  import opened Sorting
  import opened Manifests
  import opened Trees
  import opened Scanning
  import opened Materialise
  import opened RoundTrip

  // ---- The two ancestor checks ----

  /** No path is joined from the leading components of a later one. */
  predicate OnePass(entries: seq<Entry>, n: nat)
    requires n <= |entries|
  {
    forall i, j | 0 <= i < j < n :: entries[i].path !in Parents(entries[j].path)
  }

  /** The constructor's loop over sorted, unique paths, with its set of paths seen so far. */
  method CheckAncestors(entries: seq<Entry>) returns (ok: bool)
    ensures ok <==> OnePass(entries, |entries|)
  {
    var seen: set<Bytes> := {};
    for i := 0 to |entries|
      invariant seen == set e | e in entries[..i] :: e.path
      invariant OnePass(entries, i)
    {
      assert entries[..i + 1] == entries[..i] + [entries[i]];
      var parts := Split(entries[i].path);
      for end := 1 to |parts|
        invariant forall k | 1 <= k < end :: Join(parts[..k]) !in seen
      {
        if Join(parts[..end]) in seen {
          SeenIsEarlier(entries, i, end);
          return false;
        }
      }
      forall j | 0 <= j < i ensures entries[j].path !in Parents(entries[i].path) {
        assert entries[..i][j] == entries[j];
        assert entries[j].path in seen;
      }
      seen := seen + {entries[i].path};
    }
    return true;
  }

  lemma SeenIsEarlier(entries: seq<Entry>, i: nat, end: nat)
    requires i < |entries| && 1 <= end < |Split(entries[i].path)|
    requires exists e :: e in entries[..i] && e.path == Join(Split(entries[i].path)[..end])
    ensures !OnePass(entries, |entries|)
  {
    var e :| e in entries[..i] && e.path == Join(Split(entries[i].path)[..end]);
    var j :| 0 <= j < i && entries[..i][j] == e;
    ParentsHave(entries[i].path, end);
    assert entries[j].path in Parents(entries[i].path);
  }

  lemma ParentIsAbove(a: Bytes, p: Bytes)
    ensures a in Parents(p) <==> Above(a, p)
  {
    AncestorIsAbove(a, p);
    if IsAncestor(a, p) {
      var end :| 1 <= end < |Split(p)| && Join(Split(p)[..end]) == a;
    }
  }

  /** Over sorted paths, looking only backwards finds every conflict the set-based check finds. */
  lemma OnePassFindsAll(entries: seq<Entry>, records: seq<Record>)
    requires Sorted(entries) && PathSet(records) == PathsIn(entries)
    ensures OnePass(entries, |entries|) <==> PathSet(records) * Implied(records) == {}
    ensures OnePass(entries, |entries|) <==> ValidManifest(entries)
  {
    if a, b :| a in entries && b in entries && a.path in Parents(b.path) {
      ConflictIsSeen(entries, a, b);
    }
    forall a, b | a in entries && b in entries ensures a.path in Parents(b.path) <==> Above(a.path, b.path) {
      ParentIsAbove(a.path, b.path);
    }
    SetCheck(entries, records);
    if forall a, b | a in entries && b in entries :: a.path !in Parents(b.path) {
      assert OnePass(entries, |entries|);
    }
  }

  lemma {:induction false} EarlierWhenBefore(entries: seq<Entry>, i: nat, j: nat)
    requires Sorted(entries) && i < |entries| && j < |entries| && Before(entries[i].path, entries[j].path)
    ensures i < j
  {
    Trichotomy(entries[i].path, entries[j].path);
  }

  lemma {:induction false} ConflictIsSeen(entries: seq<Entry>, a: Entry, b: Entry)
    requires Sorted(entries) && a in entries && b in entries && a.path in Parents(b.path)
    ensures !OnePass(entries, |entries|)
  {
    ParentIsAbove(a.path, b.path);
    PrefixIsBefore(a.path, b.path);
    var i :| 0 <= i < |entries| && entries[i] == a;
    var j :| 0 <= j < |entries| && entries[j] == b;
    EarlierWhenBefore(entries, i, j);
  }

  lemma SetCheck(entries: seq<Entry>, records: seq<Record>)
    requires PathSet(records) == PathsIn(entries)
    ensures PathSet(records) * Implied(records) == {} <==>
            forall a, b | a in entries && b in entries :: a.path !in Parents(b.path)
  {
    if p :| p in PathSet(records) * Implied(records) {
      var r :| r in records && p in Parents(r.path);
      assert r.path in PathSet(records);
      var a :| a in entries && a.path == p;
      var b :| b in entries && b.path == r.path;
      assert a.path in Parents(b.path);
    }
    if a, b :| a in entries && b in entries && a.path in Parents(b.path) {
      assert b.path in PathSet(records) && a.path in PathSet(records);
      var r :| r in records && r.path == b.path;
      assert a.path in Implied(records);
      assert a.path in PathSet(records) * Implied(records);
    }
  }

  // ---- Manifest to records ----

  type Blobs = map<Digest, Bytes>

  /** `materialize_manifest`: a regular entry takes its bytes from a blob that must match it. */
  function RecordOf(sha: Bytes -> Digest, blobs: Blobs, e: Entry): Option<Record> {
    match e.identity
    case Symlink(target, _) => Some(Record(e.path, Literal(target)))
    case Regular(executable, size, blob) =>
      if blob in blobs && |blobs[blob]| == size && sha(blobs[blob]) == blob
      then Some(Record(e.path, Plain(executable, blobs[blob]))) else None
  }

  function Resolve(sha: Bytes -> Digest, blobs: Blobs, entries: seq<Entry>): Option<seq<Record>> {
    if entries == [] then Some([])
    else
      var init := Resolve(sha, blobs, entries[..|entries| - 1]);
      var last := RecordOf(sha, blobs, Last(entries));
      if init.None? || last.None? then None else Some(init.value + [last.value])
  }

  method ResolveManifest(sha: Bytes -> Digest, blobs: Blobs, entries: seq<Entry>) returns (records: Option<seq<Record>>)
    ensures records == Resolve(sha, blobs, entries)
  {
    var list: seq<Record> := [];
    for i := 0 to |entries|
      invariant Resolve(sha, blobs, entries[..i]) == Some(list)
    {
      assert entries[..i + 1][..i] == entries[..i];
      var r := RecordOf(sha, blobs, entries[i]);
      if r.None? {
        ResolveStops(sha, blobs, entries, i + 1);
        return None;
      }
      list := list + [r.value];
    }
    assert entries[..|entries|] == entries;
    return Some(list);
  }

  lemma {:induction false} ResolveStops(sha: Bytes -> Digest, blobs: Blobs, entries: seq<Entry>, n: nat)
    requires n <= |entries| && Resolve(sha, blobs, entries[..n]).None?
    ensures Resolve(sha, blobs, entries).None?
    decreases |entries| - n
  {
    if n == |entries| {
      assert entries[..n] == entries;
    } else {
      assert entries[..n + 1][..n] == entries[..n];
      ResolveStops(sha, blobs, entries, n + 1);
    }
  }

  // ---- Records to manifest ----

  function EntryOf(sha: Bytes -> Digest, r: Record): Entry {
    match r.leaf
    case Plain(executable, payload) => Entry(r.path, Regular(executable, |payload|, sha(payload)))
    case Literal(target) => Entry(r.path, Symlink(target, sha(target)))
  }

  predicate RecordFits(r: Record, limits: Limits) {
    && |r.path| <= limits.maxPathBytes && |Split(r.path)| <= limits.maxPathDepth
    && |r.leaf.Content()| <= limits.maxFileBytes
  }

  function EntriesOf(sha: Bytes -> Digest, records: seq<Record>): (entries: seq<Entry>)
    ensures |entries| == |records| && forall i | 0 <= i < |records| :: entries[i] == EntryOf(sha, records[i])
  {
    seq(|records|, i requires 0 <= i < |records| => EntryOf(sha, records[i]))
  }

  /** `build_manifest_from_scan`. */
  function Rebuild(sha: Bytes -> Digest, records: seq<Record>, limits: Limits): Option<seq<Entry>> {
    if |records| > limits.maxFiles || !(forall r | r in records :: RecordFits(r, limits))
       || TotalContent(records) > limits.maxSubjectBytes then None
    else
      Build(EntriesOf(sha, records), limits)
  }

  /** `SubjectManifest.build`. */
  function Build(entries: seq<Entry>, limits: Limits): Option<seq<Entry>> {
    var sorted := Sort(PathOrder, entries);
    if ValidManifest(sorted) && WithinLimits(sorted, limits) then Some(sorted) else None
  }

  /** What `ManifestEntry` demands of one entry. */
  predicate ValidEntry(sha: Bytes -> Digest, e: Entry) {
    && ValidPath(e.path)
    && (e.identity.Symlink? ==>
          e.identity.target != [] && 0 !in e.identity.target && sha(e.identity.target) == e.identity.targetDigest)
  }

  /** Resolving an entry and reading the record back gives the entry. */
  lemma EntryComesBack(sha: Bytes -> Digest, blobs: Blobs, e: Entry)
    requires ValidEntry(sha, e) && RecordOf(sha, blobs, e).Some?
    ensures var r := RecordOf(sha, blobs, e).value;
      EntryOf(sha, r) == e && r.path == e.path && |r.leaf.Content()| == Weight(e)
  {
  }

  lemma {:induction false} EntriesComeBack(sha: Bytes -> Digest, blobs: Blobs, entries: seq<Entry>)
    requires (forall e | e in entries :: ValidEntry(sha, e)) && Resolve(sha, blobs, entries).Some?
    ensures var records := Resolve(sha, blobs, entries).value;
      && |records| == |entries| && EntriesOf(sha, records) == entries
      && TotalContent(records) == TotalWeight(entries)
      && forall i | 0 <= i < |records| :: records[i].path == entries[i].path
  {
    if entries != [] {
      var init, e := entries[..|entries| - 1], Last(entries);
      assert entries == init + [e];
      EntriesComeBack(sha, blobs, init);
      EntryComesBack(sha, blobs, e);
      var earlier, r := Resolve(sha, blobs, init).value, RecordOf(sha, blobs, e).value;
      assert (earlier + [r])[..|earlier|] == earlier;
      assert EntriesOf(sha, earlier + [r]) == EntriesOf(sha, earlier) + [EntryOf(sha, r)];
    }
  }

  // ---- The whole chain ----

  lemma {:induction false} SortedStaysPut(records: seq<Record>)
    requires Rising(PathBefore, records)
    ensures Sort(PathBefore, records) == records
  {
    forall i, j | 0 <= i < j < |records| ensures records[i].path != records[j].path {
      assert PathBefore(records[i], records[j]);
      Trichotomy(records[i].path, records[j].path);
    }
    SortByPath(records);
    forall r, t | r in records && t in records ensures !(PathBefore(r, t) && PathBefore(t, r)) {
      Trichotomy(r.path, t.path);
    }
    forall r ensures r in Sort(PathBefore, records) <==> r in records {
      SortMembers(PathBefore, records, r);
    }
    RisingIsUnique(PathBefore, records, Sort(PathBefore, records));
  }

  lemma SortedEntriesStayPut(entries: seq<Entry>)
    requires Sorted(entries)
    ensures Sort(PathOrder, entries) == entries
  {
    forall a, b, c | PathOrder(a, b) && PathOrder(b, c) ensures PathOrder(a, c) {
      Transitive(a.path, b.path, c.path);
    }
    forall i, j | 0 <= i < j < |entries| ensures PathOrder(entries[i], entries[j]) <==> !PathOrder(entries[j], entries[i]) {
      Trichotomy(entries[i].path, entries[j].path);
    }
    SortRises(PathOrder, entries);
    var sorted := Sort(PathOrder, entries);
    forall i, j | 0 <= i < j < |sorted| ensures Before(sorted[i].path, sorted[j].path) {
      assert PathOrder(sorted[i], sorted[j]);
    }
    forall e ensures e in sorted <==> e in entries {
      SortMembers(PathOrder, entries, e);
    }
    SameMembers(entries, sorted);
  }

  /** Records of a manifest within its limits are rebuilt into it, if their links fit the file limit. */
  lemma {:induction false} RebuildsManifest(sha: Bytes -> Digest, blobs: Blobs, entries: seq<Entry>, limits: Limits)
    requires ValidManifest(entries) && WithinLimits(entries, limits)
    requires (forall e | e in entries :: ValidEntry(sha, e)) && Resolve(sha, blobs, entries).Some?
    requires TargetsFit(Resolve(sha, blobs, entries).value, limits)
    ensures Rebuild(sha, Resolve(sha, blobs, entries).value, limits) == Some(entries)
  {
    var records := Resolve(sha, blobs, entries).value;
    EntriesComeBack(sha, blobs, entries);
    forall r | r in records ensures RecordFits(r, limits) {
      var i :| 0 <= i < |records| && records[i] == r;
      assert entries[i] in entries && EntryFits(entries[i], limits);
      assert EntriesOf(sha, records)[i] == EntryOf(sha, r);
    }
    SortedEntriesStayPut(entries);
  }

  /**
   The chain from a manifest to a tree and back: resolve, materialise into an empty root, scan,
   rebuild.  It returns the manifest exactly when no symlink target exceeds the file limit.
   */
  lemma {:induction false} ManifestSurvives(sha: Bytes -> Digest, blobs: Blobs, entries: seq<Entry>, limits: Limits, root: Node)
    requires ValidManifest(entries) && WithinLimits(entries, limits) && forall e | e in entries :: ValidEntry(sha, e)
    requires Resolve(sha, blobs, entries).Some? && root.Dir? && root.children == map[]
    requires Accepts(Resolve(sha, blobs, entries).value, limits)
    ensures var records := Resolve(sha, blobs, entries).value;
      var scanned := Scan(limits, Built(root, Sort(PathBefore, records)));
      && (scanned.Some? <==> TargetsFit(records, limits))
      && (scanned.Some? ==> Rebuild(sha, scanned.value, limits) == Some(entries))
  {
    var records := Resolve(sha, blobs, entries).value;
    MaterialiseThenScan(root, records, limits);
    EntriesComeBack(sha, blobs, entries);
    forall i, j | 0 <= i < j < |records| ensures PathBefore(records[i], records[j]) {
      assert Before(entries[i].path, entries[j].path);
    }
    SortedStaysPut(records);
    if TargetsFit(records, limits) {
      RebuildsManifest(sha, blobs, entries, limits);
    }
  }

  function PathsIn(entries: seq<Entry>): set<Bytes> {
    set e | e in entries :: e.path
  }

  lemma SamePaths(records: seq<Record>, entries: seq<Entry>)
    requires |records| == |entries| && forall i | 0 <= i < |records| :: records[i].path == entries[i].path
    ensures PathSet(records) == PathsIn(entries)
  {
    forall r | r in records ensures r.path in PathsIn(entries) {
      var i :| 0 <= i < |records| && records[i] == r;
      assert entries[i] in entries;
    }
    forall e | e in entries ensures e.path in PathSet(records) {
      var i :| 0 <= i < |entries| && entries[i] == e;
      assert records[i] in records;
    }
  }

  lemma ResolvedFit(sha: Bytes -> Digest, blobs: Blobs, entries: seq<Entry>, limits: Limits)
    requires WithinLimits(entries, limits) && forall e | e in entries :: ValidEntry(sha, e)
    requires Resolve(sha, blobs, entries).Some?
    ensures EachFits(Resolve(sha, blobs, entries).value, limits)
  {
    var records := Resolve(sha, blobs, entries).value;
    EntriesComeBack(sha, blobs, entries);
    forall r | r in records ensures FitsPath(r.path, limits) && LeafFits(r.leaf, limits) {
      var i :| 0 <= i < |records| && records[i] == r;
      assert entries[i] in entries && EntryFits(entries[i], limits) && ValidEntry(sha, entries[i]);
      assert EntriesOf(sha, records)[i] == EntryOf(sha, r);
    }
  }

  /**
   A valid manifest within its limits can be materialised exactly when its directories also fit the
   file count, which the manifest's own limit check does not look at.
   */
  lemma {:induction false} MaterialisesIffDirectoriesFit(sha: Bytes -> Digest, blobs: Blobs, entries: seq<Entry>, limits: Limits)
    requires ValidManifest(entries) && WithinLimits(entries, limits) && forall e | e in entries :: ValidEntry(sha, e)
    requires Resolve(sha, blobs, entries).Some?
    ensures var records := Resolve(sha, blobs, entries).value;
      Accepts(records, limits) <==> |PathSet(records) + Implied(records)| <= limits.maxFiles
  {
    var records := Resolve(sha, blobs, entries).value;
    EntriesComeBack(sha, blobs, entries);
    ResolvedFit(sha, blobs, entries, limits);
    SamePaths(records, entries);
    forall i, j | 0 <= i < j < |records| ensures records[i].path != records[j].path {
      Trichotomy(entries[i].path, entries[j].path);
    }
    OnePassFindsAll(entries, records);
  }

  // ---- A manifest that cannot be materialised ----

  /** One link `a/b`, where one file is allowed. */
  function NestedLink(sha: Bytes -> Digest): Entry {
    Entry([97, SLASH, 98], Symlink([99], sha([99])))
  }

  const ONE_FILE := Limits(1, 9, 9, 9, 9)

  lemma NestedPath()
    ensures Split([97, SLASH, 98]) == [[97], [98]] && ValidPath([97, SLASH, 98])
  {
    SplitJoin(SLASH, [[97], [98]]);
    assert JoinWith(SLASH, [[97], [98]]) == [97] + [SLASH] + [98];
    assert [97] + [SLASH] + [98] == [97, SLASH, 98];
  }

  lemma NestedLinkIsValid(sha: Bytes -> Digest)
    ensures var entries := [NestedLink(sha)];
      ValidManifest(entries) && WithinLimits(entries, ONE_FILE) && forall e | e in entries :: ValidEntry(sha, e)
    ensures Resolve(sha, map[], [NestedLink(sha)]) == Some([Record([97, SLASH, 98], Literal([99]))])
  {
    NestedPath();
    var entries := [NestedLink(sha)];
    assert entries[..0] == [] && Last(entries) == NestedLink(sha);
    assert TotalWeight(entries) == 1;
    assert Resolve(sha, map[], []) == Some([]);
    assert [] + [Record([97, SLASH, 98], Literal([99]))] == [Record([97, SLASH, 98], Literal([99]))];
  }

  /** The failing input: valid and within its limits, and refused because its directory counts as well. */
  lemma NestedLinkIsNotMaterialised(sha: Bytes -> Digest)
    ensures ValidManifest([NestedLink(sha)]) && WithinLimits([NestedLink(sha)], ONE_FILE)
    ensures Resolve(sha, map[], [NestedLink(sha)]).Some?
    ensures !Accepts(Resolve(sha, map[], [NestedLink(sha)]).value, ONE_FILE)
  {
    NestedLinkIsValid(sha);
    NestedPath();
    MaterialisesIffDirectoriesFit(sha, map[], [NestedLink(sha)], ONE_FILE);
    var r := Record([97, SLASH, 98], Literal([99]));
    var records := [r];
    assert Split(r.path)[..1] == [[97]];
    assert [97] in Parents(r.path);
    assert r in records && [97] in Implied(records) && r.path in PathSet(records);
    assert {[97], r.path} <= PathSet(records) + Implied(records);
    assert |{[97], r.path}| == 2;
    TwoAreMoreThanOne([97], r.path, PathSet(records) + Implied(records));
  }

  lemma TwoAreMoreThanOne(a: Bytes, b: Bytes, s: set<Bytes>)
    requires a != b && a in s && b in s
    ensures |s| > 1
  {
    assert |s - {a}| > 0 by { assert b in s - {a}; }
    assert s == (s - {a}) + {a};
  }

  /** The running totals of `build_manifest_from_scan`. */
  method CheckScan(records: seq<Record>, limits: Limits) returns (ok: bool)
    ensures ok <==> |records| <= limits.maxFiles && (forall r | r in records :: RecordFits(r, limits))
                    && TotalContent(records) <= limits.maxSubjectBytes
  {
    var totalBytes := 0;
    for i := 0 to |records|
      invariant i <= limits.maxFiles && totalBytes == TotalContent(records[..i]) <= limits.maxSubjectBytes
      invariant forall r | r in records[..i] :: RecordFits(r, limits)
    {
      var r := records[i];
      assert records[..i + 1] == records[..i] + [r] && r in records;
      Grow(records, i);
      TotalGrows(records, i + 1);
      if i + 1 > limits.maxFiles || !RecordFits(r, limits) {
        return false;
      }
      totalBytes := totalBytes + |r.leaf.Content()|;
      if totalBytes > limits.maxSubjectBytes {
        return false;
      }
    }
    assert records[..|records|] == records;
    return true;
  }

  method MakeEntries(sha: Bytes -> Digest, records: seq<Record>) returns (entries: seq<Entry>)
    ensures entries == EntriesOf(sha, records)
  {
    entries := [];
    for i := 0 to |records|
      invariant entries == EntriesOf(sha, records)[..i]
    {
      entries := entries + [EntryOf(sha, records[i])];
    }
  }

  method BuildManifestFromScan(sha: Bytes -> Digest, records: seq<Record>, limits: Limits)
    returns (manifest: Option<seq<Entry>>)
    ensures manifest == Rebuild(sha, records, limits)
  {
    var ok := CheckScan(records, limits);
    if !ok {
      return None;
    }
    var entries := MakeEntries(sha, records);
    return Build(entries, limits);
  }
}
