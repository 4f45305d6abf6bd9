/**
 The NUL-framed output of `git ls-tree -z`, against its printer.

 A record is mode, kind, object id and path; the path ends at the NUL and may hold tabs and newlines.
 */
module LsTree {
  import opened Basics
  import opened Splitting
  import opened Paths
  import opened Manifests
  import opened Policy
  import CatFile

  const NUL: byte := 0
  const TAB: byte := 9
  const SPACE: byte := 32

  datatype Mode = RegularFile | ExecutableFile | SymbolicLink

  datatype TreeEntry = TreeEntry(path: Bytes, mode: Mode, oid: Bytes)

  /** The six octal digits of each supported mode. */
  function ModeText(m: Mode): Bytes {
    match m
    case RegularFile => [49, 48, 48, 54, 52, 52]
    case ExecutableFile => [49, 48, 48, 55, 53, 53]
    case SymbolicLink => [49, 50, 48, 48, 48, 48]
  }

  function ReadMode(text: Bytes): Option<Mode> {
    if text == ModeText(RegularFile) then Some(RegularFile)
    else if text == ModeText(ExecutableFile) then Some(ExecutableFile)
    else if text == ModeText(SymbolicLink) then Some(SymbolicLink)
    else None
  }

  predicate AcceptedPath(path: Bytes, limits: Limits) {
    && ValidPath(path) && DOT_GIT !in Split(path)
    && |path| <= limits.maxPathBytes && |Split(path)| <= limits.maxPathDepth
  }

  // ---- One record ----

  function Render(e: TreeEntry): Bytes {
    ModeText(e.mode) + [SPACE] + CatFile.BLOB + [SPACE] + e.oid + [TAB] + e.path
  }

  predicate AcceptedEntry(e: TreeEntry, limits: Limits) {
    AcceptedPath(e.path, limits) && CatFile.ValidOid(e.oid)
  }

  function ReadRecord(record: Bytes, limits: Limits): Option<TreeEntry> {
    var tab := Find(TAB, record);
    var fields := SplitOn(SPACE, record[..tab]);
    if tab == |record| || |fields| != 3 then None
    else
      var mode, path := ReadMode(fields[0]), record[tab + 1..];
      if mode.None? || fields[1] != CatFile.BLOB || !AcceptedPath(path, limits) || !CatFile.ValidOid(fields[2]) then None
      else Some(TreeEntry(path, mode.value, fields[2]))
  }

  function HeaderOf(e: TreeEntry): Bytes {
    ModeText(e.mode) + [SPACE] + CatFile.BLOB + [SPACE] + e.oid
  }

  lemma HeaderFields(e: TreeEntry)
    requires CatFile.ValidOid(e.oid)
    ensures SplitOn(SPACE, HeaderOf(e)) == [ModeText(e.mode), CatFile.BLOB, e.oid] && TAB !in HeaderOf(e)
  {
    CatFile.JoinThree(SPACE, ModeText(e.mode), CatFile.BLOB, e.oid);
    SplitJoin(SPACE, [ModeText(e.mode), CatFile.BLOB, e.oid]);
  }

  lemma RenderingIsRead(limits: Limits, e: TreeEntry)
    requires AcceptedEntry(e, limits)
    ensures ReadRecord(Render(e), limits) == Some(e)
  {
    var record, header := Render(e), HeaderOf(e);
    HeaderFields(e);
    FindAfter(TAB, header, e.path);
    assert record == header + [TAB] + e.path;
    assert record[..|header|] == header && record[|header| + 1..] == e.path;
  }

  /** A record is accepted exactly when it is the rendering of an acceptable entry. */
  lemma RecordIsRendered(record: Bytes, limits: Limits, e: TreeEntry)
    ensures ReadRecord(record, limits) == Some(e) <==> AcceptedEntry(e, limits) && record == Render(e)
  {
    if AcceptedEntry(e, limits) && record == Render(e) {
      RenderingIsRead(limits, e);
    }
    if ReadRecord(record, limits) == Some(e) {
      var tab := Find(TAB, record);
      var fields := SplitOn(SPACE, record[..tab]);
      JoinSplit(SPACE, record[..tab]);
      assert fields == [fields[0], fields[1], fields[2]];
      CatFile.JoinThree(SPACE, fields[0], fields[1], fields[2]);
      assert record == record[..tab] + [TAB] + record[tab + 1..];
    }
  }

  // ---- The whole listing ----

  function Rendered(entries: seq<TreeEntry>): (records: seq<Bytes>)
    ensures |records| == |entries| && forall i | 0 <= i < |entries| :: records[i] == Render(entries[i])
  {
    seq(|entries|, i requires 0 <= i < |entries| => Render(entries[i]))
  }

  /** Each record, and a NUL after it. */
  function Terminated(records: seq<Bytes>): Bytes {
    if records == [] then [] else Terminated(records[..|records| - 1]) + Last(records) + [NUL]
  }

  function RenderAll(entries: seq<TreeEntry>): Bytes {
    Terminated(Rendered(entries))
  }

  predicate DistinctPaths(entries: seq<TreeEntry>) {
    forall i, j | 0 <= i < j < |entries| :: entries[i].path != entries[j].path
  }

  predicate AcceptedListing(entries: seq<TreeEntry>, limits: Limits) {
    |entries| <= limits.maxFiles && DistinctPaths(entries) && forall e | e in entries :: AcceptedEntry(e, limits)
  }

  function PathsOf(entries: seq<TreeEntry>): set<Bytes> {
    set e | e in entries :: e.path
  }

  /** The entries of the first records; `None` once one is refused or repeats a path. */
  function ReadRecords(records: seq<Bytes>, limits: Limits): Option<seq<TreeEntry>> {
    if records == [] then Some([])
    else
      var earlier := ReadRecords(records[..|records| - 1], limits);
      var e := ReadRecord(Last(records), limits);
      if earlier.None? || e.None? || e.value.path in PathsOf(earlier.value) then None
      else Some(earlier.value + [e.value])
  }

  function Listing(data: Bytes, limits: Limits): Option<seq<TreeEntry>> {
    if data == [] then Some([])
    else if data[|data| - 1] != NUL then None
    else
      var records := SplitOn(NUL, data[..|data| - 1]);
      if |records| > limits.maxFiles then None else ReadRecords(records, limits)
  }

  /** The loop over the records, with its set of paths seen so far. */
  method ReadAll(records: seq<Bytes>, limits: Limits) returns (entries: Option<seq<TreeEntry>>)
    ensures entries == ReadRecords(records, limits)
  {
    var list: seq<TreeEntry>, seen: set<Bytes> := [], {};
    for i := 0 to |records|
      invariant ReadRecords(records[..i], limits) == Some(list) && seen == PathsOf(list)
    {
      assert records[..i + 1][..i] == records[..i];
      var e := ReadRecord(records[i], limits);
      if e.None? || e.value.path in seen {
        ReadStops(records, i + 1, limits);
        return None;
      }
      seen := seen + {e.value.path};
      list := list + [e.value];
    }
    assert records[..|records|] == records;
    return Some(list);
  }

  /** `_parse_ls_tree`. */
  method ParseLsTree(data: Bytes, limits: Limits) returns (entries: Option<seq<TreeEntry>>)
    ensures entries == Listing(data, limits)
  {
    if data == [] {
      return Some([]);
    }
    if data[|data| - 1] != NUL {
      return None;
    }
    var records := SplitOn(NUL, data[..|data| - 1]);
    if |records| > limits.maxFiles {
      return None;
    }
    entries := ReadAll(records, limits);
  }

  lemma {:induction false} ReadStops(records: seq<Bytes>, n: nat, limits: Limits)
    requires n <= |records| && ReadRecords(records[..n], limits).None?
    ensures ReadRecords(records, limits).None?
    decreases |records| - n
  {
    if n == |records| {
      assert records[..n] == records;
    } else {
      assert records[..n + 1][..n] == records[..n];
      ReadStops(records, n + 1, limits);
    }
  }

  /** The records read are exactly the renderings of acceptable entries with distinct paths. */
  lemma {:induction false} RecordsAreRendered(records: seq<Bytes>, limits: Limits, entries: seq<TreeEntry>)
    ensures ReadRecords(records, limits) == Some(entries) <==>
            records == Rendered(entries) && DistinctPaths(entries) && forall e | e in entries :: AcceptedEntry(e, limits)
    decreases |records|
  {
    if records == [] {
      assert Rendered([]) == [];
    } else if entries != [] {
      var init, e := entries[..|entries| - 1], Last(entries);
      assert entries == init + [e];
      RecordsAreRendered(records[..|records| - 1], limits, init);
      RecordIsRendered(Last(records), limits, e);
      RenderedStep(init, e);
      assert records == records[..|records| - 1] + [Last(records)];
      DistinctStep(init, e);
    }
  }

  lemma RenderedStep(init: seq<TreeEntry>, e: TreeEntry)
    ensures Rendered(init + [e]) == Rendered(init) + [Render(e)]
  {
  }

  lemma DistinctStep(init: seq<TreeEntry>, e: TreeEntry)
    ensures DistinctPaths(init + [e]) <==> DistinctPaths(init) && e.path !in PathsOf(init)
  {
    var all := init + [e];
    if DistinctPaths(all) {
      forall i, j | 0 <= i < j < |init| ensures init[i].path != init[j].path {
        assert all[i] == init[i] && all[j] == init[j];
      }
      forall x | x in init ensures x.path != e.path {
        var i :| 0 <= i < |init| && init[i] == x;
        assert all[i] == x && all[|init|] == e;
      }
    }
  }

  lemma {:induction false} TerminatedIsJoin(records: seq<Bytes>)
    requires records != []
    ensures Terminated(records) == JoinWith(NUL, records) + [NUL]
  {
    var init, last := records[..|records| - 1], Last(records);
    if init == [] {
      assert records == [last] && Terminated(records) == [] + last + [NUL];
    } else {
      TerminatedIsJoin(init);
      JoinConcat(NUL, init, [last]);
      assert init + [last] == records;
    }
  }

  lemma {:induction false} ListingOfTerminated(records: seq<Bytes>, limits: Limits)
    requires records != [] && forall r | r in records :: NUL !in r
    ensures Listing(Terminated(records), limits) ==
            if |records| > limits.maxFiles then None else ReadRecords(records, limits)
  {
    var joined := JoinWith(NUL, records);
    TerminatedIsJoin(records);
    SplitJoin(NUL, records);
    assert (joined + [NUL])[..|joined + [NUL]| - 1] == joined;
  }

  lemma NoNulInRecord(e: TreeEntry, limits: Limits)
    requires AcceptedEntry(e, limits)
    ensures NUL !in Render(e)
  {
    assert NUL !in HeaderOf(e);
    assert Render(e) == HeaderOf(e) + [TAB] + e.path;
  }

  lemma RenderedIsListed(limits: Limits, entries: seq<TreeEntry>)
    requires AcceptedListing(entries, limits)
    ensures Listing(RenderAll(entries), limits) == Some(entries)
  {
    var records := Rendered(entries);
    if entries != [] {
      forall i | 0 <= i < |records| ensures NUL !in records[i] {
        NoNulInRecord(entries[i], limits);
      }
      ListingOfTerminated(records, limits);
      RecordsAreRendered(records, limits, entries);
    }
  }

  lemma ListedIsTerminated(data: Bytes, limits: Limits)
    requires data != [] && Listing(data, limits).Some?
    ensures var records := SplitOn(NUL, data[..|data| - 1]);
      && data == Terminated(records) && |records| <= limits.maxFiles
      && Listing(data, limits) == ReadRecords(records, limits)
  {
    JoinSplit(NUL, data[..|data| - 1]);
    TerminatedIsJoin(SplitOn(NUL, data[..|data| - 1]));
    assert data == data[..|data| - 1] + [NUL];
  }

  lemma ListedIsRendered(data: Bytes, limits: Limits, entries: seq<TreeEntry>)
    requires Listing(data, limits) == Some(entries)
    ensures AcceptedListing(entries, limits) && data == RenderAll(entries)
  {
    if data != [] {
      ListedIsTerminated(data, limits);
      RecordsAreRendered(SplitOn(NUL, data[..|data| - 1]), limits, entries);
    }
  }

  /** A listing is accepted exactly when it is the rendering of an acceptable set of entries. */
  lemma ListingIffRendered(data: Bytes, limits: Limits, entries: seq<TreeEntry>)
    ensures Listing(data, limits) == Some(entries) <==> AcceptedListing(entries, limits) && data == RenderAll(entries)
  {
    if Listing(data, limits) == Some(entries) {
      ListedIsRendered(data, limits, entries);
    } else if AcceptedListing(entries, limits) {
      RenderedIsListed(limits, entries);
    }
  }
}
