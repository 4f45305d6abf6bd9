/**
 The complete scan of a quiescent tree, with its namespace and payload budgets.

 The recursive methods of the scanner are proved equal to one pass over the walk of the tree.
 */
module Scanning {
  import opened Basics
  import opened Splitting
  import opened Paths
  import opened Sorting
  import opened Manifests
  import opened Trees

  /** A scanned leaf: a regular file with its execute bit, or a literal symlink. */
  datatype Leaf = Plain(executable: bool, payload: Bytes) | Literal(target: Bytes) {
    function Content(): Bytes { if Plain? then payload else target }
  }

  datatype Record = Record(path: Bytes, leaf: Leaf)

  /** `mode & 0o111`. */
  predicate HasExecuteBit(mode: nat) {
    mode % 2 == 1 || mode / 8 % 2 == 1 || mode / 64 % 2 == 1
  }

  /** `validate_relative_path` with limits. */
  predicate FitsPath(path: Bytes, limits: Limits) {
    ValidPath(path) && |path| <= limits.maxPathBytes && |Split(path)| <= limits.maxPathDepth
  }

  function LeafOf(n: Node): Leaf
    requires n.File? || n.Link?
  {
    if n.File? then Plain(HasExecuteBit(n.mode), n.payload) else Literal(n.target)
  }

  datatype Progress = Progress(entries: nat, bytes: nat, records: seq<Record>)

  /** One directory entry; `None` when the scan refuses. */
  function Visit(limits: Limits, p: Progress, path: Bytes, n: Node): Option<Progress> {
    if !FitsPath(path, limits) || p.entries + 1 > limits.maxFiles || n.Special? then None
    else if n.Dir? then Some(p.(entries := p.entries + 1))
    else
      var size := |LeafOf(n).Content()|;
      if size > limits.maxFileBytes || p.bytes + size > limits.maxSubjectBytes then None
      else Some(Progress(p.entries + 1, p.bytes + size, p.records + [Record(path, LeafOf(n))]))
  }

  predicate Entries(root: Node, list: seq<Components>) {
    forall c | c in list :: c != [] && Lookup(root, c).Some?
  }

  function ScanList(limits: Limits, root: Node, p: Progress, list: seq<Components>): Option<Progress>
    requires Entries(root, list)
    decreases |list|
  {
    if list == [] then Some(p)
    else
      assert list[0] in list && forall c | c in list[1..] :: c in list;
      var next := Visit(limits, p, Join(list[0]), Lookup(root, list[0]).value);
      if next.None? then None else ScanList(limits, root, next.value, list[1..])
  }

  lemma {:induction false} ScanListConcat(limits: Limits, root: Node, p: Progress, a: seq<Components>, b: seq<Components>)
    requires Entries(root, a) && Entries(root, b)
    ensures ScanList(limits, root, p, a + b) ==
            var r := ScanList(limits, root, p, a); if r.None? then None else ScanList(limits, root, r.value, b)
    decreases |a|
  {
    if a == [] {
      assert a + b == b;
    } else {
      assert (a + b)[1..] == a[1..] + b && (a + b)[0] == a[0];
      assert a[0] in a && forall c | c in a[1..] :: c in a;
      var next := Visit(limits, p, Join(a[0]), Lookup(root, a[0]).value);
      if next.Some? {
        ScanListConcat(limits, root, next.value, a[1..], b);
      }
    }
  }

  lemma WalkEntries(root: Node, d: Node, at: Components)
    requires Lookup(root, at) == Some(d)
    ensures Entries(root, Walk(d, at))
  {
    forall c | c in Walk(d, at) ensures c != [] && Lookup(root, c).Some? {
      WalkVisits(d, at, c);
      assert c == at + c[|at|..];
      LookupConcat(root, at, c[|at|..]);
    }
  }

  lemma WalkNamesEntries(root: Node, d: Node, names: seq<Bytes>, at: Components)
    requires d.Dir? && Lookup(root, at) == Some(d) && forall name | name in names :: name in d.children
    ensures Entries(root, WalkNames(d, names, at))
  {
    forall c | c in WalkNames(d, names, at) ensures c != [] && Lookup(root, c).Some? {
      WalkNamesVisits(d, names, at, c);
      assert c == at + c[|at|..];
      LookupConcat(root, at, c[|at|..]);
    }
  }

  // ---- The recursive scan ----

  class Scanner {
    const limits: Limits
    var namespaceEntries: nat
    var payloadBytes: nat
    var records: seq<Record>

    constructor (limits: Limits)
      ensures this.limits == limits && Current() == Progress(0, 0, [])
    {
      this.limits := limits;
      namespaceEntries, payloadBytes, records := 0, 0, [];
    }

    function Current(): Progress
      reads this
    {
      Progress(namespaceEntries, payloadBytes, records)
    }

    method AddNamespaceEntry() returns (ok: bool)
      modifies this`namespaceEntries
      ensures namespaceEntries == old(namespaceEntries) + 1 && (ok <==> namespaceEntries <= limits.maxFiles)
    {
      namespaceEntries := namespaceEntries + 1;
      ok := namespaceEntries <= limits.maxFiles;
    }

    method AddPayload(size: nat) returns (ok: bool)
      modifies this`payloadBytes
      ensures payloadBytes == old(payloadBytes) + size && (ok <==> payloadBytes <= limits.maxSubjectBytes)
    {
      payloadBytes := payloadBytes + size;
      ok := payloadBytes <= limits.maxSubjectBytes;
    }

    /** One entry that is not a directory's contents. */
    method VisitEntry(path: Bytes, n: Node) returns (ok: bool)
      modifies this
      ensures var r := Visit(limits, old(Current()), path, n);
        (ok <==> r.Some?) && (ok ==> Current() == r.value)
    {
      if !FitsPath(path, limits) {
        return false;
      }
      ok := AddNamespaceEntry();
      if !ok || n.Special? {
        return false;
      }
      if !n.Dir? {
        var leaf := LeafOf(n);
        if |leaf.Content()| > limits.maxFileBytes {
          return false;
        }
        ok := AddPayload(|leaf.Content()|);
        records := records + [Record(path, leaf)];
      }
    }

    /** One entry and, for a directory, everything below it. */
    method ScanEntry(n: Node, path: Bytes, ghost root: Node, ghost at: Components) returns (ok: bool)
      requires at != [] && Lookup(root, at) == Some(n) && path == Join(at)
      requires Entries(root, Walk(n, at))
      modifies this
      ensures var r := ScanBelow(limits, root, old(Current()), n, at);
        (ok <==> r.Some?) && (ok ==> Current() == r.value)
      decreases n, 1
    {
      ok := VisitEntry(path, n);
      if ok && n.Dir? {
        PathIsNotEmpty(limits, path);
        ok := ScanDirectory(n, path, root, at);
      }
    }

    /** `_scan_directory`: visit the names in byte order, a directory before its own entries. */
    method ScanDirectory(d: Node, prefix: Bytes, ghost root: Node, ghost at: Components) returns (ok: bool)
      requires d.Dir? && Lookup(root, at) == Some(d)
      requires prefix == (if at == [] then [] else Join(at)) && (at != [] ==> prefix != [])
      requires Entries(root, Walk(d, at))
      modifies this
      ensures var r := ScanList(limits, root, old(Current()), Walk(d, at));
        (ok <==> r.Some?) && (ok ==> Current() == r.value)
      decreases d, 0
    {
      var names := SortedNames(d.children.Keys);
      ghost var result := ScanList(limits, root, Current(), Walk(d, at));
      for i := 0 to |names|
        invariant Entries(root, WalkNames(d, names[i..], at))
        invariant result == ScanList(limits, root, Current(), WalkNames(d, names[i..], at))
      {
        NextName(limits, root, Current(), d, names, i, at);
        var name := names[i];
        JoinConcatName(at, name);
        var path := if prefix == [] then name else prefix + [SLASH] + name;
        var scanned := ScanEntry(d.children[name], path, root, at + [name]);
        if !scanned {
          return false;
        }
      }
      return true;
    }
  }

  /** Visiting one entry, then what is below it. */
  function ScanBelow(limits: Limits, root: Node, p: Progress, n: Node, at: Components): Option<Progress>
    requires at != [] && Entries(root, Walk(n, at))
  {
    var visited := Visit(limits, p, Join(at), n);
    if visited.None? then None else ScanList(limits, root, visited.value, Walk(n, at))
  }

  lemma JoinConcatName(at: Components, name: Bytes)
    ensures Join(at + [name]) == if at == [] then name else Join(at) + [SLASH] + name
  {
    if at == [] {
      assert at + [name] == [name];
    } else {
      JoinConcat(SLASH, at, [name]);
    }
  }

  lemma PathIsNotEmpty(limits: Limits, path: Bytes)
    requires FitsPath(path, limits)
    ensures path != []
  {
  }

  /** The walk below one directory: its first entry, what is below that, and the rest. */
  lemma Descend(limits: Limits, root: Node, p: Progress, d: Node, names: seq<Bytes>, at: Components)
    requires d.Dir? && Lookup(root, at) == Some(d) && names != [] && forall name | name in names :: name in d.children
    ensures var here := at + [names[0]]; var child := d.children[names[0]];
      && Lookup(root, here) == Some(child)
      && Entries(root, Walk(child, here)) && Entries(root, WalkNames(d, names[1..], at))
      && Entries(root, WalkNames(d, names, at))
      && var below := ScanBelow(limits, root, p, child, here);
         ScanList(limits, root, p, WalkNames(d, names, at)) ==
         if below.None? then None else ScanList(limits, root, below.value, WalkNames(d, names[1..], at))
  {
    var here, child := at + [names[0]], d.children[names[0]];
    LookupConcat(root, at, [names[0]]);
    WalkEntries(root, child, here);
    WalkNamesEntries(root, d, names, at);
    WalkNamesEntries(root, d, names[1..], at);
    var first, rest := Walk(child, here), WalkNames(d, names[1..], at);
    assert WalkNames(d, names, at) == [here] + (first + rest);
    assert ([here] + (first + rest))[1..] == first + rest;
    var visited := Visit(limits, p, Join(here), child);
    if visited.Some? {
      ScanListConcat(limits, root, visited.value, first, rest);
    }
  }

  lemma {:induction false} NextName(limits: Limits, root: Node, p: Progress, d: Node, names: seq<Bytes>, i: nat, at: Components)
    requires d.Dir? && Lookup(root, at) == Some(d) && i < |names| && forall name | name in names :: name in d.children
    ensures var here := at + [names[i]]; var child := d.children[names[i]];
      && Lookup(root, here) == Some(child)
      && Entries(root, Walk(child, here)) && Entries(root, WalkNames(d, names[i + 1..], at))
      && Entries(root, WalkNames(d, names[i..], at))
      && var below := ScanBelow(limits, root, p, child, here);
         ScanList(limits, root, p, WalkNames(d, names[i..], at)) ==
         if below.None? then None else ScanList(limits, root, below.value, WalkNames(d, names[i + 1..], at))
  {
    assert names[i..][0] == names[i] && names[i..][1..] == names[i + 1..];
    Descend(limits, root, p, d, names[i..], at);
  }

  // ---- The result of a scan ----

  predicate PathBefore(a: Record, b: Record) {
    Before(a.path, b.path)
  }

  function Scan(limits: Limits, root: Node): Option<seq<Record>> {
    WalkEntries(root, root, []);
    var r := ScanList(limits, root, Progress(0, 0, []), Walk(root, []));
    if r.None? then None else Some(Sort(PathBefore, r.value.records))
  }

  method ScanRecords(limits: Limits, root: Node) returns (result: Option<seq<Record>>)
    requires root.Dir?
    ensures result == Scan(limits, root)
  {
    var scanner := new Scanner(limits);
    WalkEntries(root, root, []);
    var ok := scanner.ScanDirectory(root, [], root, []);
    if !ok {
      return None;
    }
    return Some(Sort(PathBefore, scanner.records));
  }

  function TotalContent(records: seq<Record>): nat {
    if records == [] then 0 else TotalContent(records[..|records| - 1]) + |Last(records).leaf.Content()|
  }

  lemma {:induction false} TotalContentConcat(a: seq<Record>, b: seq<Record>)
    ensures TotalContent(a + b) == TotalContent(a) + TotalContent(b)
    decreases |b|
  {
    if b == [] {
      assert a + b == a;
    } else {
      assert (a + b)[..|a + b| - 1] == a + b[..|b| - 1];
      TotalContentConcat(a, b[..|b| - 1]);
    }
  }

  function LeafRecords(root: Node, list: seq<Components>): seq<Record>
    requires Entries(root, list)
  {
    if list == [] then []
    else
      assert list[0] in list && forall c | c in list[1..] :: c in list;
      var n := Lookup(root, list[0]).value;
      (if n.File? || n.Link? then [Record(Join(list[0]), LeafOf(n))] else []) + LeafRecords(root, list[1..])
  }

  /** What one entry must be, whatever else the tree holds. */
  predicate EntryOk(limits: Limits, path: Bytes, n: Node) {
    FitsPath(path, limits) && !n.Special? && (n.File? || n.Link? ==> |LeafOf(n).Content()| <= limits.maxFileBytes)
  }

  predicate AllOk(limits: Limits, root: Node, list: seq<Components>)
    requires Entries(root, list)
  {
    forall c | c in list :: EntryOk(limits, Join(c), Lookup(root, c).value)
  }

  /** What a scan from `p` must come to, judged by its totals. */
  function Totalled(limits: Limits, root: Node, p: Progress, list: seq<Components>): Option<Progress>
    requires Entries(root, list)
  {
    Budgeted(limits, p, AllOk(limits, root, list), |list|, LeafRecords(root, list))
  }

  function Budgeted(limits: Limits, p: Progress, ok: bool, count: nat, found: seq<Record>): Option<Progress> {
    var end := Progress(p.entries + count, p.bytes + TotalContent(found), p.records + found);
    if ok && end.entries <= limits.maxFiles && end.bytes <= limits.maxSubjectBytes then Some(end) else None
  }

  /** The leaf, if any, that one entry contributes. */
  function Own(path: Bytes, n: Node): seq<Record> {
    if n.File? || n.Link? then [Record(path, LeafOf(n))] else []
  }

  lemma LeafRecordsStep(root: Node, list: seq<Components>)
    requires Entries(root, list) && list != []
    ensures list[0] != [] && Lookup(root, list[0]).Some? && Entries(root, list[1..])
    ensures LeafRecords(root, list) == Own(Join(list[0]), Lookup(root, list[0]).value) + LeafRecords(root, list[1..])
  {
    assert list[0] in list && forall x | x in list[1..] :: x in list;
  }

  lemma OwnContent(path: Bytes, n: Node)
    ensures TotalContent(Own(path, n)) == if n.File? || n.Link? then |LeafOf(n).Content()| else 0
  {
    var own := Own(path, n);
    assert own != [] ==> own[..|own| - 1] == [];
  }

  lemma AllOkStep(limits: Limits, root: Node, list: seq<Components>)
    requires Entries(root, list) && list != []
    ensures list[0] != [] && Lookup(root, list[0]).Some? && Entries(root, list[1..])
    ensures AllOk(limits, root, list) <==>
            EntryOk(limits, Join(list[0]), Lookup(root, list[0]).value) && AllOk(limits, root, list[1..])
  {
    assert list == [list[0]] + list[1..];
    assert list[0] in list && forall x | x in list[1..] :: x in list;
  }

  /** One entry first, then the rest: the budgets are the same. */
  lemma BudgetedStep(limits: Limits, p: Progress, path: Bytes, n: Node, ok: bool, count: nat, found: seq<Record>)
    ensures Budgeted(limits, p, EntryOk(limits, path, n) && ok, count + 1, Own(path, n) + found) ==
            var next := Visit(limits, p, path, n);
            if next.None? then None else Budgeted(limits, next.value, ok, count, found)
  {
    OwnContent(path, n);
    TotalContentConcat(Own(path, n), found);
    assert p.records + (Own(path, n) + found) == p.records + Own(path, n) + found;
    assert p.records + [] == p.records;
  }

  /** The running budgets refuse exactly when the totals are too large. */
  lemma {:induction false} ScanListIsTotalled(limits: Limits, root: Node, p: Progress, list: seq<Components>)
    requires Entries(root, list) && p.entries <= limits.maxFiles && p.bytes <= limits.maxSubjectBytes
    ensures ScanList(limits, root, p, list) == Totalled(limits, root, p, list)
    decreases |list|
  {
    if list == [] {
      assert p.records + [] == p.records;
    } else {
      LeafRecordsStep(root, list);
      AllOkStep(limits, root, list);
      var path, n := Join(list[0]), Lookup(root, list[0]).value;
      BudgetedStep(limits, p, path, n, AllOk(limits, root, list[1..]), |list| - 1, LeafRecords(root, list[1..]));
      var next := Visit(limits, p, path, n);
      if next.Some? {
        ScanListIsTotalled(limits, root, next.value, list[1..]);
      }
    }
  }
}
