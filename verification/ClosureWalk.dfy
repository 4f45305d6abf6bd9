/**
 The reviewed closure of a tree, by recursion, and the hashing walk with its explicit stack.

 The invariant of the walk is a sum: the lines listed so far and the closures of the directories
 still on the stack add up to the closure of the root.
 */
module ClosureWalk {
  import opened Basics
  import opened Paths
  import opened Sorting
  import opened Trees

  /** One line of the closure: a directory, or a file with its size and content digest. */
  datatype Line = Directory(path: Bytes, mode: nat) | Content(path: Bytes, mode: nat, size: nat, digest: Bytes)

  datatype Env = Env(sha: Bytes -> Bytes, safe: nat -> bool, pythonSourcesOnly: bool)

  const PYCACHE: Bytes := [95, 95, 112, 121, 99, 97, 99, 104, 101, 95, 95]
  const PY_SUFFIX: Bytes := [46, 112, 121]

  predicate EndsWith(path: Bytes, suffix: Bytes) {
    |suffix| <= |path| && path[|path| - |suffix|..] == suffix
  }

  function Below(relative: Bytes, name: Bytes): Bytes {
    if relative == [] then name else relative + [SLASH] + name
  }

  /** Cache directories are left out of a closure of Python sources. */
  predicate Skipped(env: Env, name: Bytes, child: Node) {
    env.pythonSourcesOnly && name == PYCACHE && child.Dir?
  }

  /** What a walk over part of a tree adds up to. */
  datatype Summary = Summary(lines: multiset<Line>, entries: nat, bytes: nat, plain: bool, safe: bool, weight: nat) {
    function Plus(o: Summary): Summary {
      Summary(lines + o.lines, entries + o.entries, bytes + o.bytes, plain && o.plain, safe && o.safe, weight + o.weight)
    }
  }

  const NOTHING := Summary(multiset{}, 0, 0, true, true, 0)

  lemma PlusLaws(a: Summary, b: Summary, c: Summary)
    ensures a.Plus(b) == b.Plus(a)
    ensures a.Plus(b).Plus(c) == a.Plus(b.Plus(c))
    ensures a.Plus(NOTHING) == a && NOTHING.Plus(a) == a
  {
  }

  // ---- The closure by recursion ----

  /** A directory: its own line, then everything below it. */
  function Closure(env: Env, n: Node, relative: Bytes): Summary
    requires n.Dir?
    decreases n, 1, 0
  {
    OwnLine(env, n, relative).Plus(ClosureNames(env, n, SortedNames(n.children.Keys), relative))
  }

  function OwnLine(env: Env, n: Node, relative: Bytes): Summary
    requires n.Dir?
  {
    Summary(multiset{Directory(relative, n.mode)}, 0, 0, true, env.safe(n.mode), 1)
  }

  function ClosureNames(env: Env, d: Node, names: seq<Bytes>, relative: Bytes): Summary
    requires d.Dir? && forall name | name in names :: name in d.children
    decreases d, 0, |names|
  {
    if names == [] then NOTHING
    else
      NameClosure(env, names[0], d.children[names[0]], Below(relative, names[0])).Plus(ClosureNames(env, d, names[1..], relative))
  }

  /** One name of a directory and, for a subdirectory, everything below it. */
  function NameClosure(env: Env, name: Bytes, child: Node, path: Bytes): Summary
    decreases child, 2, 0
  {
    if Skipped(env, name, child) then NOTHING
    else if child.Dir? then COUNTED.Plus(Closure(env, child, path))
    else Single(env, child, path)
  }

  const COUNTED := Summary(multiset{}, 1, 0, true, true, 0)

  /** An entry that is not a directory; only regular files belong into a closure. */
  function Single(env: Env, child: Node, path: Bytes): Summary
    requires !child.Dir?
  {
    if child.File? then
      Summary(multiset{Content(path, child.mode, |child.payload|, env.sha(child.payload))}, 1, |child.payload|,
              env.pythonSourcesOnly ==> EndsWith(path, PY_SUFFIX), env.safe(child.mode), 0)
    else Summary(multiset{}, 1, 0, false, true, 0)
  }

  // ---- The walk with a stack ----

  /** An open directory waiting on the stack. */
  datatype Open = Open(relative: Bytes, mode: nat, children: map<Bytes, Node>) {
    function Node(): Node { Dir(mode, children) }
  }

  function PendingClosure(env: Env, stack: seq<Open>): Summary {
    if stack == [] then NOTHING
    else
      PendingClosure(env, stack[..|stack| - 1])
      .Plus(Closure(env, stack[|stack| - 1].Node(), stack[|stack| - 1].relative))
  }

  lemma PendingPush(env: Env, stack: seq<Open>, top: Open)
    ensures PendingClosure(env, stack + [top]) == PendingClosure(env, stack).Plus(Closure(env, top.Node(), top.relative))
  {
    assert (stack + [top])[..|stack|] == stack;
  }

  predicate Acceptable(s: Summary, maxFiles: nat, maxBytes: nat) {
    s.plain && s.safe && s.entries <= maxFiles && s.bytes <= maxBytes
  }

  /** The counters and the list of lines of a walk, as a summary. */
  function Done(lines: seq<Line>, entries: nat, bytes: nat, weight: nat): Summary {
    Summary(multiset(lines), entries, bytes, true, true, weight)
  }

  /** Lines, counters and stack of a walk under way. */
  datatype State = State(stack: seq<Open>, lines: seq<Line>, entries: nat, bytes: nat)

  predicate Within(w: State, maxFiles: nat, maxBytes: nat) {
    w.entries <= maxFiles && w.bytes <= maxBytes
  }

  /** What has been done and what is pending, together. */
  function Sum(env: Env, w: State, weight: nat): Summary {
    Done(w.lines, w.entries, w.bytes, weight).Plus(PendingClosure(env, w.stack))
  }

  lemma WorseWithMore(a: Summary, b: Summary, maxFiles: nat, maxBytes: nat)
    ensures Acceptable(a.Plus(b), maxFiles, maxBytes) ==> Acceptable(a, maxFiles, maxBytes)
  {
  }

  function Pushed(w: State, path: Bytes, child: Node): State
    requires child.Dir?
  {
    w.(stack := w.stack + [Open(path, child.mode, child.children)], entries := w.entries + 1)
  }

  lemma Push(env: Env, w: State, weight: nat, path: Bytes, child: Node)
    requires child.Dir?
    ensures Sum(env, Pushed(w, path, child), weight) == Sum(env, w, weight).Plus(COUNTED.Plus(Closure(env, child, path)))
  {
    var done, pending, below := Done(w.lines, w.entries, w.bytes, weight), PendingClosure(env, w.stack), Closure(env, child, path);
    SumAfterPush(env, w, weight, path, child);
    Swap(done, COUNTED, pending, below);
  }

  lemma SumAfterPush(env: Env, w: State, weight: nat, path: Bytes, child: Node)
    requires child.Dir?
    ensures Sum(env, Pushed(w, path, child), weight)
            == Done(w.lines, w.entries, w.bytes, weight).Plus(COUNTED)
               .Plus(PendingClosure(env, w.stack).Plus(Closure(env, child, path)))
  {
    PendingPush(env, w.stack, Open(path, child.mode, child.children));
    DoneCounted(w, weight);
  }

  lemma DoneCounted(w: State, weight: nat)
    ensures Done(w.lines, w.entries + 1, w.bytes, weight) == Done(w.lines, w.entries, w.bytes, weight).Plus(COUNTED)
  {
  }

  lemma Swap(a: Summary, x: Summary, p: Summary, c: Summary)
    ensures a.Plus(x).Plus(p.Plus(c)) == a.Plus(p).Plus(x.Plus(c))
  {
  }

  lemma List(env: Env, w: State, weight: nat, line: Line, size: nat)
    ensures Sum(env, w.(lines := w.lines + [line], entries := w.entries + 1, bytes := w.bytes + size), weight)
            == Sum(env, w, weight).Plus(Summary(multiset{line}, 1, size, true, true, 0))
  {
  }

  predicate Refused(env: Env, child: Node, path: Bytes, maxFiles: nat, maxBytes: nat, w: State) {
    || w.entries + 1 > maxFiles
    || (!child.Dir? && (!child.File? || !env.safe(child.mode) || w.bytes + |child.payload| > maxBytes
                        || (env.pythonSourcesOnly && !EndsWith(path, PY_SUFFIX))))
  }

  /** One name: a subdirectory is pushed, a file is hashed and listed, anything else refused. */
  function VisitName(env: Env, name: Bytes, child: Node, path: Bytes, maxFiles: nat, maxBytes: nat, w: State): Option<State> {
    if Skipped(env, name, child) then Some(w)
    else if Refused(env, child, path, maxFiles, maxBytes, w) then None
    else if child.Dir? then Some(Pushed(w, path, child))
    else
      var line := Content(path, child.mode, |child.payload|, env.sha(child.payload));
      Some(w.(lines := w.lines + [line], entries := w.entries + 1, bytes := w.bytes + |child.payload|))
  }

  lemma RefusedIsUnacceptable(env: Env, name: Bytes, child: Node, path: Bytes, maxFiles: nat, maxBytes: nat, w: State,
                              weight: nat)
    requires !Skipped(env, name, child) && Refused(env, child, path, maxFiles, maxBytes, w)
    ensures !Acceptable(Sum(env, w, weight).Plus(NameClosure(env, name, child, path)), maxFiles, maxBytes)
  {
  }

  lemma {:induction false} VisitAddsDirectory(env: Env, name: Bytes, child: Node, path: Bytes, maxFiles: nat, maxBytes: nat, w: State,
                           weight: nat)
    requires Within(w, maxFiles, maxBytes) && child.Dir? && !Skipped(env, name, child) && w.entries < maxFiles
    ensures var next := VisitName(env, name, child, path, maxFiles, maxBytes, w);
      && next.Some? && Within(next.value, maxFiles, maxBytes)
      && Sum(env, next.value, weight) == Sum(env, w, weight).Plus(NameClosure(env, name, child, path))
  {
    Push(env, w, weight, path, child);
  }

  lemma {:induction false} VisitAddsFile(env: Env, name: Bytes, child: Node, path: Bytes, maxFiles: nat, maxBytes: nat, w: State,
                      weight: nat)
    requires Within(w, maxFiles, maxBytes) && child.File? && !Refused(env, child, path, maxFiles, maxBytes, w)
    ensures var next := VisitName(env, name, child, path, maxFiles, maxBytes, w);
      && next.Some? && Within(next.value, maxFiles, maxBytes)
      && Sum(env, next.value, weight) == Sum(env, w, weight).Plus(NameClosure(env, name, child, path))
  {
    List(env, w, weight, Content(path, child.mode, |child.payload|, env.sha(child.payload)), |child.payload|);
  }

  /** Visiting one name adds its share of the closure, or shows the closure unacceptable. */
  lemma {:induction false} VisitAddsEntry(env: Env, name: Bytes, child: Node, path: Bytes, maxFiles: nat, maxBytes: nat, w: State, weight: nat)
    requires Within(w, maxFiles, maxBytes)
    ensures var next := VisitName(env, name, child, path, maxFiles, maxBytes, w);
      && (next.None? ==> !Acceptable(Sum(env, w, weight).Plus(NameClosure(env, name, child, path)), maxFiles, maxBytes))
      && (next.Some? ==> Within(next.value, maxFiles, maxBytes)
                         && Sum(env, next.value, weight) == Sum(env, w, weight).Plus(NameClosure(env, name, child, path)))
  {
    if Skipped(env, name, child) {
      PlusLaws(Sum(env, w, weight), NOTHING, NOTHING);
    } else if Refused(env, child, path, maxFiles, maxBytes, w) {
      RefusedIsUnacceptable(env, name, child, path, maxFiles, maxBytes, w, weight);
    } else if child.Dir? {
      VisitAddsDirectory(env, name, child, path, maxFiles, maxBytes, w, weight);
    } else {
      VisitAddsFile(env, name, child, path, maxFiles, maxBytes, w, weight);
    }
  }

  /** Visiting the `i`th name takes its share out of what the remaining names add. */
  lemma {:induction false} OneName(env: Env, d: Node, names: seq<Bytes>, i: nat, relative: Bytes, w: State, weight: nat,
                maxEntries: nat, maxBytes: nat)
    requires d.Dir? && i < |names| && (forall name | name in names :: name in d.children)
    requires Within(w, maxEntries, maxBytes)
    ensures var next := VisitName(env, names[i], d.children[names[i]], Below(relative, names[i]), maxEntries, maxBytes, w);
      var before := Sum(env, w, weight).Plus(ClosureNames(env, d, names[i..], relative));
      && (next.None? ==> !Acceptable(before, maxEntries, maxBytes))
      && (next.Some? ==> Within(next.value, maxEntries, maxBytes)
                         && Sum(env, next.value, weight).Plus(ClosureNames(env, d, names[i + 1..], relative)) == before)
  {
    assert names[i..][0] == names[i] && names[i..][1..] == names[i + 1..];
    var child, path := d.children[names[i]], Below(relative, names[i]);
    var entry, rest := NameClosure(env, names[i], child, path), ClosureNames(env, d, names[i + 1..], relative);
    PlusLaws(Sum(env, w, weight), entry, rest);
    WorseWithMore(Sum(env, w, weight).Plus(entry), rest, maxEntries, maxBytes);
    VisitAddsEntry(env, names[i], child, path, maxEntries, maxBytes, w, weight);
  }

  /** Visiting the names of one directory in order. */
  method VisitNames(env: Env, d: Node, names: seq<Bytes>, relative: Bytes, maxFiles: nat, maxBytes: nat, w: State,
                    ghost weight: nat) returns (ok: bool, next: State)
    requires d.Dir? && (forall name | name in names :: name in d.children) && Within(w, maxFiles, maxBytes)
    ensures ok ==> Within(next, maxFiles, maxBytes)
                   && Sum(env, next, weight) == Sum(env, w, weight).Plus(ClosureNames(env, d, names, relative))
    ensures !ok ==> !Acceptable(Sum(env, w, weight).Plus(ClosureNames(env, d, names, relative)), maxFiles, maxBytes)
  {
    next := w;
    ghost var total := Sum(env, w, weight).Plus(ClosureNames(env, d, names, relative));
    assert names[0..] == names;
    for i := 0 to |names|
      invariant Within(next, maxFiles, maxBytes)
      invariant Sum(env, next, weight).Plus(ClosureNames(env, d, names[i..], relative)) == total
    {
      var child, path := d.children[names[i]], Below(relative, names[i]);
      OneName(env, d, names, i, relative, next, weight, maxFiles, maxBytes);
      var visited := VisitName(env, names[i], child, path, maxFiles, maxBytes, next);
      if visited.None? {
        return false, next;
      }
      next := visited.value;
    }
    ok := true;
    PlusLaws(Sum(env, next, weight), NOTHING, NOTHING);
  }

  /** Take one directory off the stack, list it, and visit its names. */
  method VisitTop(env: Env, maxFiles: nat, maxBytes: nat, w: State, ghost weight: nat) returns (ok: bool, next: State)
    requires Within(w, maxFiles, maxBytes) && w.stack != []
    ensures ok ==> Within(next, maxFiles, maxBytes) && Sum(env, next, weight + 1) == Sum(env, w, weight)
    ensures !ok ==> !Acceptable(Sum(env, w, weight), maxFiles, maxBytes)
    ensures weight < Sum(env, w, weight).weight
  {
    var top := w.stack[|w.stack| - 1];
    Pop(env, w, weight);
    next := w.(stack := w.stack[..|w.stack| - 1], lines := w.lines + [Directory(top.relative, top.mode)]);
    if !env.safe(top.mode) {
      return false, next;
    }
    ok, next := VisitNames(env, top.Node(), SortedNames(top.children.Keys), top.relative, maxFiles, maxBytes, next, weight + 1);
  }

  lemma {:induction false} Pop(env: Env, w: State, weight: nat)
    requires w.stack != []
    ensures var top := w.stack[|w.stack| - 1];
      var next := w.(stack := w.stack[..|w.stack| - 1], lines := w.lines + [Directory(top.relative, top.mode)]);
      && weight < Sum(env, w, weight).weight && (!env.safe(top.mode) ==> !Sum(env, w, weight).safe)
      && (env.safe(top.mode) ==>
            Sum(env, w, weight)
            == Sum(env, next, weight + 1).Plus(ClosureNames(env, top.Node(), SortedNames(top.children.Keys), top.relative)))
  {
    var top := w.stack[|w.stack| - 1];
    var done, pending := Done(w.lines, w.entries, w.bytes, weight), PendingClosure(env, w.stack[..|w.stack| - 1]);
    Shift(done, pending, OwnLine(env, top.Node(), top.relative),
          ClosureNames(env, top.Node(), SortedNames(top.children.Keys), top.relative));
  }

  lemma Shift(a: Summary, p: Summary, x: Summary, n: Summary)
    ensures a.Plus(p.Plus(x.Plus(n))) == a.Plus(x).Plus(p).Plus(n)
  {
  }

  /** The walk itself, until the stack is empty or an entry is refused. */
  method Walk(env: Env, root: Open, maxFiles: nat, maxBytes: nat) returns (ok: bool, w: State, ghost weight: nat)
    requires root.relative == []
    ensures ok <==> Acceptable(Closure(env, root.Node(), []), maxFiles, maxBytes)
    ensures ok ==> Done(w.lines, w.entries, w.bytes, weight) == Closure(env, root.Node(), [])
  {
    ghost var total := Closure(env, root.Node(), []);
    weight := 0;
    w := State([root], [], 0, 0);
    StartsWhole(env, root);
    while w.stack != []
      invariant Within(w, maxFiles, maxBytes) && weight <= total.weight && Sum(env, w, weight) == total
      decreases total.weight - weight
    {
      ok, w := VisitTop(env, maxFiles, maxBytes, w, weight);
      if !ok {
        return;
      }
      weight := weight + 1;
    }
    ok := true;
    EmptyStack(env, w, weight, maxFiles, maxBytes);
  }

  lemma EmptyStack(env: Env, w: State, weight: nat, maxFiles: nat, maxBytes: nat)
    requires w.stack == [] && Within(w, maxFiles, maxBytes)
    ensures Sum(env, w, weight) == Done(w.lines, w.entries, w.bytes, weight)
    ensures Acceptable(Sum(env, w, weight), maxFiles, maxBytes)
  {
    PlusLaws(Done(w.lines, w.entries, w.bytes, weight), NOTHING, NOTHING);
  }

  /** `_closure_sha256_fd` over a directory: the lines it hashes, and what it counted. */
  method WalkDirectory(env: Env, root: Node, maxFiles: nat, maxBytes: nat)
    returns (ok: bool, lines: seq<Line>, entries: nat, bytes: nat)
    requires root.Dir?
    ensures ok <==> Acceptable(Closure(env, root, []), maxFiles, maxBytes)
                    && (env.pythonSourcesOnly ==> HasSource(Closure(env, root, []).lines))
    ensures ok ==> var s := Closure(env, root, []);
              multiset(lines) == s.lines && entries == s.entries && bytes == s.bytes
  {
    var w: State;
    ghost var weight: nat;
    ok, w, weight := Walk(env, Open([], root.mode, root.children), maxFiles, maxBytes);
    lines, entries, bytes := w.lines, w.entries, w.bytes;
    if ok {
      ghost var s := Closure(env, root, []);
      assert multiset(lines) == s.lines;
      assert HasSource(s.lines) <==> exists line :: line in lines && line.Content?;
      if env.pythonSourcesOnly && forall line | line in lines :: !line.Content? {
        ok := false;
      }
    }
  }

  /** The closure of any root: a regular file is one line, under the name it was reviewed by. */
  function RootClosure(env: Env, root: Node, rootName: Bytes): Summary {
    if root.Dir? then Closure(env, root, []) else Single(env, root, rootName)
  }

  /** A file root is not counted against `maxFiles`, and never holds Python sources. */
  ghost predicate AcceptableRoot(env: Env, root: Node, rootName: Bytes, maxFiles: nat, maxBytes: nat) {
    var s := RootClosure(env, root, rootName);
    if root.Dir? then Acceptable(s, maxFiles, maxBytes) && (env.pythonSourcesOnly ==> HasSource(s.lines))
    else root.File? && !env.pythonSourcesOnly && env.safe(root.mode) && |root.payload| <= maxBytes
  }

  /** `_closure_sha256_fd`. */
  method WalkClosure(env: Env, root: Node, rootName: Bytes, maxFiles: nat, maxBytes: nat)
    returns (ok: bool, lines: seq<Line>, entries: nat, bytes: nat)
    ensures ok <==> AcceptableRoot(env, root, rootName, maxFiles, maxBytes)
    ensures ok ==> var s := RootClosure(env, root, rootName);
              multiset(lines) == s.lines && entries == s.entries && bytes == s.bytes
  {
    if root.Dir? {
      ok, lines, entries, bytes := WalkDirectory(env, root, maxFiles, maxBytes);
      return;
    }
    if !root.File? || env.pythonSourcesOnly || !env.safe(root.mode) || |root.payload| > maxBytes {
      return false, [], 0, 0;
    }
    return true, [Content(rootName, root.mode, |root.payload|, env.sha(root.payload))], 1, |root.payload|;
  }

  /** A closure of Python sources must hold at least one file. */
  ghost predicate HasSource(lines: multiset<Line>) {
    exists line :: line in lines && line.Content?
  }

  lemma StartsWhole(env: Env, root: Open)
    requires root.relative == []
    ensures Sum(env, State([root], [], 0, 0), 0) == Closure(env, root.Node(), [])
  {
    var none: seq<Open> := [];
    PendingPush(env, none, root);
    assert none + [root] == [root];
    PlusLaws(NOTHING, Closure(env, root.Node(), []), NOTHING);
    PlusLaws(Closure(env, root.Node(), []), NOTHING, NOTHING);
  }
}
