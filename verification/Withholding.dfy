/**
 The retained tree behind the withholding latch, and its recursive erase.

 A durable marker and the tree are written under one lock that many handles share.  A call is its
 log of durable writes; a process that dies has made a prefix of it.
 */
module Withholding {
  import opened Basics
  import opened Sorting
  import opened Trees
  import opened Materialise

  /** The latch file: missing, the empty private file, or something that must not be trusted. */
  datatype Marker = Absent | Latched | Unsafe

  datatype Retained = Retained(marker: Marker, tree: Node)

  datatype Event =
    | PutMarker
    | Remove(at: Components)
    | PutFile(at: Components, data: Bytes)
    | PutDirectory(at: Components)

  /** Delete one entry; its parent keeps its other children. */
  function Without(n: Node, at: Components): Node
    decreases at
  {
    if at == [] || !n.Dir? || at[0] !in n.children then n
    else if |at| == 1 then n.(children := n.children - {at[0]})
    else n.(children := n.children[at[0] := Without(n.children[at[0]], at[1..])])
  }

  function Apply(s: Retained, e: Event): Retained {
    match e
    case PutMarker => s.(marker := Latched)
    case Remove(at) => s.(tree := Without(s.tree, at))
    case PutFile(at, data) => s.(tree := Put(s.tree, at, File(PRIVATE_FILE_MODE, data)))
    case PutDirectory(at) => s.(tree := MakeDirs(s.tree, at))
  }

  function Replay(s: Retained, log: seq<Event>): Retained
    decreases |log|
  {
    if log == [] then s else Replay(Apply(s, log[0]), log[1..])
  }

  lemma {:induction false} ReplayConcat(s: Retained, a: seq<Event>, b: seq<Event>)
    ensures Replay(s, a + b) == Replay(Replay(s, a), b)
    decreases |a|
  {
    if a == [] {
      assert a + b == b;
    } else {
      assert (a + b)[1..] == a[1..] + b;
      ReplayConcat(Apply(s, a[0]), a[1..], b);
    }
  }

  // ---- Erasing ----

  /** Depth first, a directory after its own entries. */
  function EraseLog(n: Node, at: Components): seq<Event>
    decreases n, 1, 0
  {
    if n.Dir? then EraseNames(n, SortedNames(n.children.Keys), at) else []
  }

  function EraseNames(d: Node, names: seq<Bytes>, at: Components): seq<Event>
    requires d.Dir? && forall name | name in names :: name in d.children
    decreases d, 0, |names|
  {
    if names == [] then []
    else
      EraseLog(d.children[names[0]], at + [names[0]]) + [Remove(at + [names[0]])] + EraseNames(d, names[1..], at)
  }

  predicate Exists(n: Node, at: Components) {
    Lookup(n, at).Some?
  }

  lemma {:induction false} WithoutLookup(n: Node, at: Components, c: Components)
    requires at != []
    ensures Exists(Without(n, at), c) <==> Exists(n, c) && !(at <= c)
    decreases at
  {
    if n.Dir? && at[0] in n.children && c != [] && c[0] == at[0] {
      if |at| > 1 {
        WithoutLookup(n.children[at[0]], at[1..], c[1..]);
        assert at <= c <==> at[1..] <= c[1..];
      } else {
        assert at <= c;
      }
    } else if at <= c {
      assert c[0] == at[0];
    }
  }

  /** An entry can be removed when it is there and has nothing below it. */
  ghost predicate Removable(tree: Node, at: Components) {
    at != [] && Exists(tree, at) && forall c | at < c :: !Exists(tree, c)
  }

  /** Every step of the log finds an entry that `unlink` or `rmdir` accepts. */
  ghost predicate Feasible(tree: Node, log: seq<Event>)
    decreases |log|
  {
    log == [] || (log[0].Remove? && Removable(tree, log[0].at) && Feasible(Without(tree, log[0].at), log[1..]))
  }

  function AfterErase(tree: Node, log: seq<Event>): Node {
    Replay(Retained(Absent, tree), log).tree
  }

  lemma {:induction false} FeasibleConcat(tree: Node, a: seq<Event>, b: seq<Event>)
    requires Feasible(tree, a)
    ensures Feasible(tree, a + b) <==> Feasible(AfterErase(tree, a), b)
    ensures AfterErase(tree, a + b) == AfterErase(AfterErase(tree, a), b)
    decreases |a|
  {
    if a == [] {
      assert a + b == b;
    } else {
      assert (a + b)[1..] == a[1..] + b;
      FeasibleConcat(Without(tree, a[0].at), a[1..], b);
    }
  }

  /** `tree` holds at `at` what `n` holds at its root. */
  ghost predicate Mirrors(tree: Node, at: Components, n: Node) {
    forall c :: Exists(tree, at + c) <==> Exists(n, c)
  }

  /** `after` is `tree` without what was below `at`. */
  ghost predicate ClearedBelow(tree: Node, at: Components, after: Node) {
    forall c :: Exists(after, c) <==> Exists(tree, c) && !(at < c)
  }

  /** `after` is `tree` without the named entries of the directory at `at` and what was below them. */
  ghost predicate ClearedNames(tree: Node, at: Components, names: seq<Bytes>, after: Node) {
    forall c :: Exists(after, c) <==> Exists(tree, c) && !(at < c && c[|at|] in names)
  }

  /** Each named child is found in the tree under its name. */
  ghost predicate ChildrenMirror(tree: Node, at: Components, d: Node, names: seq<Bytes>)
    requires d.Dir? && forall name | name in names :: name in d.children
  {
    forall name | name in names :: Mirrors(tree, at + [name], d.children[name])
  }

  lemma MirrorsDown(tree: Node, at: Components, d: Node, name: Bytes)
    requires Mirrors(tree, at, d) && d.Dir? && name in d.children
    ensures Mirrors(tree, at + [name], d.children[name])
  {
    forall c ensures Exists(tree, at + [name] + c) <==> Exists(d.children[name], c) {
      assert at + [name] + c == at + ([name] + c);
      assert ([name] + c)[1..] == c;
    }
  }

  lemma AllNamesAreAll(tree: Node, at: Components, d: Node, names: seq<Bytes>, after: Node)
    requires Mirrors(tree, at, d) && d.Dir? && (forall name :: name in names <==> name in d.children)
    requires ClearedNames(tree, at, names, after)
    ensures ClearedBelow(tree, at, after)
  {
    forall c | at < c && Exists(tree, c) ensures c[|at|] in names {
      assert c == at + c[|at|..];
      assert Exists(d, c[|at|..]);
    }
  }

  lemma NothingBelow(tree: Node, at: Components, n: Node)
    requires Mirrors(tree, at, n) && !n.Dir?
    ensures ClearedBelow(tree, at, tree)
  {
    forall c | at < c ensures !Exists(tree, c) {
      assert c == at + c[|at|..];
    }
  }

  /** Erasing below `at` is feasible step by step and leaves nothing below `at`, all else untouched. */
  lemma {:induction false} EraseClears(tree: Node, n: Node, at: Components)
    requires Mirrors(tree, at, n)
    ensures Feasible(tree, EraseLog(n, at)) && ClearedBelow(tree, at, AfterErase(tree, EraseLog(n, at)))
    decreases n, 1, 0
  {
    if n.Dir? {
      var names := SortedNames(n.children.Keys);
      NamesRepeatNothing(n.children.Keys);
      forall name | name in names ensures Mirrors(tree, at + [name], n.children[name]) {
        MirrorsDown(tree, at, n, name);
      }
      EraseNamesClears(tree, n, names, at);
      AllNamesAreAll(tree, at, n, names, AfterErase(tree, EraseNames(n, names, at)));
    } else {
      NothingBelow(tree, at, n);
    }
  }

  lemma {:induction false} EraseNamesClears(tree: Node, d: Node, names: seq<Bytes>, at: Components)
    requires d.Dir? && NoRepeats(names) && forall name | name in names :: name in d.children
    requires ChildrenMirror(tree, at, d, names)
    ensures Feasible(tree, EraseNames(d, names, at))
    ensures ClearedNames(tree, at, names, AfterErase(tree, EraseNames(d, names, at)))
    decreases d, 0, |names|
  {
    if names != [] {
      var name, rest := names[0], names[1..];
      var here := at + [name];
      var log := EraseLog(d.children[name], here);
      EraseClears(tree, d.children[name], here);
      RemoveLast(AfterErase(tree, log), here, tree, d.children[name]);
      FeasibleConcat(tree, log, [Remove(here)]);
      var removed := AfterErase(tree, log + [Remove(here)]);
      forall other | other in rest ensures Mirrors(removed, at + [other], d.children[other]) {
        OthersStay(tree, removed, at, name, other, d.children[other]);
      }
      EraseNamesClears(removed, d, rest, at);
      FeasibleConcat(tree, log + [Remove(here)], EraseNames(d, rest, at));
      OneNameAndRest(tree, at, names, removed, AfterErase(removed, EraseNames(d, rest, at)));
    }
  }

  lemma OneNameAndRest(tree: Node, at: Components, names: seq<Bytes>, removed: Node, after: Node)
    requires names != [] && ClearedNames(removed, at, names[1..], after)
    requires forall c :: Exists(removed, c) <==> Exists(tree, c) && !(at + [names[0]] <= c)
    ensures ClearedNames(tree, at, names, after)
  {
    var name := names[0];
    var here := at + [name];
    forall c ensures here <= c <==> at < c && c[|at|] == name {
      if at < c && c[|at|] == name { assert c[..|at| + 1] == here; }
    }
    assert names == [name] + names[1..];
  }

  lemma OthersStay(tree: Node, removed: Node, at: Components, name: Bytes, other: Bytes, child: Node)
    requires name != other && Mirrors(tree, at + [other], child)
    requires forall c :: Exists(removed, c) <==> Exists(tree, c) && !(at + [name] <= c)
    ensures Mirrors(removed, at + [other], child)
  {
    forall c ensures Exists(removed, at + [other] + c) <==> Exists(child, c) {
      var there := at + [other] + c;
      assert there[|at|] == other && (at + [name])[|at|] == name;
    }
  }

  lemma RemoveLast(cleared: Node, here: Components, tree: Node, child: Node)
    requires here != [] && Mirrors(tree, here, child) && ClearedBelow(tree, here, cleared)
    ensures Feasible(cleared, [Remove(here)])
    ensures forall c :: Exists(AfterErase(cleared, [Remove(here)]), c) <==> Exists(tree, c) && !(here <= c)
  {
    assert here + [] == here && Exists(tree, here + []);
    var s := Retained(Absent, cleared);
    assert [Remove(here)][1..] == [];
    assert Replay(s, [Remove(here)]) == Apply(s, Remove(here));
    forall c ensures Exists(Without(cleared, here), c) <==> Exists(tree, c) && !(here <= c) {
      WithoutLookup(cleared, here, c);
    }
  }

  /** Erasing the whole tree ends with an empty directory. */
  lemma EraseEmpties(tree: Node)
    requires tree.Dir?
    ensures Feasible(tree, EraseLog(tree, []))
    ensures AfterErase(tree, EraseLog(tree, [])) == tree.(children := map[])
  {
    forall c: Components ensures [] + c == c {
    }
    EraseClears(tree, tree, []);
    var after := AfterErase(tree, EraseLog(tree, []));
    ErasedIsDir(tree, EraseLog(tree, []));
    forall name | name in after.children ensures false {
      assert Exists(after, [name]) && [] < [name];
    }
    assert after.children == map[];
  }

  lemma {:induction false} ErasedIsDir(tree: Node, log: seq<Event>)
    requires tree.Dir? && Feasible(tree, log)
    ensures AfterErase(tree, log).Dir? && AfterErase(tree, log).mode == tree.mode
    decreases |log|
  {
    if log != [] {
      ErasedIsDir(Without(tree, log[0].at), log[1..]);
    }
  }
}
