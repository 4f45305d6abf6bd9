/** The two walks agree: a copy of a quiescent tree has the closure of the original. */
module ClosureLaws {
  import opened Basics
  import opened Paths
  import opened Sorting
  import opened Manifests
  import opened Trees
  import opened Scanning
  import opened ClosureWalk
  import opened ClosureStream
  import opened ClosureCopy

  // ---- Counting alike ----

  /** Equal but for what was said about modes. */
  predicate Same(a: Summary, b: Summary) {
    a.lines == b.lines && a.entries == b.entries && a.bytes == b.bytes && a.plain == b.plain && b.safe
  }

  lemma SamePlus(a: Summary, b: Summary, c: Summary, d: Summary)
    requires Same(a, b) && Same(c, d)
    ensures Same(a.Plus(c), b.Plus(d))
  {
  }

  /** The copying walk, which checks no modes, counts and lists what the hashing walk does. */
  lemma {:induction false} SameWithoutChecks(env: Env, n: Node, relative: Bytes)
    requires n.Dir?
    ensures Same(Closure(env, n, relative), Closure(Unchecked(env), n, relative))
    decreases n, 1, 0
  {
    var names := SortedNames(n.children.Keys);
    SameNamesWithoutChecks(env, n, names, relative);
    SamePlus(OwnLine(env, n, relative), OwnLine(Unchecked(env), n, relative),
             ClosureNames(env, n, names, relative), ClosureNames(Unchecked(env), n, names, relative));
  }

  lemma {:induction false} SameEntryWithoutChecks(env: Env, name: Bytes, child: Node, path: Bytes)
    ensures Same(NameClosure(env, name, child, path), NameClosure(Unchecked(env), name, child, path))
    decreases child, 2, 0
  {
    if child.Dir? {
      SameWithoutChecks(env, child, path);
      SamePlus(COUNTED, COUNTED, Closure(env, child, path), Closure(Unchecked(env), child, path));
    }
  }

  lemma {:induction false} SameNamesWithoutChecks(env: Env, d: Node, names: seq<Bytes>, relative: Bytes)
    requires d.Dir? && forall name | name in names :: name in d.children
    ensures Same(ClosureNames(env, d, names, relative), ClosureNames(Unchecked(env), d, names, relative))
    decreases d, 0, |names|
  {
    if names != [] {
      var name, child, path := names[0], d.children[names[0]], Below(relative, names[0]);
      SameEntryWithoutChecks(env, name, child, path);
      SameNamesWithoutChecks(env, d, names[1..], relative);
      SamePlus(NameClosure(env, name, child, path), NameClosure(Unchecked(env), name, child, path),
               ClosureNames(env, d, names[1..], relative), ClosureNames(Unchecked(env), d, names[1..], relative));
    }
  }

  /** A closure that was hashed can be copied within the same bounds, with the same counts. */
  lemma HashedCanBeCopied(env: Env, root: Node, rootName: Bytes, maxFiles: nat, maxBytes: nat)
    requires AcceptableRoot(env, root, rootName, maxFiles, maxBytes)
    ensures CopyableRoot(Unchecked(env), root, maxFiles, maxBytes)
    ensures RootClosure(Unchecked(env), root, rootName).entries == RootClosure(env, root, rootName).entries
    ensures RootClosure(Unchecked(env), root, rootName).bytes == RootClosure(env, root, rootName).bytes
  {
    if root.Dir? {
      SameWithoutChecks(env, root, []);
    }
  }

  // ---- The visible tree ----

  /** The tree without its cache directories. */
  function Kept(env: Env, n: Node): Node {
    if n.Dir? then
      Dir(n.mode, map name | name in n.children && !Skipped(env, name, n.children[name]) :: Kept(env, n.children[name]))
    else n
  }

  lemma {:induction false} KeptLookup(env: Env, n: Node, c: Components)
    ensures Lookup(Kept(env, n), c).Some? <==> Visible(env, n, c).Some?
    ensures Visible(env, n, c).Some? ==> Lookup(Kept(env, n), c) == Some(Kept(env, Visible(env, n, c).value))
    decreases c
  {
    if c != [] && n.Dir? && c[0] in n.children {
      KeptLookup(env, n.children[c[0]], c[1..]);
    }
  }

  /** A tree stands for a destination when both hold the same entries. */
  ghost predicate Represents(space: Space, tree: Node) {
    && (forall c :: c in space <==> Lookup(tree, c).Some?)
    && forall c | c in space :: Copyable(Lookup(tree, c).value) && FlatOf(Lookup(tree, c).value) == space[c]
  }

  ghost predicate Alike(a: Node, b: Node) {
    && (forall c :: Lookup(a, c).Some? <==> Lookup(b, c).Some?)
    && forall c | Lookup(a, c).Some? ::
         var x, y := Lookup(a, c).value, Lookup(b, c).value;
         Copyable(x) && Copyable(y) && FlatOf(x) == FlatOf(y)
  }

  lemma {:induction false} AlikeIsEqual(a: Node, b: Node)
    requires Alike(a, b)
    ensures a == b
    decreases a
  {
    assert Lookup(a, []) == Some(a) && Lookup(b, []) == Some(b);
    assert Copyable(a) && Copyable(b) && FlatOf(a) == FlatOf(b);
    if a.Dir? {
      forall name ensures name in a.children <==> name in b.children {
        assert Lookup(a, [name]).Some? <==> name in a.children;
        assert Lookup(b, [name]).Some? <==> name in b.children;
      }
      forall name | name in a.children ensures a.children[name] == b.children[name] {
        AlikeBelow(a, b, name);
        AlikeIsEqual(a.children[name], b.children[name]);
      }
      assert a.children == b.children;
    }
  }

  lemma AlikeBelow(a: Node, b: Node, name: Bytes)
    requires Alike(a, b) && a.Dir? && b.Dir? && name in a.children && name in b.children
    ensures Alike(a.children[name], b.children[name])
  {
    var x, y := a.children[name], b.children[name];
    forall c ensures Lookup(x, c) == Lookup(a, [name] + c) && Lookup(y, c) == Lookup(b, [name] + c) {
      assert ([name] + c)[1..] == c;
    }
  }

  /** What was copied is the visible tree. */
  lemma CopyIsKept(env: Env, root: Node, space: Space, copy: Node)
    requires IsCopy(env, root, space) && Represents(space, copy)
    ensures copy == Kept(env, root)
  {
    forall c ensures Lookup(copy, c).Some? <==> Lookup(Kept(env, root), c).Some? {
      KeptLookup(env, root, c);
      assert c in space <==> Visible(env, root, c).Some?;
    }
    forall c | Lookup(copy, c).Some?
      ensures var x, y := Lookup(copy, c).value, Lookup(Kept(env, root), c).value;
        Copyable(x) && Copyable(y) && FlatOf(x) == FlatOf(y)
    {
      KeptLookup(env, root, c);
      assert c in space;
    }
    AlikeIsEqual(copy, Kept(env, root));
  }

  // ---- The closure sees only the visible tree ----

  function IsKept(env: Env, d: Node): Bytes -> bool
    requires d.Dir?
  {
    name => name in d.children && !Skipped(env, name, d.children[name])
  }

  lemma {:induction false} KeptNames(env: Env, d: Node)
    requires d.Dir?
    ensures SortedNames(Kept(env, d).children.Keys) == Select(SortedNames(d.children.Keys), IsKept(env, d))
  {
    var all, kept := SortedNames(d.children.Keys), SortedNames(Kept(env, d).children.Keys);
    var selected := Select(all, IsKept(env, d));
    NamesRise(d.children.Keys);
    NamesRise(Kept(env, d).children.Keys);
    SelectRises(all, IsKept(env, d));
    forall x, y | x in kept && y in kept ensures !(Before(x, y) && Before(y, x)) {
      Trichotomy(x, y);
    }
    RisingIsUnique(Before, kept, selected);
  }

  lemma {:induction false} SelectRises(names: seq<Bytes>, keep: Bytes -> bool)
    requires Rising(Before, names)
    ensures Rising(Before, Select(names, keep))
  {
    if names != [] {
      var init := names[..|names| - 1];
      SelectRises(init, keep);
      forall x | x in Select(init, keep) ensures Before(x, Last(names)) {
        var i :| 0 <= i < |init| && init[i] == x;
        assert names[i] == x;
      }
    }
  }

  lemma {:induction false} SelectFirst(names: seq<Bytes>, keep: Bytes -> bool)
    requires names != []
    ensures Select(names, keep) == (if keep(names[0]) then [names[0]] else []) + Select(names[1..], keep)
    decreases |names|
  {
    if |names| > 1 {
      var init := names[..|names| - 1];
      SelectFirst(init, keep);
      assert init[1..] == names[1..][..|names[1..]| - 1];
      assert Last(names[1..]) == Last(names);
    }
  }

  /** Leaving the cache directories out of the tree leaves its closure as it is. */
  lemma {:induction false} ClosureOfKept(env: Env, n: Node, relative: Bytes)
    requires n.Dir?
    ensures Closure(env, Kept(env, n), relative) == Closure(env, n, relative)
    decreases n, 1, 0
  {
    KeptNames(env, n);
    NamesOfKept(env, n, SortedNames(n.children.Keys), relative);
  }

  lemma EntryOfKept(env: Env, name: Bytes, child: Node, path: Bytes)
    requires !Skipped(env, name, child)
    ensures NameClosure(env, name, Kept(env, child), path) == NameClosure(env, name, child, path)
    decreases child, 2, 0
  {
    if child.Dir? {
      ClosureOfKept(env, child, path);
    }
  }

  lemma {:induction false} NamesOfKept(env: Env, d: Node, names: seq<Bytes>, relative: Bytes)
    requires d.Dir? && forall name | name in names :: name in d.children
    ensures forall name | name in Select(names, IsKept(env, d)) :: name in Kept(env, d).children
    ensures ClosureNames(env, Kept(env, d), Select(names, IsKept(env, d)), relative) == ClosureNames(env, d, names, relative)
    decreases d, 0, |names|
  {
    if names != [] {
      var name, child, path := names[0], d.children[names[0]], Below(relative, names[0]);
      var rest := Select(names[1..], IsKept(env, d));
      SelectFirst(names, IsKept(env, d));
      NamesOfKept(env, d, names[1..], relative);
      if IsKept(env, d)(name) {
        assert ([name] + rest)[0] == name && ([name] + rest)[1..] == rest;
        EntryOfKept(env, name, child, path);
      } else {
        assert [] + rest == rest;
        PlusLaws(ClosureNames(env, d, names[1..], relative), NOTHING, NOTHING);
      }
    }
  }

  /** A copy has the lines, and so the digest, of the tree it was copied from. */
  lemma CopyHasSameClosure(env: Env, root: Node, rootName: Bytes, space: Space, copy: Node)
    requires IsCopy(Unchecked(env), root, space) && Represents(space, copy)
    ensures copy.Dir? <==> root.Dir?
    ensures RootClosure(env, copy, rootName).lines == RootClosure(env, root, rootName).lines
    ensures RootClosure(env, copy, rootName).entries == RootClosure(env, root, rootName).entries
    ensures RootClosure(env, copy, rootName).bytes == RootClosure(env, root, rootName).bytes
  {
    CopyIsKept(Unchecked(env), root, space, copy);
    KeptIgnoresChecks(env, root);
    if root.Dir? {
      ClosureOfKept(env, root, []);
    }
  }

  lemma {:induction false} KeptIgnoresChecks(env: Env, n: Node)
    ensures Kept(Unchecked(env), n) == Kept(env, n)
    decreases n
  {
    if n.Dir? {
      forall name | name in n.children ensures Kept(Unchecked(env), n.children[name]) == Kept(env, n.children[name]) {
        KeptIgnoresChecks(env, n.children[name]);
      }
      assert Kept(Unchecked(env), n).children == Kept(env, n).children;
    }
  }

  /** ... so whatever list of lines each walk produced, both are hashed to the same digest. */
  lemma {:induction false} CopyHasSamePreimage(env: Env, root: Node, rootName: Bytes, space: Space, copy: Node, d: Domain,
                                               hashed: seq<Line>, copied: seq<Line>)
    requires IsCopy(Unchecked(env), root, space) && Represents(space, copy)
    requires multiset(hashed) == RootClosure(env, root, rootName).lines
    requires multiset(copied) == RootClosure(env, copy, rootName).lines
    ensures Preimage(d, copied) == Preimage(d, hashed)
  {
    CopyHasSameClosure(env, root, rootName, space, copy);
    LineOrderIsTotal();
    SortIsCanonical(LineBefore, copied, hashed);
  }

  // ---- Read-only modes ----

  const READ_ONLY: nat := 292
  const READ_EXECUTE: nat := 365

  /** `_normalize_snapshot_modes`: files keep only whether they can be executed. */
  function Normalised(n: Node): Node {
    match n
    case File(mode, payload) => File(if HasExecuteBit(mode) then READ_EXECUTE else READ_ONLY, payload)
    case Dir(mode, children) => Dir(READ_EXECUTE, map name | name in children :: Normalised(children[name]))
    case _ => n
  }

  /** Normalising again changes nothing. */
  lemma {:induction false} NormalisingIsIdempotent(n: Node)
    ensures Normalised(Normalised(n)) == Normalised(n)
    decreases n
  {
    if n.Dir? {
      forall name | name in n.children ensures Normalised(Normalised(n.children[name])) == Normalised(n.children[name]) {
        NormalisingIsIdempotent(n.children[name]);
      }
      assert Normalised(Normalised(n)).children == Normalised(n).children;
    }
  }

  /** Names, contents and the executable distinction are all that remains, and they do remain. */
  lemma {:induction false} NormalisedKeeps(n: Node, c: Components)
    ensures Lookup(Normalised(n), c).Some? <==> Lookup(n, c).Some?
    ensures Lookup(n, c).Some? ==> Lookup(Normalised(n), c) == Some(Normalised(Lookup(n, c).value))
    ensures Lookup(n, c).Some? && Lookup(n, c).value.File? ==>
              var was, now := Lookup(n, c).value, Lookup(Normalised(n), c).value;
              now.File? && now.payload == was.payload && (HasExecuteBit(now.mode) <==> HasExecuteBit(was.mode))
    decreases c
  {
    if c != [] && n.Dir? && c[0] in n.children {
      NormalisedKeeps(n.children[c[0]], c[1..]);
    }
  }
}
