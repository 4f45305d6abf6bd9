/**
 The copying walk: the same stack, writing a destination in place.

 A directory stays private until everything in it has been copied.
 */
module ClosureCopy {
  import opened Basics
  import opened Splitting
  import opened Paths
  import opened Sorting
  import opened Trees
  import opened Materialise
  import opened ClosureWalk

  /** One destination entry; a directory is private until everything in it has been copied. */
  datatype Flat = Folder(mode: nat) | Plain(mode: nat, payload: Bytes)

  type Space = map<Components, Flat>

  /** What the closure includes at `c`: cache directories and all below them are not seen. */
  function Visible(env: Env, n: Node, c: Components): Option<Node>
    decreases c
  {
    if c == [] then Some(n)
    else if n.Dir? && c[0] in n.children && !Skipped(env, c[0], n.children[c[0]]) then
      Visible(env, n.children[c[0]], c[1..])
    else None
  }

  lemma {:induction false} VisibleConcat(env: Env, n: Node, a: Components, b: Components)
    ensures Visible(env, n, a + b) ==
            if Visible(env, n, a).None? then None else Visible(env, Visible(env, n, a).value, b)
    decreases a
  {
    if a == [] {
      assert a + b == b;
    } else {
      assert (a + b)[1..] == a[1..] + b;
      if n.Dir? && a[0] in n.children && !Skipped(env, a[0], n.children[a[0]]) {
        VisibleConcat(env, n.children[a[0]], a[1..], b);
      }
    }
  }

  predicate Copyable(n: Node) { n.File? || n.Dir? }

  function FlatOf(n: Node): Flat
    requires Copyable(n)
  {
    if n.File? then Plain(n.mode, n.payload) else Folder(n.mode)
  }

  function At(relative: Bytes): Components {
    if relative == [] then [] else Split(relative)
  }

  // ---- What the destination holds while directories are still open ----

  /** The directory being listed, and the names not yet visited; none between directories. */
  datatype Listing = Idle | Listing(at: Components, todo: seq<Bytes>)

  /** Not yet written: below a waiting directory, or under a name still to be visited. */
  ghost predicate Owed(stack: seq<Open>, l: Listing, c: Components) {
    || (exists top :: top in stack && At(top.relative) < c)
    || (l.Listing? && l.at < c && c[|l.at|] in l.todo)
  }

  /** Created, but still with its private mode. */
  ghost predicate Provisional(stack: seq<Open>, l: Listing, c: Components) {
    (exists top :: top in stack && At(top.relative) == c) || (l.Listing? && l.at == c)
  }

  ghost predicate Right(env: Env, root: Node, stack: seq<Open>, l: Listing, space: Space, c: Components) {
    && (c in space <==> Visible(env, root, c).Some? && !Owed(stack, l, c))
    && (c in space ==>
          && Copyable(Visible(env, root, c).value)
          && space[c] == if Provisional(stack, l, c) then Folder(PRIVATE_DIR_MODE) else FlatOf(Visible(env, root, c).value))
  }

  predicate Places(stack: seq<Open>) {
    forall i, j | 0 <= i < j < |stack| :: At(stack[i].relative) != At(stack[j].relative)
  }

  /** The invariant of the copying walk. */
  ghost predicate Faithful(env: Env, root: Node, stack: seq<Open>, l: Listing, space: Space) {
    && (forall top | top in stack ::
          Visible(env, root, At(top.relative)) == Some(top.Node()) && At(top.relative) in space)
    && Places(stack)
    && (l.Listing? ==> l.at in space && forall top | top in stack :: At(top.relative) != l.at)
    && forall c :: Right(env, root, stack, l, space, c)
  }

  // ---- The steps keep the invariant ----

  lemma StartFaithful(env: Env, root: Open)
    requires root.relative == []
    ensures Faithful(env, root.Node(), [root], Idle, map[[] := Folder(PRIVATE_DIR_MODE)])
  {
    var space: Space := map[[] := Folder(PRIVATE_DIR_MODE)];
    assert At(root.relative) == [];
    forall c ensures Right(env, root.Node(), [root], Idle, space, c) {
      assert root in [root];
      assert [] < c <==> c != [];
    }
  }

  /** The last directory waiting is one of those waiting; the others come before it. */
  lemma LastOrEarlier(stack: seq<Open>, top: Open)
    requires stack != []
    ensures top in stack <==> top in stack[..|stack| - 1] || top == stack[|stack| - 1]
  {
    assert stack == stack[..|stack| - 1] + [stack[|stack| - 1]];
  }

  /** What is visible below an open directory begins with one of its names. */
  lemma {:induction false} VisibleBegins(env: Env, root: Node, d: Node, at: Components, c: Components)
    requires Visible(env, root, at) == Some(d) && at < c && Visible(env, root, c).Some?
    ensures d.Dir? && c[|at|] in d.children
  {
    assert c == at + c[|at|..];
    VisibleConcat(env, root, at, c[|at|..]);
  }

  lemma {:induction false} ProvisionalAfterPop(stack: seq<Open>, names: seq<Bytes>, c: Components)
    requires stack != []
    ensures var n := |stack| - 1;
      Provisional(stack, Idle, c) <==> Provisional(stack[..n], Listing(At(stack[n].relative), names), c)
  {
    forall top ensures top in stack <==> top in stack[..|stack| - 1] || top == stack[|stack| - 1] {
      LastOrEarlier(stack, top);
    }
  }

  lemma {:induction false} OwedAfterPop(stack: seq<Open>, names: seq<Bytes>, c: Components)
    requires stack != []
    requires var at := At(stack[|stack| - 1].relative); at < c ==> c[|at|] in names
    ensures var n := |stack| - 1;
      Owed(stack, Idle, c) <==> Owed(stack[..n], Listing(At(stack[n].relative), names), c)
  {
    forall top ensures top in stack <==> top in stack[..|stack| - 1] || top == stack[|stack| - 1] {
      LastOrEarlier(stack, top);
    }
  }

  /** The places of the others are not that of the last. */
  lemma {:induction false} PlacesAfterPop(stack: seq<Open>)
    requires stack != [] && Places(stack)
    ensures Places(stack[..|stack| - 1])
    ensures forall top | top in stack[..|stack| - 1] :: At(top.relative) != At(stack[|stack| - 1].relative)
  {
    forall top | top in stack[..|stack| - 1] ensures At(top.relative) != At(stack[|stack| - 1].relative) {
      var i :| 0 <= i < |stack| - 1 && stack[i] == top;
    }
  }

  /** Taking a directory off the stack turns what it owes into names to be visited. */
  lemma {:induction false} PopFaithful(env: Env, root: Node, stack: seq<Open>, space: Space, names: seq<Bytes>)
    requires stack != [] && Faithful(env, root, stack, Idle, space)
    requires forall name :: name in names <==> name in stack[|stack| - 1].children
    ensures var top := stack[|stack| - 1];
      Faithful(env, root, stack[..|stack| - 1], Listing(At(top.relative), names), space)
  {
    var n := |stack| - 1;
    var top, rest := stack[n], stack[..n];
    var at := At(top.relative);
    LastOrEarlier(stack, top);
    PlacesAfterPop(stack);
    forall c ensures Right(env, root, rest, Listing(at, names), space, c) {
      assert Right(env, root, stack, Idle, space, c);
      ProvisionalAfterPop(stack, names, c);
      if Visible(env, root, c).Some? {
        if at < c { VisibleBegins(env, root, top.Node(), at, c); }
        OwedAfterPop(stack, names, c);
      }
    }
  }

  lemma VisibleChild(env: Env, root: Node, d: Node, at: Components, name: Bytes)
    requires Visible(env, root, at) == Some(d) && d.Dir? && name in d.children
    ensures Visible(env, root, at + [name]) ==
            if Skipped(env, name, d.children[name]) then None else Some(d.children[name])
  {
    VisibleConcat(env, root, at, [name]);
    assert [name][1..] == [];
  }

  lemma VisibleBelow(env: Env, root: Node, here: Components, c: Components)
    requires here <= c
    ensures Visible(env, root, c) ==
            if Visible(env, root, here).None? then None else Visible(env, Visible(env, root, here).value, c[|here|..])
  {
    assert c == here + c[|here|..];
    VisibleConcat(env, root, here, c[|here|..]);
  }

  /** Where a name of the listed directory leads. */
  lemma {:induction false} UnderName(env: Env, root: Node, d: Node, at: Components, name: Bytes, c: Components)
    requires Visible(env, root, at) == Some(d) && d.Dir? && name in d.children && at + [name] <= c
    ensures Skipped(env, name, d.children[name]) ==> Visible(env, root, c).None?
    ensures !Skipped(env, name, d.children[name]) ==>
              Visible(env, root, c) == Visible(env, d.children[name], c[|at| + 1..])
  {
    VisibleChild(env, root, d, at, name);
    VisibleBelow(env, root, at + [name], c);
  }

  lemma FirstBelow(at: Components, name: Bytes, c: Components)
    ensures at + [name] <= c <==> at < c && c[|at|] == name
  {
    if at < c && c[|at|] == name {
      assert c[..|at| + 1] == at + [name];
    }
  }

  lemma ProperPrefix(x: Components, at: Components, name: Bytes)
    requires x < at + [name]
    ensures x <= at
  {
    assert x == (at + [name])[..|x|] == at[..|x|];
  }

  ghost predicate IsListing(env: Env, root: Node, l: Listing, d: Node) {
    && l.Listing? && l.todo != [] && NoRepeats(l.todo)
    && Visible(env, root, l.at) == Some(d) && d.Dir? && forall name | name in l.todo :: name in d.children
  }

  function NextName(l: Listing): Listing
    requires l.Listing? && l.todo != []
  {
    l.(todo := l.todo[1..])
  }

  lemma NotTwice(l: Listing)
    requires l.Listing? && l.todo != [] && NoRepeats(l.todo)
    ensures l.todo[0] !in l.todo[1..] && forall name :: name in l.todo <==> name == l.todo[0] || name in l.todo[1..]
  {
    assert l.todo == [l.todo[0]] + l.todo[1..];
  }

  lemma NoLonger(x: Components, at: Components)
    requires x <= at
    ensures x == at || x < at
  {
  }

  /** A name of the listed directory is not below any directory still waiting. */
  lemma NotBelowWaiting(env: Env, root: Node, stack: seq<Open>, l: Listing, space: Space, name: Bytes)
    requires Faithful(env, root, stack, l, space) && l.Listing?
    ensures forall top | top in stack :: !(At(top.relative) < l.at + [name])
  {
    assert Right(env, root, stack, l, space, l.at);
    forall top | top in stack ensures !(At(top.relative) < l.at + [name]) {
      if At(top.relative) < l.at + [name] {
        ProperPrefix(At(top.relative), l.at, name);
        NoLonger(At(top.relative), l.at);
      }
    }
  }

  lemma SkipFaithful(env: Env, root: Node, stack: seq<Open>, l: Listing, space: Space, d: Node)
    requires Faithful(env, root, stack, l, space) && IsListing(env, root, l, d)
    requires Skipped(env, l.todo[0], d.children[l.todo[0]])
    ensures Faithful(env, root, stack, NextName(l), space)
  {
    NotTwice(l);
    forall c ensures Right(env, root, stack, NextName(l), space, c) {
      assert Right(env, root, stack, l, space, c);
      FirstBelow(l.at, l.todo[0], c);
      if l.at + [l.todo[0]] <= c {
        UnderName(env, root, d, l.at, l.todo[0], c);
      }
    }
  }

  lemma FileFaithful(env: Env, root: Node, stack: seq<Open>, l: Listing, space: Space, d: Node)
    requires Faithful(env, root, stack, l, space) && IsListing(env, root, l, d)
    requires d.children[l.todo[0]].File?
    ensures var here := l.at + [l.todo[0]];
      Faithful(env, root, stack, NextName(l), space[here := FlatOf(d.children[l.todo[0]])])
  {
    NotTwice(l);
    var name := l.todo[0];
    var here, next := l.at + [name], NextName(l);
    var space' := space[here := FlatOf(d.children[name])];
    NotBelowWaiting(env, root, stack, l, space, name);
    assert Right(env, root, stack, l, space, here);
    forall c ensures Right(env, root, stack, next, space', c) {
      assert Right(env, root, stack, l, space, c);
      FirstBelow(l.at, name, c);
      if here <= c {
        UnderName(env, root, d, l.at, name, c);
        if c != here { assert c[|l.at| + 1..] != []; }
      }
    }
  }

  lemma DirectoryFaithful(env: Env, root: Node, stack: seq<Open>, l: Listing, space: Space, d: Node, child: Open)
    requires Faithful(env, root, stack, l, space) && IsListing(env, root, l, d)
    requires d.children[l.todo[0]] == child.Node() && !Skipped(env, l.todo[0], child.Node())
    requires At(child.relative) == l.at + [l.todo[0]]
    ensures Faithful(env, root, stack + [child], NextName(l), space[At(child.relative) := Folder(PRIVATE_DIR_MODE)])
  {
    NotTwice(l);
    var name := l.todo[0];
    var here, next, more := l.at + [name], NextName(l), stack + [child];
    var space' := space[here := Folder(PRIVATE_DIR_MODE)];
    NotBelowWaiting(env, root, stack, l, space, name);
    assert Right(env, root, stack, l, space, here);
    assert here !in space && l.at in space;
    UnderName(env, root, d, l.at, name, here);
    assert here[|l.at| + 1..] == [];
    forall i, j | 0 <= i < j < |more| ensures At(more[i].relative) != At(more[j].relative) {
      if j == |stack| { assert stack[i] in stack; }
    }
    forall c ensures Right(env, root, more, next, space', c) {
      assert Right(env, root, stack, l, space, c);
      OwedAfterPush(stack, l, child, name, c);
      ProvisionalAfterPush(stack, l, child, c);
    }
  }

  lemma OwedAfterPush(stack: seq<Open>, l: Listing, child: Open, name: Bytes, c: Components)
    requires l.Listing? && l.todo != [] && l.todo[0] == name && NoRepeats(l.todo)
    requires At(child.relative) == l.at + [name]
    ensures var here := l.at + [name];
      Owed(stack + [child], NextName(l), c) <==> (exists top :: top in stack && At(top.relative) < c)
                                                 || (l.at < c && c[|l.at|] in l.todo && c != here)
  {
    NotTwice(l);
    var here := l.at + [name];
    FirstBelow(l.at, name, c);
    assert child in stack + [child] && forall top | top in stack :: top in stack + [child];
  }

  lemma ProvisionalAfterPush(stack: seq<Open>, l: Listing, child: Open, c: Components)
    requires l.Listing? && l.todo != []
    ensures Provisional(stack + [child], NextName(l), c) <==> Provisional(stack, l, c) || c == At(child.relative)
  {
    assert child in stack + [child] && forall top | top in stack :: top in stack + [child];
  }

  /** When every name has been visited, the directory gets its own mode. */
  lemma CloseFaithful(env: Env, root: Node, stack: seq<Open>, at: Components, space: Space, d: Node)
    requires Faithful(env, root, stack, Listing(at, []), space) && Visible(env, root, at) == Some(d) && d.Dir?
    ensures Faithful(env, root, stack, Idle, space[at := Folder(d.mode)])
  {
    var closed := space[at := Folder(d.mode)];
    forall c ensures Right(env, root, stack, Idle, closed, c) {
      assert Right(env, root, stack, Listing(at, []), space, c);
    }
  }

  /** With nothing left to do, the destination is the visible tree. */
  lemma FinishedIsCopy(env: Env, root: Node, space: Space)
    requires Faithful(env, root, [], Idle, space)
    ensures IsCopy(env, root, space)
  {
    forall c ensures c in space <==> Visible(env, root, c).Some? {
      assert Right(env, root, [], Idle, space, c);
    }
    forall c | c in space ensures Copyable(Visible(env, root, c).value) && space[c] == FlatOf(Visible(env, root, c).value) {
      assert Right(env, root, [], Idle, space, c);
    }
  }

  /** The destination holds exactly what is visible, with the same modes and contents. */
  ghost predicate IsCopy(env: Env, root: Node, space: Space) {
    && (forall c :: c in space <==> Visible(env, root, c).Some?)
    && forall c | c in space :: Copyable(Visible(env, root, c).value) && space[c] == FlatOf(Visible(env, root, c).value)
  }

  // ---- The copying walk ----

  lemma BelowIsChild(relative: Bytes, name: Bytes)
    requires ValidName(name)
    ensures At(Below(relative, name)) == At(relative) + [name]
  {
    SplitJoin(SLASH, [name]);
    if relative != [] {
      SplitConcat(SLASH, relative, name);
    }
  }

  lemma {:induction false} VisibleIsFound(env: Env, n: Node, c: Components)
    requires Visible(env, n, c).Some?
    ensures Lookup(n, c) == Visible(env, n, c)
    decreases c
  {
    if c != [] {
      VisibleIsFound(env, n.children[c[0]], c[1..]);
    }
  }

  /** Copying does not look at ownership and modes; the hashing walk has done so. */
  function Unchecked(env: Env): Env {
    env.(safe := _ => true)
  }

  /** One name: make a private directory and push it, or copy a file with its own mode. */
  function Copied(env: Env, space: Space, here: Components, name: Bytes, child: Node): Space {
    if Skipped(env, name, child) then space
    else if child.Dir? then space[here := Folder(PRIVATE_DIR_MODE)]
    else if child.File? then space[here := FlatOf(child)]
    else space
  }

  lemma CopiedFaithful(env: Env, root: Node, l: Listing, space: Space, d: Node, relative: Bytes, maxEntries: nat,
                       maxBytes: nat, w: State)
    requires Faithful(env, root, w.stack, l, space) && IsListing(env, root, l, d)
    requires At(Below(relative, l.todo[0])) == l.at + [l.todo[0]]
    requires VisitName(env, l.todo[0], d.children[l.todo[0]], Below(relative, l.todo[0]), maxEntries, maxBytes, w).Some?
    ensures var name := l.todo[0]; var child := d.children[name];
      var next := VisitName(env, name, child, Below(relative, name), maxEntries, maxBytes, w).value;
      Faithful(env, root, next.stack, NextName(l), Copied(env, space, l.at + [name], name, child))
  {
    var child := d.children[l.todo[0]];
    if Skipped(env, l.todo[0], child) {
      SkipFaithful(env, root, w.stack, l, space, d);
    } else if child.Dir? {
      DirectoryFaithful(env, root, w.stack, l, space, d, Open(Below(relative, l.todo[0]), child.mode, child.children));
    } else {
      FileFaithful(env, root, w.stack, l, space, d);
    }
  }

  /** The listing of `top`, with the names from the `i`th on still to be visited. */
  function Remaining(top: Open, i: nat): Listing {
    var names := SortedNames(top.children.Keys);
    Listing(At(top.relative), if i <= |names| then names[i..] else [])
  }

  /** `top` is open, lies in the tree, and has been read correctly. */
  ghost predicate IsOpen(env: Env, root: Node, top: Open) {
    ValidTree(root) && Visible(env, root, At(top.relative)) == Some(top.Node())
  }

  lemma OneNameFaithful(env: Env, root: Node, top: Open, i: nat, space: Space, maxEntries: nat, maxBytes: nat, w: State)
    requires IsOpen(env, root, top) && i < |SortedNames(top.children.Keys)|
    requires Faithful(env, root, w.stack, Remaining(top, i), space)
    ensures var name := SortedNames(top.children.Keys)[i];
      var child, path := top.children[name], Below(top.relative, name);
      var next := VisitName(env, name, child, path, maxEntries, maxBytes, w);
      next.Some? ==>
        Faithful(env, root, next.value.stack, Remaining(top, i + 1), Copied(env, space, At(path), name, child))
  {
    var names := SortedNames(top.children.Keys);
    NamesRepeatNothing(top.children.Keys);
    RestDistinct(names, i);
    VisibleIsFound(env, root, At(top.relative));
    ValidLookup(root, At(top.relative));
    assert names[i] in names && ValidName(names[i]);
    BelowIsChild(top.relative, names[i]);
    var next := VisitName(env, names[i], top.children[names[i]], Below(top.relative, names[i]), maxEntries, maxBytes, w);
    if next.Some? {
      CopiedFaithful(env, root, Remaining(top, i), space, top.Node(), top.relative, maxEntries, maxBytes, w);
    }
  }

  /** Counters and destination stand where the first `i` names of `top` leave them. */
  ghost predicate OnTrack(env: Env, root: Node, top: Open, i: nat, maxEntries: nat, maxBytes: nat, w: State,
                          space: Space, weight: nat, total: Summary)
  {
    var names := SortedNames(top.children.Keys);
    && i <= |names| && Within(w, maxEntries, maxBytes)
    && Sum(env, w, weight).Plus(ClosureNames(env, top.Node(), names[i..], top.relative)) == total
    && Faithful(env, root, w.stack, Remaining(top, i), space)
  }

  /** The `i`th name of an open directory: the counters and the destination after it, unless it is refused. */
  function CopyName(env: Env, top: Open, i: nat, maxEntries: nat, maxBytes: nat, w: State, space: Space): Option<(State, Space)>
    requires i < |SortedNames(top.children.Keys)|
  {
    var name := SortedNames(top.children.Keys)[i];
    var child, path := top.children[name], Below(top.relative, name);
    var next := VisitName(env, name, child, path, maxEntries, maxBytes, w);
    if next.None? then None else Some((next.value, Copied(env, space, At(path), name, child)))
  }

  lemma {:induction false} OneNameOn(env: Env, root: Node, top: Open, i: nat, maxEntries: nat, maxBytes: nat, w: State, space: Space,
                  weight: nat, total: Summary)
    requires OnTrack(env, root, top, i, maxEntries, maxBytes, w, space, weight, total)
    requires IsOpen(env, root, top) && i < |SortedNames(top.children.Keys)|
    ensures var next := CopyName(env, top, i, maxEntries, maxBytes, w, space);
      if next.None? then !Acceptable(total, maxEntries, maxBytes)
      else OnTrack(env, root, top, i + 1, maxEntries, maxBytes, next.value.0, next.value.1, weight, total)
  {
    OneName(env, top.Node(), SortedNames(top.children.Keys), i, top.relative, w, weight, maxEntries, maxBytes);
    OneNameFaithful(env, root, top, i, space, maxEntries, maxBytes, w);
  }

  /** The names of one open directory, copied in order. */
  method CopyNames(env: Env, ghost root: Node, top: Open, maxEntries: nat, maxBytes: nat, w: State, space0: Space,
                   ghost weight: nat, ghost total: Summary) returns (ok: bool, next: State, space: Space)
    requires IsOpen(env, root, top) && OnTrack(env, root, top, 0, maxEntries, maxBytes, w, space0, weight, total)
    ensures if ok then OnTrack(env, root, top, |SortedNames(top.children.Keys)|, maxEntries, maxBytes, next, space, weight, total)
            else !Acceptable(total, maxEntries, maxBytes)
  {
    var names := SortedNames(top.children.Keys);
    next, space := w, space0;
    for i := 0 to |names|
      invariant OnTrack(env, root, top, i, maxEntries, maxBytes, next, space, weight, total)
    {
      OneNameOn(env, root, top, i, maxEntries, maxBytes, next, space, weight, total);
      var copied := CopyName(env, top, i, maxEntries, maxBytes, next, space);
      if copied.None? {
        return false, next, space;
      }
      next, space := copied.value.0, copied.value.1;
    }
    ok := true;
  }

  lemma RestDistinct(names: seq<Bytes>, i: nat)
    requires NoRepeats(names) && i < |names|
    ensures NoRepeats(names[i..]) && names[i..][0] == names[i] && names[i..][1..] == names[i + 1..]
  {
  }

  lemma {:induction false} PopOnTrack(env: Env, root: Node, w: State, space: Space, weight: nat, maxEntries: nat, maxBytes: nat)
    requires w.stack != [] && ValidTree(root) && (forall mode :: env.safe(mode)) && Within(w, maxEntries, maxBytes)
    requires Faithful(env, root, w.stack, Idle, space)
    ensures var top := w.stack[|w.stack| - 1];
      var next := w.(stack := w.stack[..|w.stack| - 1], lines := w.lines + [Directory(top.relative, top.mode)]);
      && IsOpen(env, root, top) && weight < Sum(env, w, weight).weight
      && OnTrack(env, root, top, 0, maxEntries, maxBytes, next, space, weight + 1, Sum(env, w, weight))
  {
    var top := w.stack[|w.stack| - 1];
    assert top in w.stack;
    var names := SortedNames(top.children.Keys);
    assert names[0..] == names;
    Pop(env, w, weight);
    PopFaithful(env, root, w.stack, space, names);
  }

  /** With every name visited, nothing remains to be counted. */
  lemma {:induction false} NothingRemains(env: Env, top: Open, s: Summary)
    ensures s.Plus(ClosureNames(env, top.Node(), SortedNames(top.children.Keys)[|SortedNames(top.children.Keys)|..], top.relative)) == s
    ensures Remaining(top, |SortedNames(top.children.Keys)|) == Listing(At(top.relative), [])
  {
    var names := SortedNames(top.children.Keys);
    assert names[|names|..] == [];
    PlusLaws(s, NOTHING, NOTHING);
  }

  lemma {:induction false} CloseOnTrack(env: Env, root: Node, top: Open, maxEntries: nat, maxBytes: nat, w: State, space: Space,
                     weight: nat, total: Summary)
    requires IsOpen(env, root, top)
    requires OnTrack(env, root, top, |SortedNames(top.children.Keys)|, maxEntries, maxBytes, w, space, weight, total)
    ensures Sum(env, w, weight) == total && Within(w, maxEntries, maxBytes)
    ensures Faithful(env, root, w.stack, Idle, space[At(top.relative) := Folder(top.mode)])
  {
    NothingRemains(env, top, Sum(env, w, weight));
    CloseFaithful(env, root, w.stack, At(top.relative), space, top.Node());
  }

  /** `_copy_closure_from_fd` over a directory, and what it counted. */
  method CopyDirectory(checked: Env, root: Node, maxEntries: nat, maxBytes: nat)
    returns (ok: bool, space: Space, entries: nat, bytes: nat)
    requires root.Dir? && ValidTree(root)
    ensures ok <==> Acceptable(Closure(Unchecked(checked), root, []), maxEntries, maxBytes)
    ensures ok ==> IsCopy(Unchecked(checked), root, space)
                   && entries == Closure(Unchecked(checked), root, []).entries
                   && bytes == Closure(Unchecked(checked), root, []).bytes
  {
    var env := Unchecked(checked);
    ghost var total, weight := Closure(env, root, []), 0;
    var start := Open([], root.mode, root.children);
    var w := State([start], [], 0, 0);
    space := map[[] := Folder(PRIVATE_DIR_MODE)];
    entries, bytes := 0, 0;
    StartsWhole(env, start);
    StartFaithful(env, start);
    while w.stack != []
      invariant Within(w, maxEntries, maxBytes) && weight <= total.weight && Sum(env, w, weight) == total
      invariant Faithful(env, root, w.stack, Idle, space)
      decreases total.weight - weight
    {
      var top := w.stack[|w.stack| - 1];
      PopOnTrack(env, root, w, space, weight, maxEntries, maxBytes);
      w := w.(stack := w.stack[..|w.stack| - 1], lines := w.lines + [Directory(top.relative, top.mode)]);
      ok, w, space := CopyNames(env, root, top, maxEntries, maxBytes, w, space, weight + 1, total);
      if !ok {
        return;
      }
      CloseOnTrack(env, root, top, maxEntries, maxBytes, w, space, weight + 1, total);
      space := space[At(top.relative) := Folder(top.mode)];
      weight := weight + 1;
    }
    EmptyStack(env, w, weight, maxEntries, maxBytes);
    FinishedIsCopy(env, root, space);
    return true, space, w.entries, w.bytes;
  }

  predicate AsExpected(expected: Option<nat>, count: nat) {
    expected.None? || expected.value == count
  }

  /** What may be copied: a file within the byte bound, or a directory within both bounds. */
  predicate CopyableRoot(env: Env, root: Node, maxEntries: nat, maxBytes: nat) {
    if root.Dir? then Acceptable(Closure(env, root, []), maxEntries, maxBytes)
    else root.File? && |root.payload| <= maxBytes
  }

  /** `_copy_closure_from_fd`, with the counts it compares to those of the witness. */
  method CopyClosure(checked: Env, root: Node, rootName: Bytes, maxEntries: nat, maxBytes: nat,
                     expectedEntries: Option<nat>, expectedBytes: Option<nat>) returns (ok: bool, space: Space)
    requires ValidTree(root)
    ensures ok <==>
      && CopyableRoot(Unchecked(checked), root, maxEntries, maxBytes)
      && AsExpected(expectedEntries, RootClosure(Unchecked(checked), root, rootName).entries)
      && AsExpected(expectedBytes, RootClosure(Unchecked(checked), root, rootName).bytes)
    ensures ok ==> IsCopy(Unchecked(checked), root, space)
  {
    space := map[];
    var entries, bytes := 1, 0;
    if root.Dir? {
      ok, space, entries, bytes := CopyDirectory(checked, root, maxEntries, maxBytes);
      if !ok {
        return;
      }
    } else {
      if !root.File? || |root.payload| > maxBytes {
        return false, space;
      }
      space := map[[] := FlatOf(root)];
      bytes := |root.payload|;
    }
    ok := AsExpected(expectedEntries, entries) && AsExpected(expectedBytes, bytes);
  }
}
