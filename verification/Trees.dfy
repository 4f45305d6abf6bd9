/**
 A quiescent directory tree, its entries by path, and the order in which a listing visits them.

 A walk visits every entry below a node exactly once, names in byte order, a directory before the
 entries below it.
 */
module Trees {
  import opened Basics
  import opened Splitting
  import opened Paths
  import opened Sorting

  type Components = seq<Bytes>

  datatype Node =
    | File(mode: nat, payload: Bytes)
    | Link(target: Bytes)
    | Dir(mode: nat, children: map<Bytes, Node>)
    | Special

  /** What the kernel guarantees of a directory entry's name. */
  predicate ValidName(name: Bytes) {
    name != [] && name != [DOT] && name != [DOT, DOT] && SLASH !in name && 0 !in name
  }

  predicate ValidTree(n: Node) {
    n.Dir? ==> forall name | name in n.children :: ValidName(name) && ValidTree(n.children[name])
  }

  function Lookup(n: Node, at: Components): Option<Node>
    decreases at
  {
    if at == [] then Some(n)
    else if n.Dir? && at[0] in n.children then Lookup(n.children[at[0]], at[1..])
    else None
  }

  lemma {:induction false} LookupConcat(n: Node, a: Components, b: Components)
    ensures Lookup(n, a + b) ==
            (if Lookup(n, a).None? then None else Lookup(Lookup(n, a).value, b))
    decreases a
  {
    if a == [] {
      assert a + b == b;
    } else {
      assert (a + b)[1..] == a[1..] + b;
      if n.Dir? && a[0] in n.children {
        LookupConcat(n.children[a[0]], a[1..], b);
      }
    }
  }

  lemma {:induction false} ValidLookup(n: Node, at: Components)
    requires ValidTree(n) && Lookup(n, at).Some?
    ensures ValidTree(Lookup(n, at).value) && forall name | name in at :: ValidName(name)
    decreases at
  {
    if at != [] {
      ValidLookup(n.children[at[0]], at[1..]);
    }
  }

  // ---- Names in byte order ----

  function SortedNames(names: set<Bytes>): (r: seq<Bytes>)
    ensures forall x :: x in r <==> x in names
    ensures |r| == |names|
    decreases |names|
  {
    if names == {} then []
    else
      LeastExists(names);
      LeastIsUnique(names);
      var least :| least in names && IsLeast(names, least);
      [least] + SortedNames(names - {least})
  }

  predicate IsLeast(names: set<Bytes>, least: Bytes) {
    forall x | x in names :: x == least || Before(least, x)
  }

  lemma LeastIsUnique(names: set<Bytes>)
    ensures forall a, b | a in names && b in names && IsLeast(names, a) && IsLeast(names, b) :: a == b
  {
    forall a, b | a in names && b in names && IsLeast(names, a) && IsLeast(names, b) ensures a == b {
      Trichotomy(a, b);
    }
  }

  lemma {:induction false} LeastExists(names: set<Bytes>)
    requires names != {}
    ensures exists least :: least in names && IsLeast(names, least)
    decreases |names|
  {
    var some :| some in names;
    var rest := names - {some};
    if rest == {} {
      assert names == {some};
    } else {
      LeastExists(rest);
      var m :| m in rest && IsLeast(rest, m);
      Trichotomy(some, m);
      if Before(some, m) {
        forall x | x in names && x != some ensures Before(some, x) {
          if x != m { Transitive(some, m, x); }
        }
        assert IsLeast(names, some);
      } else {
        assert IsLeast(names, m);
      }
    }
  }

  lemma {:induction false} NamesRise(names: set<Bytes>)
    ensures forall i, j | 0 <= i < j < |SortedNames(names)| :: Before(SortedNames(names)[i], SortedNames(names)[j])
    decreases |names|
  {
    if names != {} {
      var least := SortedNames(names)[0];
      var rest := SortedNames(names)[1..];
      assert IsLeast(names, least);
      assert rest == SortedNames(names - {least});
      NamesRise(names - {least});
      forall i, j | 0 <= i < j < |SortedNames(names)|
        ensures Before(SortedNames(names)[i], SortedNames(names)[j])
      {
        assert SortedNames(names)[j] == rest[j - 1];
        if i == 0 {
          assert rest[j - 1] in names - {least};
        } else {
          assert SortedNames(names)[i] == rest[i - 1];
        }
      }
    }
  }

  lemma NamesRepeatNothing(names: set<Bytes>)
    ensures NoRepeats(SortedNames(names))
  {
    NamesRise(names);
    var list := SortedNames(names);
    forall i, j | 0 <= i < j < |list| ensures list[i] != list[j] {
      Trichotomy(list[i], list[j]);
    }
  }

  // ---- The visiting order of a recursive listing ----

  /** Everything strictly below `n`, which sits at `at`: a directory before its own entries. */
  function Walk(n: Node, at: Components): seq<Components>
    decreases n, 1, 0
  {
    if n.Dir? then WalkNames(n, SortedNames(n.children.Keys), at) else []
  }

  function WalkNames(d: Node, names: seq<Bytes>, at: Components): seq<Components>
    requires d.Dir? && forall name | name in names :: name in d.children
    decreases d, 0, |names|
  {
    if names == [] then []
    else [at + [names[0]]] + Walk(d.children[names[0]], at + [names[0]]) + WalkNames(d, names[1..], at)
  }

  /** The walk visits exactly the entries of the tree. */
  lemma {:induction false} WalkVisits(n: Node, at: Components, c: Components)
    ensures c in Walk(n, at) <==> at < c && Lookup(n, c[|at|..]).Some?
    decreases n, 1, 0
  {
    if n.Dir? {
      var names := SortedNames(n.children.Keys);
      WalkNamesVisits(n, names, at, c);
      if at < c {
        assert c[|at|..][0] == c[|at|];
      }
    } else if at < c {
      assert c[|at|..] != [];
    }
  }

  lemma {:induction false} WalkNamesVisits(d: Node, names: seq<Bytes>, at: Components, c: Components)
    requires d.Dir? && forall name | name in names :: name in d.children
    ensures c in WalkNames(d, names, at) <==> at < c && c[|at|] in names && Lookup(d, c[|at|..]).Some?
    decreases d, 0, |names|
  {
    if names != [] {
      var name := names[0];
      var below := at + [name];
      WalkVisits(d.children[name], below, c);
      WalkNamesVisits(d, names[1..], at, c);
      if below <= c {
        assert c[|at|] == below[|at|] == name;
      }
      if at < c && c[|at|] == name {
        assert c[..|at| + 1] == below && below <= c;
        assert c[|at|..][1..] == c[|below|..];
        assert Lookup(d, c[|at|..]) == Lookup(d.children[name], c[|below|..]);
        if |c| == |below| {
          assert c == below;
        }
      }
      assert names == [name] + names[1..];
    }
  }

  /** ... and visits none of them twice. */
  lemma {:induction false} WalkVisitsOnce(n: Node, at: Components)
    ensures NoRepeats(Walk(n, at))
    decreases n, 1, 0
  {
    if n.Dir? {
      var names := SortedNames(n.children.Keys);
      NamesRepeatNothing(n.children.Keys);
      WalkNamesVisitsOnce(n, names, at);
    }
  }

  lemma {:induction false} WalkNamesVisitsOnce(d: Node, names: seq<Bytes>, at: Components)
    requires d.Dir? && NoRepeats(names) && forall name | name in names :: name in d.children
    ensures NoRepeats(WalkNames(d, names, at))
    decreases d, 0, |names|
  {
    if names != [] {
      var name := names[0];
      var below := at + [name];
      var first := Walk(d.children[name], below);
      WalkVisitsOnce(d.children[name], below);
      WalkNamesVisitsOnce(d, names[1..], at);
      forall c | c in [below] + first ensures c !in WalkNames(d, names[1..], at) {
        WalkVisits(d.children[name], below, c);
        WalkNamesVisits(d, names[1..], at, c);
        assert c[|at|] == name;
      }
      WalkVisits(d.children[name], below, below);
      NoRepeatsConcat([below], first);
      NoRepeatsConcat([below] + first, WalkNames(d, names[1..], at));
    }
  }
}
