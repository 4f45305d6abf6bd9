/**
 Subject manifests: entries sorted by path, and their lookup by path and by identity.

 A manifest is the sequence of its entries; the dictionaries of the code are the maps that these
 functions build from it.
 */
module Manifests {
  import opened Basics
  import opened Paths
  import Sorting

  /** Everything about an entry except its path, as `identity_without_path` compares it. */
  datatype Identity =
    | Regular(executable: bool, size: nat, blob: Digest)
    | Symlink(target: Bytes, targetDigest: Digest)

  datatype Entry = Entry(path: Bytes, identity: Identity)

  predicate Sorted(entries: seq<Entry>) {
    forall i, j | 0 <= i < j < |entries| :: Before(entries[i].path, entries[j].path)
  }

  /** The constructor's conditions: sorted by raw path bytes, unique, and nothing inside a file. */
  predicate ValidManifest(entries: seq<Entry>) {
    Sorted(entries) && forall a, b | a in entries && b in entries :: !Above(a.path, b.path)
  }

  // ---- Limits ----

  datatype Limits = Limits(
    maxFiles: nat, maxPathBytes: nat, maxPathDepth: nat, maxFileBytes: nat, maxSubjectBytes: nat)

  function Weight(e: Entry): nat {
    match e.identity
    case Regular(_, size, _) => size
    case Symlink(target, _) => |target|
  }

  function TotalWeight(entries: seq<Entry>): nat {
    if entries == [] then 0 else TotalWeight(entries[..|entries| - 1]) + Weight(Last(entries))
  }

  predicate EntryFits(e: Entry, limits: Limits) {
    && |e.path| <= limits.maxPathBytes && |Split(e.path)| <= limits.maxPathDepth
    && match e.identity
       case Regular(_, size, _) => size <= limits.maxFileBytes
       case Symlink(target, _) => |target| <= limits.maxPathBytes
  }

  /** `validate_limits`. */
  predicate WithinLimits(entries: seq<Entry>, limits: Limits) {
    && |entries| <= limits.maxFiles && TotalWeight(entries) <= limits.maxSubjectBytes
    && forall e | e in entries :: EntryFits(e, limits)
  }

  // ---- Lookup by path ----

  function ByPath(entries: seq<Entry>): map<Bytes, Entry> {
    if entries == [] then map[]
    else ByPath(entries[..|entries| - 1])[Last(entries).path := Last(entries)]
  }

  function Last<T>(s: seq<T>): T
    requires s != []
  {
    s[|s| - 1]
  }

  lemma {:induction false} ByPathFinds(entries: seq<Entry>)
    requires Sorted(entries)
    ensures forall e | e in entries :: e.path in ByPath(entries) && ByPath(entries)[e.path] == e
    ensures forall p | p in ByPath(entries) :: ByPath(entries)[p] in entries && ByPath(entries)[p].path == p
  {
    if entries != [] {
      var init := entries[..|entries| - 1];
      ByPathFinds(init);
      forall e | e in entries ensures e.path in ByPath(entries) && ByPath(entries)[e.path] == e {
        if e != Last(entries) {
          var i :| 0 <= i < |entries| && entries[i] == e;
          assert init[i] == e;
          Trichotomy(e.path, Last(entries).path);
        }
      }
    }
  }

  /** Two manifests with the same lookup table are the same manifest. */
  lemma {:induction false} ByPathIsInjective(a: seq<Entry>, b: seq<Entry>)
    requires Sorted(a) && Sorted(b) && ByPath(a) == ByPath(b)
    ensures a == b
  {
    ByPathFinds(a);
    ByPathFinds(b);
    forall e ensures e in a <==> e in b {
      if e in a { assert e.path in ByPath(b) && ByPath(b)[e.path] == e; }
      if e in b { assert e.path in ByPath(a) && ByPath(a)[e.path] == e; }
    }
    SameMembers(a, b);
  }

  predicate PathOrder(a: Entry, b: Entry) {
    Before(a.path, b.path)
  }

  /** A strictly sorted list is determined by its members. */
  lemma SameMembers(a: seq<Entry>, b: seq<Entry>)
    requires Sorted(a) && Sorted(b) && forall e :: e in a <==> e in b
    ensures a == b
  {
    forall x, y | x in a && y in a ensures !(PathOrder(x, y) && PathOrder(y, x)) {
      Trichotomy(x.path, y.path);
    }
    Sorting.RisingIsUnique(PathOrder, a, b);
  }

  // ---- Selections that keep the order ----

  function Select<T(!new)>(items: seq<T>, keep: T -> bool): (r: seq<T>)
    ensures forall e :: e in r <==> e in items && keep(e)
  {
    if items == [] then []
    else
      var init := Select(items[..|items| - 1], keep);
      assert items == items[..|items| - 1] + [Last(items)];
      if keep(Last(items)) then init + [Last(items)] else init
  }

  lemma {:induction false} SelectIsSorted(entries: seq<Entry>, keep: Entry -> bool)
    requires Sorted(entries)
    ensures Sorted(Select(entries, keep))
  {
    if entries != [] {
      var init := entries[..|entries| - 1];
      SelectIsSorted(init, keep);
      forall e | e in Select(init, keep) ensures Before(e.path, Last(entries).path) {
        var i :| 0 <= i < |init| && init[i] == e;
        assert entries[i] == e;
      }
    }
  }

  lemma SelectStep<T(!new)>(items: seq<T>, i: nat, keep: T -> bool)
    requires i < |items|
    ensures Select(items[..i + 1], keep) ==
            Select(items[..i], keep) + (if keep(items[i]) then [items[i]] else [])
  {
    assert items[..i + 1][..i] == items[..i];
  }

  lemma {:induction false} SelectPrefix(entries: seq<Entry>, i: nat, keep: Entry -> bool)
    requires i <= |entries|
    ensures Select(entries[..i], keep) <= Select(entries, keep)
    decreases |entries| - i
  {
    if i == |entries| {
      assert entries[..i] == entries;
    } else {
      SelectStep(entries, i, keep);
      SelectPrefix(entries, i + 1, keep);
    }
  }
}
