/** What the delta is good for: it is an exact, reversible, minimal edit script. */
module DiffLaws {
  import opened Basics
  import opened Paths
  import opened Manifests
  import opened Diff
  import Sorting

  type Table = map<Bytes, Entry>

  /** Apply one change; it must find the entry it removes, and room for the entry it adds. */
  function PatchOne(m: Table, c: Change): Option<Table> {
    if c.Removes() && (c.before.path !in m || m[c.before.path] != c.before) then None
    else
      var rest := if c.Removes() then m - {c.before.path} else m;
      if !c.Adds() then Some(rest)
      else if c.after.path in rest then None
      else Some(rest[c.after.path := c.after])
  }

  function Patch(m: Table, changes: seq<Change>): Option<Table> {
    if changes == [] then Some(m)
    else
      var earlier := Patch(m, changes[..|changes| - 1]);
      if earlier.None? then None else PatchOne(earlier.value, changes[|changes| - 1])
  }

  // ---- Reading a change backwards ----

  lemma {:induction false} MirrorIsDelta(base: seq<Entry>, candidate: seq<Entry>, c: Change)
    ensures InDelta(candidate, base, c.Mirror()) <==> InDelta(base, candidate, c)
    ensures c.Mirror().Mirror() == c
  {
    var removed, added := Only(base, candidate), Only(candidate, base);
    if c.Rename? {
      PairedMirrors(removed, added, c.before, c.after);
    }
  }

  lemma PairedMirrors(removed: seq<Entry>, added: seq<Entry>, b: Entry, a: Entry)
    ensures Paired(removed, added, b, a) <==> Paired(added, removed, a, b)
  {
    if k :| PairedAt(removed, added, b, a, k) { assert PairedAt(added, removed, a, b, k); }
    if k :| PairedAt(added, removed, a, b, k) { assert PairedAt(removed, added, b, a, k); }
  }

  // ---- Where changes apply ----

  /** A change removes what only the base has, or changes, and adds what only the candidate has. */
  lemma {:induction false} ChangeFits(base: seq<Entry>, candidate: seq<Entry>, c: Change)
    requires Sorted(base) && Sorted(candidate) && InDelta(base, candidate, c)
    ensures var was, now := ByPath(base), ByPath(candidate);
      && (c.Removes() ==> c.before.path in was && was[c.before.path] == c.before)
      && (c.Adds() ==> c.after.path in now && now[c.after.path] == c.after)
      && (c.Removes() && !c.Modify? ==> c.before.path !in now)
      && (c.Adds() && !c.Modify? ==> c.after.path !in was)
  {
    ByPathFinds(base);
    ByPathFinds(candidate);
    var removed, added := Only(base, candidate), Only(candidate, base);
    if c.Removes() && !c.Modify? {
      assert c.before in OfIdentity(removed, c.before.identity);
      assert c.before in removed;
    }
    if c.Adds() && !c.Modify? {
      assert c.after in OfIdentity(added, c.after.identity);
      assert c.after in added;
    }
  }

  /** No path is touched by two changes. */
  lemma TouchedOnce(base: seq<Entry>, candidate: seq<Entry>, c: Change, d: Change, p: Bytes)
    requires Sorted(base) && Sorted(candidate) && InDelta(base, candidate, c) && InDelta(base, candidate, d)
    requires c.Touches(p) && d.Touches(p)
    ensures c == d
  {
    ChangeFits(base, candidate, c);
    ChangeFits(base, candidate, d);
    if p !in ByPath(candidate) {
      OnlyIsSorted(base, candidate);
      RemovedOnce(Only(base, candidate), Only(candidate, base), c, d);
    } else if p !in ByPath(base) {
      OnlyIsSorted(candidate, base);
      MirrorIsDelta(base, candidate, c);
      MirrorIsDelta(base, candidate, d);
      RemovedOnce(Only(candidate, base), Only(base, candidate), c.Mirror(), d.Mirror());
    }
  }

  ghost predicate RemovesFrom(removed: seq<Entry>, added: seq<Entry>, c: Change) {
    match c
    case Delete(b) => Unpaired(removed, added, b)
    case Rename(b, a) => Paired(removed, added, b, a)
    case _ => false
  }

  lemma RemovedOnce(removed: seq<Entry>, added: seq<Entry>, c: Change, d: Change)
    requires Sorted(removed) && RemovesFrom(removed, added, c) && RemovesFrom(removed, added, d)
    requires c.before == d.before
    ensures c == d
  {
    var b := c.before;
    assert b in OfIdentity(removed, b.identity);
    var k := RankedOnce(removed, b);
  }

  /** Exactly the paths whose entries differ are touched. */
  lemma {:induction false} TouchedIffDifferent(base: seq<Entry>, candidate: seq<Entry>, p: Bytes)
    requires Sorted(base) && Sorted(candidate)
    ensures (exists c :: InDelta(base, candidate, c) && c.Touches(p)) <==>
            !(p in ByPath(base) <==> p in ByPath(candidate))
            || (p in ByPath(base) && ByPath(base)[p] != ByPath(candidate)[p])
  {
    ByPathFinds(base);
    ByPathFinds(candidate);
    if c :| InDelta(base, candidate, c) && c.Touches(p) {
      ChangeFits(base, candidate, c);
    }
    if p in ByPath(base) && p in ByPath(candidate) && ByPath(base)[p] != ByPath(candidate)[p] {
      assert InDelta(base, candidate, Modify(ByPath(base)[p], ByPath(candidate)[p]));
    } else if p in ByPath(base) && p !in ByPath(candidate) {
      var c := Removing(base, candidate, ByPath(base)[p]);
    } else if p in ByPath(candidate) && p !in ByPath(base) {
      var c := Removing(candidate, base, ByPath(candidate)[p]);
      MirrorIsDelta(candidate, base, c);
    }
  }

  lemma Removing(base: seq<Entry>, candidate: seq<Entry>, b: Entry) returns (c: Change)
    requires Sorted(base) && Sorted(candidate) && b in base && b.path !in ByPath(candidate)
    ensures InDelta(base, candidate, c) && c.Removes() && c.before == b && !c.Modify?
  {
    ByPathFinds(candidate);
    var removed, added := Only(base, candidate), Only(candidate, base);
    OnlyIsSorted(base, candidate);
    var k := RankedOnce(removed, b);
    if k < |OfIdentity(added, b.identity)| {
      var a := OfIdentity(added, b.identity)[k];
      assert a in OfIdentity(added, b.identity);
      assert PairedAt(removed, added, b, a, k);
      c := Rename(b, a);
    } else {
      assert UnpairedAt(removed, added, b, k);
      c := Delete(b);
    }
  }

  // ---- The edit script ----

  /** `changes` lists members of the delta, none of them twice. */
  ghost predicate Enumerates(base: seq<Entry>, candidate: seq<Entry>, changes: seq<Change>) {
    && (forall c | c in changes :: InDelta(base, candidate, c))
    && forall i, j | 0 <= i < j < |changes| :: changes[i] != changes[j]
  }

  ghost predicate Touched(changes: seq<Change>, p: Bytes) {
    exists c :: c in changes && c.Touches(p)
  }

  /** `m` agrees with the candidate on touched paths and with the base everywhere else. */
  ghost predicate Halfway(base: Table, candidate: Table, changes: seq<Change>, m: Table) {
    forall p ::
      var side := if Touched(changes, p) then candidate else base;
      (p in m <==> p in side) && (p in m ==> m[p] == side[p])
  }

  /** One more change, to paths not touched before, moves the table one change further. */
  lemma PatchOneGoesOn(was: Table, now: Table, init: seq<Change>, c: Change, m: Table)
    requires Halfway(was, now, init, m)
    requires forall p | c.Touches(p) :: !Touched(init, p)
    requires c.Removes() ==> c.before.path in was && was[c.before.path] == c.before
    requires c.Adds() ==> c.after.path in now && now[c.after.path] == c.after
    requires c.Removes() && !(c.Adds() && c.after.path == c.before.path) ==> c.before.path !in now
    requires c.Adds() && !(c.Removes() && c.after.path == c.before.path) ==> c.after.path !in was
    ensures PatchOne(m, c).Some? && Halfway(was, now, init + [c], PatchOne(m, c).value)
  {
    assert c.Removes() ==> c.Touches(c.before.path) && c.before.path in m;
    assert c.Adds() ==> c.Touches(c.after.path);
    var next := PatchOne(m, c).value;
    forall p ensures Touched(init + [c], p) <==> Touched(init, p) || c.Touches(p) {
      if c.Touches(p) { assert c in init + [c]; }
      if d :| d in init && d.Touches(p) { assert d in init + [c]; }
    }
  }

  lemma {:induction false} PatchGoesHalfway(base: seq<Entry>, candidate: seq<Entry>, changes: seq<Change>)
    requires Sorted(base) && Sorted(candidate) && Enumerates(base, candidate, changes)
    ensures Patch(ByPath(base), changes).Some?
    ensures Halfway(ByPath(base), ByPath(candidate), changes, Patch(ByPath(base), changes).value)
  {
    if changes != [] {
      var n := |changes| - 1;
      var init, c := changes[..n], changes[n];
      assert changes == init + [c];
      PatchGoesHalfway(base, candidate, init);
      ChangeFits(base, candidate, c);
      forall p | c.Touches(p) ensures !Touched(init, p) {
        if d :| d in init && d.Touches(p) {
          TouchedOnce(base, candidate, c, d, p);
        }
      }
      PatchOneGoesOn(ByPath(base), ByPath(candidate), init, c, Patch(ByPath(base), init).value);
    }
  }

  /** Applying the delta to the base, in any order, gives the candidate. */
  lemma PatchReachesCandidate(base: seq<Entry>, candidate: seq<Entry>, changes: seq<Change>)
    requires Sorted(base) && Sorted(candidate) && Enumerates(base, candidate, changes)
    requires forall c | InDelta(base, candidate, c) :: c in changes
    ensures Patch(ByPath(base), changes) == Some(ByPath(candidate))
  {
    PatchGoesHalfway(base, candidate, changes);
    var m := Patch(ByPath(base), changes).value;
    forall p ensures (p in m <==> p in ByPath(candidate)) && (p in m ==> m[p] == ByPath(candidate)[p]) {
      TouchedIffDifferent(base, candidate, p);
      if c :| InDelta(base, candidate, c) && c.Touches(p) {
        assert Touched(changes, p);
      }
    }
    assert m == ByPath(candidate);
  }

  lemma DeltaEnumerates(base: seq<Entry>, candidate: seq<Entry>)
    requires Sorted(base) && Sorted(candidate)
    ensures Enumerates(base, candidate, Delta(base, candidate))
    ensures forall c | InDelta(base, candidate, c) :: c in Delta(base, candidate)
  {
    DeltaIsExact(base, candidate);
    var changes := Delta(base, candidate);
    forall i, j | 0 <= i < j < |changes| ensures changes[i] != changes[j] {
      Trichotomy(changes[i].Anchor(), changes[j].Anchor());
    }
  }

  /** `diff_manifests` is an exact edit script. */
  lemma {:induction false} DiffIsEditScript(base: seq<Entry>, candidate: seq<Entry>)
    requires Sorted(base) && Sorted(candidate)
    ensures Patch(ByPath(base), Delta(base, candidate)) == Some(ByPath(candidate))
  {
    DeltaEnumerates(base, candidate);
    PatchReachesCandidate(base, candidate, Delta(base, candidate));
  }

  lemma DiffIsEmptyIffEqual(base: seq<Entry>, candidate: seq<Entry>)
    requires Sorted(base) && Sorted(candidate)
    ensures Delta(base, candidate) == [] <==> base == candidate
  {
    if Delta(base, candidate) == [] {
      DiffIsEditScript(base, candidate);
      ByPathIsInjective(base, candidate);
    }
    if base == candidate && Delta(base, candidate) != [] {
      var c := Delta(base, candidate)[0];
      DeltaEnumerates(base, candidate);
      ChangeFits(base, candidate, c);
      assert false;
    }
  }

  /** Swapping the arguments gives the mirrored changes. */
  lemma SwappedDelta(base: seq<Entry>, candidate: seq<Entry>, c: Change)
    requires Sorted(base) && Sorted(candidate)
    ensures c in Delta(base, candidate) <==> c.Mirror() in Delta(candidate, base)
  {
    DeltaIsExact(base, candidate);
    DeltaIsExact(candidate, base);
    MirrorIsDelta(base, candidate, c);
  }

  /** Undoing the delta with the swapped one leads back to the base. */
  lemma {:induction false} DiffUndoes(base: seq<Entry>, candidate: seq<Entry>)
    requires Sorted(base) && Sorted(candidate)
    ensures var there := Patch(ByPath(base), Delta(base, candidate));
      there.Some? && Patch(there.value, Delta(candidate, base)) == Some(ByPath(base))
  {
    DiffIsEditScript(base, candidate);
    DiffIsEditScript(candidate, base);
  }

  // ---- Renames are a maximum matching ----

  ghost predicate IsRenameOf(base: seq<Entry>, candidate: seq<Entry>, id: Identity, c: Change) {
    c.Rename? && c.before.identity == id && c in Delta(base, candidate)
  }

  function Zip(r: seq<Entry>, a: seq<Entry>): (z: seq<Change>)
    ensures |z| == if |r| <= |a| then |r| else |a|
    ensures forall k | 0 <= k < |z| :: z[k] == Rename(r[k], a[k])
  {
    if r == [] || a == [] then [] else [Rename(r[0], a[0])] + Zip(r[1..], a[1..])
  }

  lemma PairedIsZipped(removed: seq<Entry>, added: seq<Entry>, id: Identity, c: Change)
    requires c.Rename? && c.before.identity == id && Paired(removed, added, c.before, c.after)
    ensures c in Zip(OfIdentity(removed, id), OfIdentity(added, id))
  {
    var k: nat :| PairedAt(removed, added, c.before, c.after, k);
    assert Zip(OfIdentity(removed, id), OfIdentity(added, id))[k] == c;
  }

  lemma ZippedIsPaired(removed: seq<Entry>, added: seq<Entry>, id: Identity, c: Change)
    requires c in Zip(OfIdentity(removed, id), OfIdentity(added, id))
    ensures c.Rename? && c.before.identity == id && Paired(removed, added, c.before, c.after)
  {
    var r, a := OfIdentity(removed, id), OfIdentity(added, id);
    var z := Zip(r, a);
    var k :| 0 <= k < |z| && z[k] == c;
    assert r[k] in r && a[k] in a;
    assert PairedAt(removed, added, r[k], a[k], k);
  }

  /** Zipping the two sides of one identity lists its renames, as many as the smaller side allows. */
  lemma RenamesOfIdentity(base: seq<Entry>, candidate: seq<Entry>, id: Identity, c: Change)
    requires Sorted(base) && Sorted(candidate)
    ensures c in Zip(OfIdentity(Only(base, candidate), id), OfIdentity(Only(candidate, base), id))
            <==> IsRenameOf(base, candidate, id, c)
  {
    var removed, added := Only(base, candidate), Only(candidate, base);
    DeltaIsExact(base, candidate);
    assert c in Delta(base, candidate) <==> InDelta(base, candidate, c);
    if c in Zip(OfIdentity(removed, id), OfIdentity(added, id)) {
      ZippedIsPaired(removed, added, id, c);
    } else if IsRenameOf(base, candidate, id, c) {
      PairedIsZipped(removed, added, id, c);
    }
  }

  /** No rename is listed twice, so their number is the smaller of the two counts: a maximum matching. */
  lemma RenamesAreMaximum(base: seq<Entry>, candidate: seq<Entry>, id: Identity)
    requires Sorted(base) && Sorted(candidate)
    ensures var r, a := OfIdentity(Only(base, candidate), id), OfIdentity(Only(candidate, base), id);
      var found := set c | c in Delta(base, candidate) && IsRenameOf(base, candidate, id, c);
      |found| == if |r| <= |a| then |r| else |a|
  {
    var removed := Only(base, candidate);
    var r, a := OfIdentity(removed, id), OfIdentity(Only(candidate, base), id);
    var found := set c | c in Delta(base, candidate) && IsRenameOf(base, candidate, id, c);
    forall c ensures c in found <==> c in Zip(r, a) {
      RenamesOfIdentity(base, candidate, id, c);
    }
    OnlyIsSorted(base, candidate);
    forall i, j | 0 <= i < j < |Zip(r, a)| ensures Zip(r, a)[i] != Zip(r, a)[j] {
      if r[i].path == r[j].path { RankIsUnique(removed, id, i, j); }
    }
    Sorting.CountDistinct(Zip(r, a), found);
  }

  /** No identity is both deleted and created, so no further rename could have been made. */
  lemma NoRenameIsMissed(base: seq<Entry>, candidate: seq<Entry>, b: Entry, a: Entry)
    requires Sorted(base) && Sorted(candidate)
    requires Delete(b) in Delta(base, candidate) && Create(a) in Delta(base, candidate)
    ensures b.identity != a.identity
  {
    DeltaIsExact(base, candidate);
    assert InDelta(base, candidate, Delete(b)) && InDelta(base, candidate, Create(a));
  }
}
