/** The exact delta between two manifests, with exact-identity renames. */
module Diff {
  import opened Basics
  import opened Paths
  import opened Manifests
  import Sorting

  datatype Change =
    | Create(after: Entry)
    | Delete(before: Entry)
    | Modify(before: Entry, after: Entry)
    | Rename(before: Entry, after: Entry)
  {
    predicate Removes() { !Create? }

    predicate Adds() { !Delete? }

    /** The first component of the sort key. */
    function Anchor(): Bytes { if Adds() then after.path else before.path }

    function Rank(): nat {
      match this
      case Delete(_) => 0
      case Rename(_, _) => 1
      case Modify(_, _) => 2
      case Create(_) => 3
    }

    predicate Touches(p: Bytes) { (Removes() && before.path == p) || (Adds() && after.path == p) }

    /** The same change read from the candidate back to the base. */
    function Mirror(): Change {
      match this
      case Create(a) => Delete(a)
      case Delete(b) => Create(b)
      case Modify(b, a) => Modify(a, b)
      case Rename(b, a) => Rename(a, b)
    }
  }

  // ---- What the delta is, change by change ----

  function PathsOf(entries: seq<Entry>): set<Bytes> {
    set e | e in entries :: e.path
  }

  function Outside(paths: set<Bytes>): Entry -> bool {
    (e: Entry) => e.path !in paths
  }

  function HasIdentity(id: Identity): Entry -> bool {
    (e: Entry) => e.identity == id
  }

  /** Entries of one manifest whose path the other does not have. */
  function Only(entries: seq<Entry>, other: seq<Entry>): seq<Entry> {
    Select(entries, Outside(PathsOf(other)))
  }

  function OfIdentity(entries: seq<Entry>, id: Identity): seq<Entry> {
    Select(entries, HasIdentity(id))
  }

  /** `b` and `a` have the same identity and the same rank among the entries of that identity. */
  ghost predicate Paired(removed: seq<Entry>, added: seq<Entry>, b: Entry, a: Entry) {
    exists k :: PairedAt(removed, added, b, a, k)
  }

  predicate PairedAt(removed: seq<Entry>, added: seq<Entry>, b: Entry, a: Entry, k: nat) {
    && b.identity == a.identity
    && k < |OfIdentity(removed, b.identity)| && k < |OfIdentity(added, b.identity)|
    && OfIdentity(removed, b.identity)[k] == b && OfIdentity(added, b.identity)[k] == a
  }

  /** `e` ranks beyond the entries of its identity on the other side. */
  ghost predicate Unpaired(side: seq<Entry>, other: seq<Entry>, e: Entry) {
    exists k :: UnpairedAt(side, other, e, k)
  }

  predicate UnpairedAt(side: seq<Entry>, other: seq<Entry>, e: Entry, k: nat) {
    && |OfIdentity(other, e.identity)| <= k < |OfIdentity(side, e.identity)|
    && OfIdentity(side, e.identity)[k] == e
  }

  /** The delta as a set of changes: pair equal identities in path order, first to first. */
  ghost predicate InDelta(base: seq<Entry>, candidate: seq<Entry>, c: Change) {
    var removed, added := Only(base, candidate), Only(candidate, base);
    match c
    case Create(a) => Unpaired(added, removed, a)
    case Delete(b) => Unpaired(removed, added, b)
    case Modify(b, a) => b in base && a in candidate && b.path == a.path && b != a
    case Rename(b, a) => Paired(removed, added, b, a)
  }

  /** `changes` lists the delta, each change once, in strict order of its anchor. */
  ghost predicate IsDelta(base: seq<Entry>, candidate: seq<Entry>, changes: seq<Change>) {
    && (forall c :: c in changes <==> InDelta(base, candidate, c))
    && forall i, j | 0 <= i < j < |changes| :: Before(changes[i].Anchor(), changes[j].Anchor())
  }

  // ---- The lists that the loops build ----

  function Modified(base: seq<Entry>, candidate: map<Bytes, Entry>): (r: seq<Change>)
    ensures forall c :: c in r <==> c.Modify? && c.before in base && c.before.path in candidate
                                    && c.after == candidate[c.before.path] && c.before != c.after
  {
    if base == [] then []
    else
      var init, e := Modified(base[..|base| - 1], candidate), Last(base);
      assert base == base[..|base| - 1] + [e];
      if e.path in candidate && candidate[e.path] != e then init + [Modify(e, candidate[e.path])] else init
  }

  /** The added entry that the `i`th removed entry is paired with, if there is one. */
  function Partner(removed: seq<Entry>, added: seq<Entry>, i: nat): Option<Entry>
    requires i < |removed|
  {
    var id := removed[i].identity;
    var k := |OfIdentity(removed[..i], id)|;
    if k < |OfIdentity(added, id)| then Some(OfIdentity(added, id)[k]) else None
  }

  function Renames(removed: seq<Entry>, added: seq<Entry>, n: nat): seq<Change>
    requires n <= |removed|
  {
    if n == 0 then []
    else
      var init, p := Renames(removed, added, n - 1), Partner(removed, added, n - 1);
      if p.Some? then init + [Rename(removed[n - 1], p.value)] else init
  }

  function Deletes(removed: seq<Entry>, added: seq<Entry>, n: nat): seq<Change>
    requires n <= |removed|
  {
    if n == 0 then []
    else
      var init := Deletes(removed, added, n - 1);
      if Partner(removed, added, n - 1).None? then init + [Delete(removed[n - 1])] else init
  }

  function Creates(added: seq<Entry>, paired: set<Bytes>): (r: seq<Change>)
    ensures forall c :: c in r <==> c.Create? && c.after in added && c.after.path !in paired
  {
    if added == [] then []
    else
      var init, e := Creates(added[..|added| - 1], paired), Last(added);
      assert added == added[..|added| - 1] + [e];
      if e.path !in paired then init + [Create(e)] else init
  }

  function NewPaths(changes: seq<Change>): set<Bytes> {
    set c | c in changes && c.Adds() :: c.after.path
  }

  function Unsorted(base: seq<Entry>, candidate: seq<Entry>): seq<Change> {
    var removed, added := Only(base, candidate), Only(candidate, base);
    var renames := Renames(removed, added, |removed|);
    Modified(base, ByPath(candidate)) + renames + Deletes(removed, added, |removed|) + Creates(added, NewPaths(renames))
  }

  // ---- Sorting ----

  predicate KeyBefore(c: Change, d: Change) {
    || Before(c.Anchor(), d.Anchor())
    || (c.Anchor() == d.Anchor() && c.Rank() < d.Rank())
    || (c.Anchor() == d.Anchor() && c.Rank() == d.Rank() && Before(OldPath(c), OldPath(d)))
  }

  function OldPath(c: Change): Bytes { if c.Removes() then c.before.path else [] }

  function Delta(base: seq<Entry>, candidate: seq<Entry>): seq<Change> {
    Sorting.Sort(KeyBefore, Unsorted(base, candidate))
  }

  predicate Rising(changes: seq<Change>) {
    forall i, j | 0 <= i < j < |changes| :: Before(changes[i].Anchor(), changes[j].Anchor())
  }

  predicate DistinctAnchors(changes: seq<Change>) {
    forall i, j | 0 <= i < j < |changes| :: changes[i].Anchor() != changes[j].Anchor()
  }

  lemma KeyOrderIsTransitive()
    ensures Sorting.IsTransitive(KeyBefore)
  {
    forall a, b, c | KeyBefore(a, b) && KeyBefore(b, c) ensures KeyBefore(a, c) {
      if Before(a.Anchor(), b.Anchor()) && Before(b.Anchor(), c.Anchor()) {
        Transitive(a.Anchor(), b.Anchor(), c.Anchor());
      }
      if Before(OldPath(a), OldPath(b)) && Before(OldPath(b), OldPath(c)) {
        Transitive(OldPath(a), OldPath(b), OldPath(c));
      }
    }
  }

  /** Distinct anchors decide the whole order: the rest of the key is never compared. */
  lemma {:induction false} SortRises(changes: seq<Change>)
    requires DistinctAnchors(changes)
    ensures Rising(Sorting.Sort(KeyBefore, changes))
    ensures forall c :: c in Sorting.Sort(KeyBefore, changes) <==> c in changes
  {
    var sorted := Sorting.Sort(KeyBefore, changes);
    KeyOrderIsTransitive();
    forall i, j | 0 <= i < j < |changes|
      ensures KeyBefore(changes[i], changes[j]) <==> !KeyBefore(changes[j], changes[i])
    {
      Trichotomy(changes[i].Anchor(), changes[j].Anchor());
    }
    Sorting.SortRises(KeyBefore, changes);
    forall c ensures c in sorted <==> c in changes {
      Sorting.SortMembers(KeyBefore, changes, c);
    }
    Sorting.SortRepeatsNothing(KeyBefore, changes);
    forall i, j | 0 <= i < j < |sorted| ensures Before(sorted[i].Anchor(), sorted[j].Anchor()) {
      assert sorted[i] in changes && sorted[j] in changes && sorted[i] != sorted[j];
      if sorted[i].Anchor() == sorted[j].Anchor() { AnchorIdentifies(changes, sorted[i], sorted[j]); }
    }
  }

  lemma AnchorIdentifies(changes: seq<Change>, c: Change, d: Change)
    requires DistinctAnchors(changes) && c in changes && d in changes && c.Anchor() == d.Anchor()
    ensures c == d
  {
  }

  // ---- Ranks among the entries of one identity ----

  lemma RankOf(entries: seq<Entry>, i: nat)
    requires i < |entries|
    ensures var id := entries[i].identity; var k := |OfIdentity(entries[..i], id)|;
      k < |OfIdentity(entries, id)| && OfIdentity(entries, id)[k] == entries[i]
  {
    var id := entries[i].identity;
    SelectStep(entries, i, HasIdentity(id));
    SelectPrefix(entries, i + 1, HasIdentity(id));
  }

  lemma {:induction false} AtRank(entries: seq<Entry>, id: Identity, k: nat) returns (i: nat)
    requires k < |OfIdentity(entries, id)|
    ensures i < |entries| && entries[i] == OfIdentity(entries, id)[k]
    ensures |OfIdentity(entries[..i], id)| == k && entries[i].identity == id
  {
    var n := |entries| - 1;
    var init := entries[..n];
    if k < |OfIdentity(init, id)| {
      i := AtRank(init, id, k);
      assert init[..i] == entries[..i];
    } else {
      i := n;
    }
  }

  lemma {:induction false} RenameIsPaired(removed: seq<Entry>, added: seq<Entry>, n: nat, c: Change)
    requires n <= |removed|
    ensures c in Renames(removed, added, n) <==>
            c.Rename? && exists i | 0 <= i < n :: removed[i] == c.before && Partner(removed, added, i) == Some(c.after)
  {
    if n > 0 {
      RenameIsPaired(removed, added, n - 1, c);
    }
  }

  lemma {:induction false} DeleteIsUnpaired(removed: seq<Entry>, added: seq<Entry>, n: nat, c: Change)
    requires n <= |removed|
    ensures c in Deletes(removed, added, n) <==>
            c.Delete? && exists i | 0 <= i < n :: removed[i] == c.before && Partner(removed, added, i).None?
  {
    if n > 0 {
      DeleteIsUnpaired(removed, added, n - 1, c);
    }
  }

  /** The pairing loop pairs exactly the entries of equal rank. */
  lemma PartnerIsPaired(removed: seq<Entry>, added: seq<Entry>, b: Entry, a: Entry)
    ensures Paired(removed, added, b, a) <==>
            exists i | 0 <= i < |removed| :: removed[i] == b && Partner(removed, added, i) == Some(a)
  {
    if k :| PairedAt(removed, added, b, a, k) {
      var i := AtRank(removed, b.identity, k);
    }
    if i :| 0 <= i < |removed| && removed[i] == b && Partner(removed, added, i) == Some(a) {
      RankOf(removed, i);
      var k := |OfIdentity(removed[..i], b.identity)|;
      assert a in OfIdentity(added, b.identity);
      assert PairedAt(removed, added, b, a, k);
    }
  }

  lemma NoPartnerIsUnpaired(removed: seq<Entry>, added: seq<Entry>, b: Entry)
    ensures Unpaired(removed, added, b) <==>
            exists i | 0 <= i < |removed| :: removed[i] == b && Partner(removed, added, i).None?
  {
    if k :| UnpairedAt(removed, added, b, k) {
      var i := AtRank(removed, b.identity, k);
    }
    if i :| 0 <= i < |removed| && removed[i] == b && Partner(removed, added, i).None? {
      RankOf(removed, i);
      assert UnpairedAt(removed, added, b, |OfIdentity(removed[..i], b.identity)|);
    }
  }

  // ---- The list is the delta ----

  lemma RankIsUnique(entries: seq<Entry>, id: Identity, k: nat, m: nat)
    requires Sorted(entries) && k < |OfIdentity(entries, id)| && m < |OfIdentity(entries, id)|
    requires OfIdentity(entries, id)[k].path == OfIdentity(entries, id)[m].path
    ensures k == m
  {
    SelectIsSorted(entries, HasIdentity(id));
    Trichotomy(OfIdentity(entries, id)[k].path, OfIdentity(entries, id)[m].path);
  }

  lemma PathIsUnique(entries: seq<Entry>, a: Entry, b: Entry)
    requires Sorted(entries) && a in entries && b in entries && a.path == b.path
    ensures a == b
  {
    ByPathFinds(entries);
  }

  /** The paths set aside by the pairing loop are those of the paired added entries. */
  lemma {:induction false} SetAsideIsPaired(removed: seq<Entry>, added: seq<Entry>, a: Entry)
    requires Sorted(added) && a in added
    ensures a.path in NewPaths(Renames(removed, added, |removed|)) <==> exists b :: Paired(removed, added, b, a)
  {
    var renames := Renames(removed, added, |removed|);
    if b :| Paired(removed, added, b, a) {
      PartnerIsPaired(removed, added, b, a);
      RenameIsPaired(removed, added, |removed|, Rename(b, a));
      assert Rename(b, a).after.path in NewPaths(renames);
    }
    if a.path in NewPaths(renames) {
      var c :| c in renames && c.Adds() && c.after.path == a.path;
      RenameIsPaired(removed, added, |removed|, c);
      PartnerIsPaired(removed, added, c.before, c.after);
      PathIsUnique(added, c.after, a);
    }
  }

  lemma RankedOnce(added: seq<Entry>, a: Entry) returns (k: nat)
    requires Sorted(added) && a in added
    ensures k < |OfIdentity(added, a.identity)| && OfIdentity(added, a.identity)[k] == a
    ensures forall m: nat | m < |OfIdentity(added, a.identity)| && OfIdentity(added, a.identity)[m] == a :: m == k
  {
    var j :| 0 <= j < |added| && added[j] == a;
    RankOf(added, j);
    k := |OfIdentity(added[..j], a.identity)|;
    forall m: nat | m < |OfIdentity(added, a.identity)| && OfIdentity(added, a.identity)[m] == a ensures m == k {
      RankIsUnique(added, a.identity, k, m);
    }
  }

  lemma PairedOrNot(removed: seq<Entry>, added: seq<Entry>, a: Entry)
    requires Sorted(added) && a in added
    ensures Unpaired(added, removed, a) <==> !exists b :: Paired(removed, added, b, a)
  {
    var k := RankedOnce(added, a);
    if k < |OfIdentity(removed, a.identity)| {
      var b := OfIdentity(removed, a.identity)[k];
      assert b in OfIdentity(removed, a.identity);
      assert PairedAt(removed, added, b, a, k);
      assert Paired(removed, added, b, a);
    } else {
      assert UnpairedAt(added, removed, a, k);
    }
  }

  lemma {:induction false} CreateIsUnpaired(removed: seq<Entry>, added: seq<Entry>, a: Entry)
    requires Sorted(added)
    ensures Unpaired(added, removed, a) <==>
            a in added && a.path !in NewPaths(Renames(removed, added, |removed|))
  {
    if a in added {
      SetAsideIsPaired(removed, added, a);
      PairedOrNot(removed, added, a);
    }
  }

  lemma OnlyIsSorted(entries: seq<Entry>, other: seq<Entry>)
    requires Sorted(entries)
    ensures Sorted(Only(entries, other))
  {
    SelectIsSorted(entries, Outside(PathsOf(other)));
  }

  lemma UnsortedIsDelta(base: seq<Entry>, candidate: seq<Entry>, c: Change)
    requires Sorted(base) && Sorted(candidate)
    ensures c in Unsorted(base, candidate) <==> InDelta(base, candidate, c)
  {
    var removed, added := Only(base, candidate), Only(candidate, base);
    OnlyIsSorted(candidate, base);
    ByPathFinds(candidate);
    RenameIsPaired(removed, added, |removed|, c);
    DeleteIsUnpaired(removed, added, |removed|, c);
    match c
    case Create(a) => CreateIsUnpaired(removed, added, a);
    case Delete(b) => NoPartnerIsUnpaired(removed, added, b);
    case Modify(b, a) =>
    case Rename(b, a) => PartnerIsPaired(removed, added, b, a);
  }

  // ---- Distinct anchors ----

  lemma {:induction false} ModifiedRises(base: seq<Entry>, candidate: map<Bytes, Entry>)
    requires Sorted(base) && forall p | p in candidate :: candidate[p].path == p
    ensures Rising(Modified(base, candidate))
  {
    if base != [] {
      var init := base[..|base| - 1];
      ModifiedRises(init, candidate);
      forall c | c in Modified(init, candidate) ensures Before(c.Anchor(), Last(base).path) {
        var i :| 0 <= i < |init| && init[i] == c.before;
        assert base[i] == c.before;
      }
    }
  }

  lemma {:induction false} CreatesRise(added: seq<Entry>, paired: set<Bytes>)
    requires Sorted(added)
    ensures Rising(Creates(added, paired))
  {
    if added != [] {
      var init := added[..|added| - 1];
      CreatesRise(init, paired);
      forall c | c in Creates(init, paired) ensures Before(c.Anchor(), Last(added).path) {
        var i :| 0 <= i < |init| && init[i] == c.after;
        assert added[i] == c.after;
      }
    }
  }

  lemma {:induction false} DeletesRise(removed: seq<Entry>, added: seq<Entry>, n: nat)
    requires Sorted(removed) && n <= |removed|
    ensures Rising(Deletes(removed, added, n))
  {
    if n > 0 {
      DeletesRise(removed, added, n - 1);
      forall c | c in Deletes(removed, added, n - 1) ensures Before(c.Anchor(), removed[n - 1].path) {
        DeleteIsUnpaired(removed, added, n - 1, c);
      }
    }
  }

  /** Two removed entries are never paired with the same added entry. */
  lemma PartnersDiffer(removed: seq<Entry>, added: seq<Entry>, i: nat, j: nat)
    requires Sorted(added) && i < j < |removed|
    requires Partner(removed, added, i).Some? && Partner(removed, added, j).Some?
    ensures Partner(removed, added, i).value.path != Partner(removed, added, j).value.path
  {
    var a, b := Partner(removed, added, i).value, Partner(removed, added, j).value;
    assert a in OfIdentity(added, removed[i].identity) && b in OfIdentity(added, removed[j].identity);
    if a.path == b.path {
      PathIsUnique(added, a, b);
      var id := removed[i].identity;
      assert id == removed[j].identity;
      RankIsUnique(added, id, |OfIdentity(removed[..i], id)|, |OfIdentity(removed[..j], id)|);
      assert removed[..j][..i] == removed[..i] && removed[..j][i] == removed[i];
      RankOf(removed[..j], i);
      assert false;
    }
  }

  lemma {:induction false} RenamesDiffer(removed: seq<Entry>, added: seq<Entry>, n: nat)
    requires Sorted(added) && n <= |removed|
    ensures DistinctAnchors(Renames(removed, added, n))
  {
    if n > 0 {
      RenamesDiffer(removed, added, n - 1);
      var p := Partner(removed, added, n - 1);
      if p.Some? {
        forall c | c in Renames(removed, added, n - 1) ensures c.Anchor() != p.value.path {
          RenameIsPaired(removed, added, n - 1, c);
          var i :| 0 <= i < n - 1 && removed[i] == c.before && Partner(removed, added, i) == Some(c.after);
          PartnersDiffer(removed, added, i, n - 1);
        }
      }
    }
  }

  lemma RisingIsDistinct(changes: seq<Change>)
    requires Rising(changes)
    ensures DistinctAnchors(changes)
  {
    forall i, j | 0 <= i < j < |changes| ensures changes[i].Anchor() != changes[j].Anchor() {
      Trichotomy(changes[i].Anchor(), changes[j].Anchor());
    }
  }

  lemma DistinctConcat(a: seq<Change>, b: seq<Change>)
    requires DistinctAnchors(a) && DistinctAnchors(b)
    requires forall c, d | c in a && d in b :: c.Anchor() != d.Anchor()
    ensures DistinctAnchors(a + b)
  {
  }

  lemma UnsortedAnchorsDiffer(base: seq<Entry>, candidate: seq<Entry>)
    requires Sorted(base) && Sorted(candidate)
    ensures DistinctAnchors(Unsorted(base, candidate))
  {
    var removed, added := Only(base, candidate), Only(candidate, base);
    var modified := Modified(base, ByPath(candidate));
    var renames := Renames(removed, added, |removed|);
    var deletes := Deletes(removed, added, |removed|);
    var creates := Creates(added, NewPaths(renames));
    OnlyIsSorted(base, candidate);
    OnlyIsSorted(candidate, base);
    ByPathFinds(candidate);
    ModifiedRises(base, ByPath(candidate));
    RisingIsDistinct(modified);
    DeletesRise(removed, added, |removed|);
    RisingIsDistinct(deletes);
    CreatesRise(added, NewPaths(renames));
    RisingIsDistinct(creates);
    RenamesDiffer(removed, added, |removed|);
    forall c | c in modified ensures c.Anchor() in PathsOf(base) && c.Anchor() in PathsOf(candidate) {
    }
    forall c | c in renames
      ensures c.Anchor() in PathsOf(candidate) && c.Anchor() !in PathsOf(base) && c.Anchor() in NewPaths(renames)
    {
      RenameIsPaired(removed, added, |removed|, c);
      PartnerIsPaired(removed, added, c.before, c.after);
      assert c.after in added;
    }
    forall c | c in deletes ensures c.Anchor() !in PathsOf(candidate) {
      DeleteIsUnpaired(removed, added, |removed|, c);
      assert c.before in removed;
    }
    DistinctConcat(modified, renames);
    DistinctConcat(modified + renames, deletes);
    DistinctConcat(modified + renames + deletes, creates);
  }

  /** What the loops compute is the delta, in the one order its anchors allow. */
  lemma {:induction false} DeltaIsExact(base: seq<Entry>, candidate: seq<Entry>)
    requires Sorted(base) && Sorted(candidate)
    ensures IsDelta(base, candidate, Delta(base, candidate))
  {
    UnsortedAnchorsDiffer(base, candidate);
    SortRises(Unsorted(base, candidate));
    forall c ensures c in Delta(base, candidate) <==> InDelta(base, candidate, c) {
      UnsortedIsDelta(base, candidate, c);
    }
  }
}
