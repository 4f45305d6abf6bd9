/** Reconciling a candidate with its base under a frozen policy. */
module Reconcile {
  import opened Basics
  import opened Paths
  import opened Manifests
  import opened Diff
  import opened DiffLaws
  import opened DiffLoops
  import opened Policy

  datatype Reconciliation = Reconciliation(
    candidateDelta: seq<Change>, manifest: seq<Entry>, delta: seq<Change>,
    semantic: seq<Change>, opaqueChanges: seq<Change>, discarded: seq<Change>)

  datatype Outcome =
    | ProtectedPathChanged(paths: seq<Bytes>)
    | OverLimits
    | Reconciled(result: Reconciliation)

  function Keeps(policy: PathPolicy): Entry -> bool {
    (e: Entry) => policy.Classify(e.path) != DiscardOnly
  }

  function Disposed(policy: PathPolicy, d: Disposition): Change -> bool {
    (c: Change) => policy.ClassifyChange(c) == d
  }

  function TouchesClass(policy: PathPolicy, d: Disposition): Change -> bool {
    (c: Change) => exists p | p in ChangePaths(c) :: policy.Classify(p) == d
  }

  /** The protected paths of one change, in the order the change lists them. */
  function ProtectedPaths(policy: PathPolicy, paths: seq<Bytes>): (r: seq<Bytes>)
    ensures r == [] <==> forall p | p in paths :: policy.Classify(p) != Protected
  {
    if paths == [] then []
    else (if policy.Classify(paths[0]) == Protected then [paths[0]] else []) + ProtectedPaths(policy, paths[1..])
  }

  function FirstProtected(policy: PathPolicy, changes: seq<Change>): (r: seq<Bytes>)
    ensures r == [] <==> forall c | c in changes :: ProtectedPaths(policy, ChangePaths(c)) == []
  {
    if changes == [] then []
    else
      var hit := ProtectedPaths(policy, ChangePaths(changes[0]));
      if hit != [] then hit else FirstProtected(policy, changes[1..])
  }

  function Result(base: seq<Entry>, candidate: seq<Entry>, policy: PathPolicy): Reconciliation {
    var candidateDelta := Delta(base, candidate);
    var authoritative := Select(candidate, Keeps(policy));
    var delta := Delta(base, authoritative);
    Reconciliation(candidateDelta, authoritative, delta,
                   Select(delta, Disposed(policy, Semantic)), Select(delta, Disposed(policy, OpaqueNonsemantic)),
                   Select(candidateDelta, TouchesClass(policy, DiscardOnly)))
  }

  function ReconcileSpec(base: seq<Entry>, candidate: seq<Entry>, policy: PathPolicy, limits: Limits): Outcome {
    var hit := FirstProtected(policy, Delta(base, candidate));
    if hit != [] then ProtectedPathChanged(hit)
    else if !WithinLimits(Select(candidate, Keeps(policy)), limits) then OverLimits
    else Reconciled(Result(base, candidate, policy))
  }

  method SelectBy<T(!new)>(items: seq<T>, keep: T -> bool) returns (kept: seq<T>)
    ensures kept == Select(items, keep)
  {
    kept := [];
    for i := 0 to |items|
      invariant kept == Select(items[..i], keep)
    {
      SelectStep(items, i, keep);
      if keep(items[i]) {
        kept := kept + [items[i]];
      }
    }
    assert items[..|items|] == items;
  }

  method CheckProtection(policy: PathPolicy, changes: seq<Change>) returns (hit: seq<Bytes>)
    ensures hit == FirstProtected(policy, changes)
  {
    for i := 0 to |changes|
      invariant FirstProtected(policy, changes) == FirstProtected(policy, changes[i..])
    {
      hit := ProtectedPaths(policy, ChangePaths(changes[i]));
      if hit != [] {
        return;
      }
    }
    return [];
  }

  /** The authoritative changes by disposition, in their order. */
  method SplitDelta(policy: PathPolicy, delta: seq<Change>) returns (semantic: seq<Change>, opaqueChanges: seq<Change>)
    ensures semantic == Select(delta, Disposed(policy, Semantic))
    ensures opaqueChanges == Select(delta, Disposed(policy, OpaqueNonsemantic))
  {
    semantic, opaqueChanges := [], [];
    for i := 0 to |delta|
      invariant semantic == Select(delta[..i], Disposed(policy, Semantic))
      invariant opaqueChanges == Select(delta[..i], Disposed(policy, OpaqueNonsemantic))
    {
      SelectStep(delta, i, Disposed(policy, Semantic));
      SelectStep(delta, i, Disposed(policy, OpaqueNonsemantic));
      var disposition := policy.ClassifyChange(delta[i]);
      if disposition == OpaqueNonsemantic {
        opaqueChanges := opaqueChanges + [delta[i]];
      } else if disposition == Semantic {
        semantic := semantic + [delta[i]];
      }
    }
    assert delta[..|delta|] == delta;
  }

  method ReconcileCandidate(base: seq<Entry>, candidate: seq<Entry>, policy: PathPolicy, limits: Limits)
    returns (outcome: Outcome)
    requires ValidManifest(base) && ValidManifest(candidate)
    ensures outcome == ReconcileSpec(base, candidate, policy, limits)
    ensures outcome.Reconciled? ==> ValidManifest(outcome.result.manifest)
  {
    var candidateDelta := DiffManifests(base, candidate);
    var hit := CheckProtection(policy, candidateDelta);
    if hit != [] {
      return ProtectedPathChanged(hit);
    }
    var authoritative := SelectBy(candidate, Keeps(policy));
    if !WithinLimits(authoritative, limits) {
      return OverLimits;
    }
    SelectIsSorted(candidate, Keeps(policy));
    var delta := DiffManifests(base, authoritative);
    var semantic, opaqueChanges := SplitDelta(policy, delta);
    var discarded := SelectBy(candidateDelta, TouchesClass(policy, DiscardOnly));
    return Reconciled(Reconciliation(candidateDelta, authoritative, delta, semantic, opaqueChanges, discarded));
  }

  // ---- What reconciliation promises ----

  /** The two manifests hold different entries, or only one holds an entry, at this path. */
  predicate Differs(a: seq<Entry>, b: seq<Entry>, p: Bytes) {
    !(p in ByPath(a) <==> p in ByPath(b)) || (p in ByPath(a) && ByPath(a)[p] != ByPath(b)[p])
  }

  lemma {:induction false} DifferenceIsListed(base: seq<Entry>, candidate: seq<Entry>, p: Bytes)
    requires Sorted(base) && Sorted(candidate)
    ensures Differs(base, candidate, p) <==> exists c :: c in Delta(base, candidate) && c.Touches(p)
  {
    TouchedIffDifferent(base, candidate, p);
    DeltaIsExact(base, candidate);
  }

  /** A candidate is refused for protection exactly when some protected path differs. */
  lemma RefusedIffProtectedDiffers(base: seq<Entry>, candidate: seq<Entry>, policy: PathPolicy, limits: Limits)
    requires ValidManifest(base) && ValidManifest(candidate)
    ensures ReconcileSpec(base, candidate, policy, limits).ProtectedPathChanged? <==>
            exists p :: policy.Classify(p) == Protected && Differs(base, candidate, p)
  {
    var changes := Delta(base, candidate);
    if FirstProtected(policy, changes) != [] {
      var c :| c in changes && ProtectedPaths(policy, ChangePaths(c)) != [];
      var p :| p in ChangePaths(c) && policy.Classify(p) == Protected;
      assert c.Touches(p);
      DifferenceIsListed(base, candidate, p);
    }
    if p :| policy.Classify(p) == Protected && Differs(base, candidate, p) {
      DifferenceIsListed(base, candidate, p);
      var c :| c in changes && c.Touches(p);
      assert p in ChangePaths(c);
      assert ProtectedPaths(policy, ChangePaths(c)) != [];
    }
  }

  /** The authoritative manifest is the candidate without its discard-only entries. */
  lemma {:induction false} AuthoritativeIsFiltered(candidate: seq<Entry>, policy: PathPolicy, p: Bytes)
    requires Sorted(candidate)
    ensures var a := Select(candidate, Keeps(policy));
      && Sorted(a)
      && (p in ByPath(a) <==> p in ByPath(candidate) && policy.Classify(p) != DiscardOnly)
      && (p in ByPath(a) ==> ByPath(a)[p] == ByPath(candidate)[p])
  {
    var a := Select(candidate, Keeps(policy));
    SelectIsSorted(candidate, Keeps(policy));
    ByPathFinds(candidate);
    ByPathFinds(a);
    if p in ByPath(candidate) && policy.Classify(p) != DiscardOnly {
      assert ByPath(candidate)[p] in a;
    }
  }

  /** Protected paths are the same in the base, the candidate and the authoritative manifest. */
  lemma {:induction false} ProtectedIsUnchanged(base: seq<Entry>, candidate: seq<Entry>, policy: PathPolicy, limits: Limits, p: Bytes)
    requires ValidManifest(base) && ValidManifest(candidate) && policy.Classify(p) == Protected
    requires ReconcileSpec(base, candidate, policy, limits).Reconciled?
    ensures !Differs(base, candidate, p)
    ensures !Differs(base, ReconcileSpec(base, candidate, policy, limits).result.manifest, p)
  {
    RefusedIffProtectedDiffers(base, candidate, policy, limits);
    AuthoritativeIsFiltered(candidate, policy, p);
  }

  lemma {:induction false} NoneProtected(base: seq<Entry>, candidate: seq<Entry>, policy: PathPolicy, limits: Limits, c: Change)
    requires ValidManifest(base) && ValidManifest(candidate)
    requires ReconcileSpec(base, candidate, policy, limits).Reconciled?
    requires c in ReconcileSpec(base, candidate, policy, limits).result.delta
    ensures forall p | c.Touches(p) :: policy.Classify(p) != Protected
  {
    var a := Select(candidate, Keeps(policy));
    SelectIsSorted(candidate, Keeps(policy));
    forall p | c.Touches(p) && policy.Classify(p) == Protected ensures false {
      ProtectedIsUnchanged(base, candidate, policy, limits, p);
      DifferenceIsListed(base, a, p);
    }
  }

  /** Every path the change touches has disposition `d`. */
  ghost predicate AllPaths(policy: PathPolicy, c: Change, d: Disposition) {
    forall p | c.Touches(p) :: policy.Classify(p) == d
  }

  ghost predicate SomePath(policy: PathPolicy, c: Change, d: Disposition) {
    exists p :: c.Touches(p) && policy.Classify(p) == d
  }

  /** Protected if any path is; discard-only or opaque only if every path is; otherwise semantic. */
  lemma ClassifiedByPaths(policy: PathPolicy, c: Change)
    ensures policy.ClassifyChange(c) == Protected <==> SomePath(policy, c, Protected)
    ensures policy.ClassifyChange(c) == DiscardOnly <==> AllPaths(policy, c, DiscardOnly)
    ensures policy.ClassifyChange(c) == OpaqueNonsemantic <==> AllPaths(policy, c, OpaqueNonsemantic)
  {
    var dispositions := set p | p in ChangePaths(c) :: policy.Classify(p);
    var first := ChangePaths(c)[0];
    assert first in ChangePaths(c) && policy.Classify(first) in dispositions;
    forall d ensures d in dispositions <==> SomePath(policy, c, d) {
      if p :| c.Touches(p) && policy.Classify(p) == d { assert p in ChangePaths(c); }
    }
    forall d ensures dispositions == {d} <==> AllPaths(policy, c, d) {
      if AllPaths(policy, c, d) {
        assert forall x | x in dispositions :: x == d;
        assert dispositions == {d};
      }
      if dispositions == {d} {
        forall p | c.Touches(p) ensures policy.Classify(p) == d {
          assert p in ChangePaths(c) && policy.Classify(p) in dispositions;
        }
      }
    }
  }

  /** A discard-only change to the authoritative manifest can only be a deletion. */
  lemma {:induction false} DiscardsAreDeletions(base: seq<Entry>, candidate: seq<Entry>, policy: PathPolicy, c: Change)
    requires Sorted(base) && Sorted(candidate)
    requires c in Delta(base, Select(candidate, Keeps(policy))) && AllPaths(policy, c, DiscardOnly)
    ensures c.Delete? && policy.Classify(c.before.path) == DiscardOnly
  {
    var a := Select(candidate, Keeps(policy));
    SelectIsSorted(candidate, Keeps(policy));
    DeltaIsExact(base, a);
    ChangeFits(base, a, c);
    if c.Adds() {
      AuthoritativeIsFiltered(candidate, policy, c.after.path);
      assert c.Touches(c.after.path);
      assert false;
    }
    assert c.Touches(c.before.path);
  }

  datatype Kind = IsSemantic | IsOpaque | IsDiscardedDeletion

  ghost predicate InKind(r: Reconciliation, policy: PathPolicy, c: Change, k: Kind) {
    match k
    case IsSemantic => c in r.semantic
    case IsOpaque => c in r.opaqueChanges
    case IsDiscardedDeletion => c in r.delta && c.Delete? && policy.Classify(c.before.path) == DiscardOnly
  }

  /** A change without protected paths falls into one class by what it touches. */
  lemma ChangeSplits(policy: PathPolicy, delta: seq<Change>, c: Change)
    requires c in delta && !SomePath(policy, c, Protected)
    ensures c in Select(delta, Disposed(policy, Semantic)) <==>
            !AllPaths(policy, c, DiscardOnly) && !AllPaths(policy, c, OpaqueNonsemantic)
    ensures c in Select(delta, Disposed(policy, OpaqueNonsemantic)) <==> AllPaths(policy, c, OpaqueNonsemantic)
    ensures !(AllPaths(policy, c, DiscardOnly) && AllPaths(policy, c, OpaqueNonsemantic))
    ensures c.Delete? && policy.Classify(c.before.path) == DiscardOnly ==> AllPaths(policy, c, DiscardOnly)
  {
    ClassifiedByPaths(policy, c);
    assert ChangePaths(c)[0] in ChangePaths(c);
    assert c.Touches(ChangePaths(c)[0]);
  }

  lemma {:induction false} ResultSplits(base: seq<Entry>, candidate: seq<Entry>, policy: PathPolicy, c: Change)
    requires Sorted(base) && Sorted(candidate)
    requires c in Result(base, candidate, policy).delta && !SomePath(policy, c, Protected)
    ensures var r := Result(base, candidate, policy);
      exists k :: InKind(r, policy, c, k) && forall k' | InKind(r, policy, c, k') :: k == k'
  {
    var r := Result(base, candidate, policy);
    ChangeSplits(policy, r.delta, c);
    if AllPaths(policy, c, DiscardOnly) {
      DiscardsAreDeletions(base, candidate, policy, c);
      assert InKind(r, policy, c, IsDiscardedDeletion);
    } else if AllPaths(policy, c, OpaqueNonsemantic) {
      assert InKind(r, policy, c, IsOpaque);
    } else {
      assert InKind(r, policy, c, IsSemantic);
    }
  }

  /** The authoritative delta splits into semantic, opaque and discard-only deletions. */
  lemma {:induction false} DeltaSplits(base: seq<Entry>, candidate: seq<Entry>, policy: PathPolicy, limits: Limits, c: Change)
    requires ValidManifest(base) && ValidManifest(candidate)
    requires ReconcileSpec(base, candidate, policy, limits).Reconciled?
    ensures var r := ReconcileSpec(base, candidate, policy, limits).result;
      && (c in r.delta ==> exists k :: InKind(r, policy, c, k) && forall k' | InKind(r, policy, c, k') :: k == k')
      && forall k | InKind(r, policy, c, k) :: c in r.delta
  {
    if c in Result(base, candidate, policy).delta {
      NoneProtected(base, candidate, policy, limits, c);
      ResultSplits(base, candidate, policy, c);
    }
  }

  lemma {:induction false} DiscardedDifference(base: seq<Entry>, candidate: seq<Entry>, policy: PathPolicy, p: Bytes)
    requires Sorted(base) && Sorted(candidate) && Differs(base, candidate, p) && policy.Classify(p) == DiscardOnly
    ensures exists c :: c in Result(base, candidate, policy).discarded && c.Touches(p)
  {
    DifferenceIsListed(base, candidate, p);
    var c :| c in Delta(base, candidate) && c.Touches(p);
    assert p in ChangePaths(c);
  }

  /** No change a candidate makes is dropped in silence. */
  lemma {:induction false} NothingIsLost(base: seq<Entry>, candidate: seq<Entry>, policy: PathPolicy, limits: Limits, p: Bytes)
    requires ValidManifest(base) && ValidManifest(candidate) && Differs(base, candidate, p)
    requires ReconcileSpec(base, candidate, policy, limits).Reconciled?
    ensures var r := ReconcileSpec(base, candidate, policy, limits).result;
      match policy.Classify(p)
      case Protected => false
      case Semantic => exists c :: c in r.semantic && c.Touches(p)
      case OpaqueNonsemantic => exists c :: (c in r.semantic || c in r.opaqueChanges) && c.Touches(p)
      case DiscardOnly => exists c :: c in r.discarded && c.Touches(p)
  {
    if policy.Classify(p) == Protected {
      RefusedIffProtectedDiffers(base, candidate, policy, limits);
    } else if policy.Classify(p) == DiscardOnly {
      DiscardedDifference(base, candidate, policy, p);
    } else {
      SurvivingDifference(base, candidate, policy, limits, p);
    }
  }

  lemma {:induction false} SurvivingDifference(base: seq<Entry>, candidate: seq<Entry>, policy: PathPolicy, limits: Limits, p: Bytes)
    requires ValidManifest(base) && ValidManifest(candidate) && Differs(base, candidate, p)
    requires ReconcileSpec(base, candidate, policy, limits).Reconciled? && policy.Classify(p) != DiscardOnly
    ensures var r := ReconcileSpec(base, candidate, policy, limits).result;
      exists c :: (c in r.semantic || (c in r.opaqueChanges && policy.Classify(p) == OpaqueNonsemantic)) && c.Touches(p)
  {
    var r := ReconcileSpec(base, candidate, policy, limits).result;
    AuthoritativeIsFiltered(candidate, policy, p);
    DifferenceIsListed(base, r.manifest, p);
    var c :| c in r.delta && c.Touches(p);
    NoneProtected(base, candidate, policy, limits, c);
    ClassifiedByPaths(policy, c);
  }

  lemma {:induction false} SelectWeighsLess(entries: seq<Entry>, keep: Entry -> bool)
    ensures |Select(entries, keep)| <= |entries| && TotalWeight(Select(entries, keep)) <= TotalWeight(entries)
  {
    if entries != [] {
      var init := Select(entries[..|entries| - 1], keep);
      SelectWeighsLess(entries[..|entries| - 1], keep);
      assert (init + [Last(entries)])[..|init|] == init;
    }
  }

  /** A candidate within the limits is reconciled exactly when its protected paths are untouched. */
  lemma {:induction false} ReconciledIffProtected(base: seq<Entry>, candidate: seq<Entry>, policy: PathPolicy, limits: Limits)
    requires ValidManifest(base) && ValidManifest(candidate) && WithinLimits(candidate, limits)
    ensures ReconcileSpec(base, candidate, policy, limits).Reconciled? <==>
            forall p | policy.Classify(p) == Protected :: !Differs(base, candidate, p)
  {
    RefusedIffProtectedDiffers(base, candidate, policy, limits);
    SelectWeighsLess(candidate, Keeps(policy));
  }

  lemma {:induction false} SelectAll(entries: seq<Entry>, keep: Entry -> bool)
    requires forall e | e in entries :: keep(e)
    ensures Select(entries, keep) == entries
  {
    if entries != [] {
      assert keep(Last(entries));
      SelectAll(entries[..|entries| - 1], keep);
    }
  }

  /** Reconciling the authoritative manifest again accepts it and returns it with the same delta. */
  lemma {:induction false} ReconcileIsIdempotent(base: seq<Entry>, candidate: seq<Entry>, policy: PathPolicy, limits: Limits)
    requires ValidManifest(base) && ValidManifest(candidate)
    requires ReconcileSpec(base, candidate, policy, limits).Reconciled?
    ensures var r := ReconcileSpec(base, candidate, policy, limits).result;
      var again := ReconcileSpec(base, r.manifest, policy, limits);
      && again.Reconciled? && again.result.manifest == r.manifest && again.result.delta == r.delta
      && again.result.candidateDelta == r.delta
      && again.result.semantic == r.semantic && again.result.opaqueChanges == r.opaqueChanges
  {
    var r := ReconcileSpec(base, candidate, policy, limits).result;
    SelectIsSorted(candidate, Keeps(policy));
    SelectAll(r.manifest, Keeps(policy));
    RefusedIffProtectedDiffers(base, r.manifest, policy, limits);
    forall p | policy.Classify(p) == Protected ensures !Differs(base, r.manifest, p) {
      ProtectedIsUnchanged(base, candidate, policy, limits, p);
    }
  }
}
