/**
 `diff_manifests` as the loops it is, refining `Diff.Delta`.

 Dictionaries, queues and sets are maps, sequences and sets that the loops reassign.
 */
module DiffLoops {
  import opened Basics
  import opened Paths
  import opened Manifests
  import opened Diff
  import Sorting

  type Queues = map<Identity, seq<Entry>>

  function Waiting(queues: Queues, id: Identity): seq<Entry> {
    if id in queues then queues[id] else []
  }

  function Drop(entries: seq<Entry>, k: nat): seq<Entry> {
    if k <= |entries| then entries[k..] else []
  }

  lemma OnlyByTable(entries: seq<Entry>)
    requires Sorted(entries)
    ensures forall p :: p in PathsOf(entries) <==> p in ByPath(entries)
  {
    ByPathFinds(entries);
    forall p | p in ByPath(entries) ensures p in PathsOf(entries) {
      assert ByPath(entries)[p].path == p;
    }
  }

  method SelectOnly(entries: seq<Entry>, other: seq<Entry>) returns (kept: seq<Entry>)
    requires Sorted(other)
    ensures kept == Only(entries, other)
  {
    var table := ByPath(other);
    OnlyByTable(other);
    kept := [];
    for i := 0 to |entries|
      invariant kept == Select(entries[..i], Outside(PathsOf(other)))
    {
      SelectStep(entries, i, Outside(PathsOf(other)));
      if entries[i].path !in table {
        kept := kept + [entries[i]];
      }
    }
    assert entries[..|entries|] == entries;
  }

  method FindModified(base: seq<Entry>, candidate: seq<Entry>) returns (changes: seq<Change>)
    ensures changes == Modified(base, ByPath(candidate))
  {
    var table := ByPath(candidate);
    changes := [];
    for i := 0 to |base|
      invariant changes == Modified(base[..i], table)
    {
      assert base[..i + 1][..i] == base[..i];
      var before := base[i];
      if before.path in table && before != table[before.path] {
        changes := changes + [Modify(before, table[before.path])];
      }
    }
    assert base[..|base|] == base;
  }

  /** `added_by_identity`: the added entries of each identity, in path order. */
  method QueueByIdentity(added: seq<Entry>) returns (queues: Queues)
    ensures forall id :: Waiting(queues, id) == OfIdentity(added, id)
  {
    queues := map[];
    for i := 0 to |added|
      invariant forall id :: Waiting(queues, id) == OfIdentity(added[..i], id)
    {
      ghost var earlier := queues;
      var id := added[i].identity;
      if id !in queues {
        queues := queues[id := []];
      }
      queues := queues[id := queues[id] + [added[i]]];
      forall id' ensures Waiting(queues, id') == OfIdentity(added[..i + 1], id') {
        SelectStep(added, i, HasIdentity(id'));
        assert Waiting(earlier, id') == OfIdentity(added[..i], id');
      }
    }
    assert added[..|added|] == added;
  }

  /** After `i` removed entries, each queue has lost its first entries to those of its identity. */
  ghost predicate Left(queues: Queues, removed: seq<Entry>, added: seq<Entry>, i: nat)
    requires i <= |removed|
  {
    forall id :: Waiting(queues, id) == Drop(OfIdentity(added, id), |OfIdentity(removed[..i], id)|)
  }

  function Advance(queues: Queues, id: Identity): Queues {
    if Waiting(queues, id) == [] then queues else queues[id := queues[id][1..]]
  }

  lemma HeadIsPartner(queues: Queues, removed: seq<Entry>, added: seq<Entry>, i: nat)
    requires i < |removed| && Left(queues, removed, added, i)
    ensures var w := Waiting(queues, removed[i].identity);
      Partner(removed, added, i) == if w == [] then None else Some(w[0])
    ensures Left(Advance(queues, removed[i].identity), removed, added, i + 1)
  {
    var next := Advance(queues, removed[i].identity);
    forall id ensures Waiting(next, id) == Drop(OfIdentity(added, id), |OfIdentity(removed[..i + 1], id)|) {
      SelectStep(removed, i, HasIdentity(id));
      assert Waiting(queues, id) == Drop(OfIdentity(added, id), |OfIdentity(removed[..i], id)|);
    }
  }

  lemma NewPathsStep(changes: seq<Change>, c: Change)
    requires c.Adds()
    ensures NewPaths(changes + [c]) == NewPaths(changes) + {c.after.path}
  {
    assert forall d :: d in changes + [c] <==> d in changes || d == c;
  }

  /** Each removed entry takes the first added entry still waiting under its identity. */
  method PairRenames(removed: seq<Entry>, added: seq<Entry>)
    returns (renames: seq<Change>, deletes: seq<Change>, paired: set<Bytes>)
    ensures renames == Renames(removed, added, |removed|) && deletes == Deletes(removed, added, |removed|)
    ensures paired == NewPaths(renames)
  {
    var queues := QueueByIdentity(added);
    renames, deletes, paired := [], [], {};
    for i := 0 to |removed|
      invariant renames == Renames(removed, added, i) && deletes == Deletes(removed, added, i)
      invariant paired == NewPaths(renames)
      invariant Left(queues, removed, added, i)
    {
      HeadIsPartner(queues, removed, added, i);
      var before := removed[i];
      var matching := Waiting(queues, before.identity);
      if matching != [] {
        var after := matching[0];
        queues := queues[before.identity := matching[1..]];
        NewPathsStep(renames, Rename(before, after));
        paired := paired + {after.path};
        renames := renames + [Rename(before, after)];
      } else {
        deletes := deletes + [Delete(before)];
      }
    }
  }

  method FindCreates(added: seq<Entry>, paired: set<Bytes>) returns (creates: seq<Change>)
    ensures creates == Creates(added, paired)
  {
    creates := [];
    for i := 0 to |added|
      invariant creates == Creates(added[..i], paired)
    {
      assert added[..i + 1][..i] == added[..i];
      if added[i].path !in paired {
        creates := creates + [Create(added[i])];
      }
    }
    assert added[..|added|] == added;
  }

  method DiffManifests(base: seq<Entry>, candidate: seq<Entry>) returns (changes: seq<Change>)
    requires Sorted(base) && Sorted(candidate)
    ensures changes == Delta(base, candidate)
    ensures IsDelta(base, candidate, changes)
  {
    changes := FindModified(base, candidate);
    var removed := SelectOnly(base, candidate);
    var added := SelectOnly(candidate, base);
    var renames, deletes, paired := PairRenames(removed, added);
    var creates := FindCreates(added, paired);
    changes := changes + renames;
    changes := changes + deletes;
    changes := changes + creates;
    DeltaIsExact(base, candidate);
    changes := Sorting.Sort(KeyBefore, changes);
  }
}
