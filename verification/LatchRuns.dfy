/** Runs of calls through many handles, cut short anywhere. */
module LatchRuns {
  import opened Basics
  import opened Trees
  import opened Materialise
  import opened Withholding
  import opened Latch

  datatype Op =
    | ReadFile(at: Components, maxBytes: nat)
    | WriteFile(at: Components, data: Bytes)
    | MakeDirectory(at: Components)
    | WorkOnTree(work: seq<Event>)
    | WithholdAll(faults: Faults)
    | ScrubFor(detector: Detector, faults: Faults)

  function Perform(s: Retained, m: Memory, op: Op): Call {
    match op
    case ReadFile(at, maxBytes) => Read(s, m, at, maxBytes)
    case WriteFile(at, data) => Write(s, m, at, data)
    case MakeDirectory(at) => EnsureDirectory(s, m, at)
    case WorkOnTree(work) => UseTree(s, m, work)
    case WithholdAll(faults) => Withhold(s, m, faults)
    case ScrubFor(detector, faults) => Scrub(s, m, faults, detector)
  }

  type Handle = nat

  /** One turn under the lock; `cut` is the number of durable writes before the process dies. */
  datatype Action = Open(handle: Handle) | Close(handle: Handle) | Do(handle: Handle, op: Op, cut: Option<nat>)

  datatype System = System(store: Retained, handles: map<Handle, Memory>)

  datatype Turn = Turn(system: System, log: seq<Event>, reply: Reply)

  function Take(y: System, a: Action): Turn {
    match a
    case Open(h) =>
      if y.store.marker == Unsafe then Turn(y, [], Failed)
      else Turn(y.(handles := y.handles[h := Memory(y.store.marker == Latched, false)]), [], Done)
    case Close(h) => Turn(y.(handles := y.handles - {h}), [], Done)
    case Do(h, op, cut) =>
      if h !in y.handles then Turn(y, [], Failed)
      else
        var call := Perform(y.store, y.handles[h], op);
        if cut.Some? && cut.value <= |call.log| then
          var done := call.log[..cut.value];
          Turn(System(Replay(y.store, done), y.handles - {h}), done, Failed)
        else
          Turn(System(Replay(y.store, call.log), y.handles[h := call.memory]), call.log, call.reply)
  }

  function After(y: System, actions: seq<Action>): System
    decreases |actions|
  {
    if actions == [] then y else After(Take(y, actions[0]).system, actions[1..])
  }

  /** Every durable write of a run, in order. */
  function LogOf(y: System, actions: seq<Action>): seq<Event>
    decreases |actions|
  {
    if actions == [] then [] else Take(y, actions[0]).log + LogOf(Take(y, actions[0]).system, actions[1..])
  }

  lemma {:induction false} RunIsReplay(y: System, actions: seq<Action>)
    ensures After(y, actions).store == Replay(y.store, LogOf(y, actions))
    decreases |actions|
  {
    if actions != [] {
      var t := Take(y, actions[0]);
      RunIsReplay(t.system, actions[1..]);
      ReplayConcat(y.store, t.log, LogOf(t.system, actions[1..]));
    }
  }

  // ---- The latch never clears, and nothing passes it ----

  /** Writes that add nothing: removals and the marker. */
  predicate OnlyTakes(log: seq<Event>) {
    forall e | e in log :: e.Remove? || e.PutMarker?
  }

  lemma {:induction false} EraseOnlyRemoves(n: Node, at: Components)
    ensures forall e | e in EraseLog(n, at) :: e.Remove?
    decreases n, 1, 0
  {
    if n.Dir? {
      EraseNamesOnlyRemoves(n, SortedNames(n.children.Keys), at);
    }
  }

  lemma {:induction false} EraseNamesOnlyRemoves(d: Node, names: seq<Bytes>, at: Components)
    requires d.Dir? && forall name | name in names :: name in d.children
    ensures forall e | e in EraseNames(d, names, at) :: e.Remove?
    decreases d, 0, |names|
  {
    if names != [] {
      EraseOnlyRemoves(d.children[names[0]], at + [names[0]]);
      EraseNamesOnlyRemoves(d, names[1..], at);
    }
  }

  lemma {:induction false} MarkerStays(s: Retained, log: seq<Event>)
    ensures s.marker == Latched || PutMarker in log ==> Replay(s, log).marker == Latched
    decreases |log|
  {
    if log != [] {
      MarkerStays(Apply(s, log[0]), log[1..]);
      assert log == [log[0]] + log[1..];
    }
  }

  lemma WithholdOnlyTakes(s: Retained, m: Memory, f: Faults)
    ensures OnlyTakes(Withhold(s, m, f).log) && Withhold(s, m, f).memory.withheld
  {
    EraseOnlyRemoves(s.tree, []);
  }

  lemma {:induction false} LatchedScrub(s: Retained, m: Memory, d: Detector, f: Faults)
    ensures OnlyTakes(Scrub(s, m, f, d).log)
    ensures !Scrub(s, m, f, d).reply.Content? && (m.withheld ==> Scrub(s, m, f, d).memory.withheld)
  {
    WithholdOnlyTakes(s, m, f);
    WithholdOnlyTakes(s, m.(scrubFailed := true), f);
  }

  /** A latched handle, or a latched store, yields no content and accepts none. */
  lemma {:induction false} LatchedCall(s: Retained, m: Memory, op: Op)
    requires m.withheld || s.marker == Latched
    ensures OnlyTakes(Perform(s, m, op).log)
    ensures !Perform(s, m, op).reply.Content? && (m.withheld ==> Perform(s, m, op).memory.withheld)
  {
    match op
    case WithholdAll(f) => WithholdOnlyTakes(s, m, f);
    case ScrubFor(d, f) => LatchedScrub(s, m, d, f);
    case _ =>
  }

  /** Once the marker is there it stays, and from then on no run reads or adds anything. */
  lemma {:induction false} LatchNeverClears(y: System, actions: seq<Action>)
    requires y.store.marker == Latched
    ensures After(y, actions).store.marker == Latched
    ensures OnlyTakes(LogOf(y, actions))
    ensures forall i | 0 <= i < |actions| :: !Take(After(y, actions[..i]), actions[i]).reply.Content?
    decreases |actions|
  {
    RunIsReplay(y, actions);
    MarkerStays(y.store, LogOf(y, actions));
    if actions != [] {
      var a, t := actions[0], Take(y, actions[0]);
      if a.Do? && a.handle in y.handles {
        LatchedCall(y.store, y.handles[a.handle], a.op);
      }
      MarkerStays(y.store, t.log);
      LatchNeverClears(t.system, actions[1..]);
      forall i | 0 <= i < |actions| ensures !Take(After(y, actions[..i]), actions[i]).reply.Content? {
        if i > 0 {
          assert actions[..i][0] == a && actions[..i][1..] == actions[1..][..i - 1];
          assert actions[1..][i - 1] == actions[i];
        }
      }
    }
  }

  /** Removing entries leaves the others as they were. */
  lemma {:induction false} TakingKeepsLeaves(s: Retained, log: seq<Event>, c: Components)
    requires OnlyTakes(log) && Exists(Replay(s, log).tree, c)
    ensures Exists(s.tree, c)
    ensures !Lookup(s.tree, c).value.Dir? ==> Lookup(Replay(s, log).tree, c) == Lookup(s.tree, c)
    decreases |log|
  {
    if log != [] {
      assert log[0] in log && forall e | e in log[1..] :: e in log;
      TakingKeepsLeaves(Apply(s, log[0]), log[1..], c);
      if log[0].Remove? {
        WithoutKeepsLeaves(s.tree, log[0].at, c);
      }
    }
  }

  lemma {:induction false} WithoutKeepsLeaves(n: Node, at: Components, c: Components)
    requires Exists(Without(n, at), c)
    ensures Exists(n, c)
    ensures !Lookup(n, c).value.Dir? ==> Lookup(Without(n, at), c) == Lookup(n, c)
    ensures Lookup(n, c).value.Dir? ==> Lookup(Without(n, at), c).value.Dir?
    decreases at
  {
    if at != [] && n.Dir? && at[0] in n.children && c != [] && c[0] == at[0] && |at| > 1 {
      WithoutKeepsLeaves(n.children[at[0]], at[1..], c[1..]);
    }
  }

  // ---- A partly erased tree is marked ----

  /** Whatever prefix of the log was made: if it removed anything, the marker is there. */
  ghost predicate MarkedWhenErased(s: Retained, log: seq<Event>) {
    forall k | 0 <= k <= |log| ::
      (exists e :: e in log[..k] && e.Remove?) ==> Replay(s, log[..k]).marker == Latched
  }

  ghost predicate Removes(log: seq<Event>) {
    exists e :: e in log && e.Remove?
  }

  /** A withholding, or a scrub that may come to one. */
  predicate Withholds(a: Action) {
    a.Do? && (a.op.WithholdAll? || a.op.ScrubFor?)
  }

  lemma LatchedKeepsMarked(s: Retained, log: seq<Event>)
    requires s.marker == Latched
    ensures MarkedWhenErased(s, log)
  {
    forall k | 0 <= k <= |log| ensures Replay(s, log[..k]).marker == Latched {
      MarkerStays(s, log[..k]);
    }
  }

  lemma MarkerFirstKeepsMarked(s: Retained, log: seq<Event>)
    requires log != [] && log[0] == PutMarker
    ensures MarkedWhenErased(s, log)
  {
    forall k | 0 < k <= |log| ensures Replay(s, log[..k]).marker == Latched {
      assert log[..k][0] == PutMarker;
      MarkerStays(s, log[..k]);
    }
  }

  lemma RemovalFirstIsUnmarked(s: Retained, log: seq<Event>)
    requires s.marker != Latched && log != [] && log[0].Remove?
    ensures !MarkedWhenErased(s, log)
  {
    assert log[..1] == [log[0]] && log[..1][1..] == [];
    assert log[0] in log[..1];
    assert Replay(s, log[..1]).marker == s.marker;
  }

  /** A withholding starts with the marker if that write takes effect, and otherwise with a removal. */
  lemma WithholdStarts(s: Retained, m: Memory, f: Faults)
    ensures var log := Withhold(s, m, f).log;
      && (f.firstMarker.Landed() ==> log != [] && log[0] == PutMarker)
      && (!f.firstMarker.Landed() && Erased(s.tree, f) != [] ==> log != [] && log[0].Remove?)
      && (!f.firstMarker.Landed() && Erased(s.tree, f) == [] ==> !Removes(log))
  {
    EraseOnlyRemoves(s.tree, []);
    if Erased(s.tree, f) != [] {
      assert Erased(s.tree, f)[0] in EraseLog(s.tree, []);
    }
  }

  lemma {:induction false} CutMarkedIff(s: Retained, m: Memory, f: Faults, k: nat)
    requires k <= |Withhold(s, m, f).log|
    ensures var log := Withhold(s, m, f).log[..k];
      MarkedWhenErased(s, log) <==> s.marker == Latched || f.firstMarker.Landed() || !Removes(log)
  {
    var log := Withhold(s, m, f).log[..k];
    WithholdStarts(s, m, f);
    if s.marker == Latched {
      LatchedKeepsMarked(s, log);
    } else if Removes(log) {
      assert log[0] == Withhold(s, m, f).log[0];
      if f.firstMarker.Landed() {
        MarkerFirstKeepsMarked(s, log);
      } else {
        assert forall e | e in log :: e in Withhold(s, m, f).log;
        RemovalFirstIsUnmarked(s, log);
      }
    } else {
      assert forall i | 0 <= i <= k :: forall e | e in log[..i] :: e in log;
    }
  }

  /**
   One withholding keeps "erased means marked" at every crash point exactly when the marker is there
   already, its first marker write takes effect, or it removes nothing.
   */
  lemma {:induction false} MarkedIffFirstMarker(s: Retained, m: Memory, f: Faults)
    ensures MarkedWhenErased(s, Withhold(s, m, f).log) <==>
            s.marker == Latched || f.firstMarker.Landed() || Erased(s.tree, f) == []
  {
    var log := Withhold(s, m, f).log;
    assert log[..|log|] == log;
    CutMarkedIff(s, m, f, |log|);
    WithholdStarts(s, m, f);
  }

  /** A withholding turn, or a scrubbing one, makes a part of one withholding. */
  lemma {:induction false} TurnIsCut(y: System, a: Action) returns (m: Memory, k: nat)
    requires Withholds(a)
    ensures var w := Withhold(y.store, m, a.op.faults); k <= |w.log| && Take(y, a).log == w.log[..k]
  {
    if a.handle !in y.handles {
      m, k := Memory(false, false), 0;
    } else {
      m := y.handles[a.handle];
      var w, call := Withhold(y.store, m, a.op.faults), Perform(y.store, m, a.op);
      assert call.log == [] || call.log == w.log;
      assert call.log[..|call.log|] == call.log;
      k := |Take(y, a).log|;
    }
  }

  function TurnAt(y: System, actions: seq<Action>, i: nat): Turn
    requires i < |actions|
  {
    Take(After(y, actions[..i]), actions[i])
  }

  lemma {:induction false} AfterConcat(y: System, a: seq<Action>, b: seq<Action>)
    ensures After(y, a + b) == After(After(y, a), b)
    decreases |a|
  {
    if a == [] {
      assert a + b == b;
    } else {
      assert (a + b)[1..] == a[1..] + b;
      AfterConcat(Take(y, a[0]).system, a[1..], b);
    }
  }

  lemma {:induction false} MarkedFromThen(y: System, actions: seq<Action>, i: nat, j: nat)
    requires i <= j <= |actions| && After(y, actions[..i]).store.marker == Latched
    ensures After(y, actions[..j]).store.marker == Latched
  {
    assert actions[..j] == actions[..i] + actions[i..j];
    AfterConcat(y, actions[..i], actions[i..j]);
    RunIsReplay(After(y, actions[..i]), actions[i..j]);
    MarkerStays(After(y, actions[..i]).store, LogOf(After(y, actions[..i]), actions[i..j]));
  }

  /** What a turn leaves is what its log makes of the store before it. */
  lemma {:induction false} TurnReplays(y: System, actions: seq<Action>, i: nat)
    requires i < |actions|
    ensures After(y, actions[..i + 1]).store == Replay(After(y, actions[..i]).store, TurnAt(y, actions, i).log)
  {
    assert actions[..i + 1] == actions[..i] + [actions[i]];
    AfterConcat(y, actions[..i], [actions[i]]);
    assert [actions[i]][1..] == [];
  }

  /**
   In every run, and whatever is done to a tree that was handed out: a withholding or scrubbing turn
   has the marker in place at every crash point after its first removal exactly when its own first
   marker write takes effect, or the marker was there before; and then it is there for the rest of the run.
   */
  lemma {:induction false} RunMarksFirst(y: System, actions: seq<Action>, i: nat)
    requires i < |actions| && Withholds(actions[i])
    ensures var s, log := After(y, actions[..i]).store, TurnAt(y, actions, i).log;
      && (MarkedWhenErased(s, log) <==> s.marker == Latched || actions[i].op.faults.firstMarker.Landed() || !Removes(log))
      && (MarkedWhenErased(s, log) && Removes(log) ==>
            forall j | i < j <= |actions| :: After(y, actions[..j]).store.marker == Latched)
  {
    var before := After(y, actions[..i]);
    var log := TurnAt(y, actions, i).log;
    var m, k := TurnIsCut(before, actions[i]);
    CutMarkedIff(before.store, m, actions[i].op.faults, k);
    if MarkedWhenErased(before.store, log) && Removes(log) {
      assert log[..|log|] == log;
      TurnReplays(y, actions, i);
      forall j | i < j <= |actions| ensures After(y, actions[..j]).store.marker == Latched {
        MarkedFromThen(y, actions, i + 1, j);
      }
    }
  }

  // ---- Withholding completes ----

  const FIRST: Bytes := [97]
  const SECOND: Bytes := [98]

  /** Two retained files, and no marker. */
  function TwoFiles(): Retained {
    Retained(Absent, Dir(PRIVATE_DIR_MODE, map[FIRST := File(PRIVATE_FILE_MODE, []), SECOND := File(PRIVATE_FILE_MODE, [7])]))
  }

  /** Both marker writes fail, and erasing fails after the first removal. */
  const NO_MARKER := Faults(Raised(false), Raised(false), Some(1))

  lemma {:induction false} ErasesOneOf(names: seq<Bytes>)
    requires names == SortedNames({FIRST, SECOND})
    ensures |Erased(TwoFiles().tree, NO_MARKER)| == 1 && Erased(TwoFiles().tree, NO_MARKER)[0].Remove?
    ensures Erased(TwoFiles().tree, NO_MARKER)[0].at in {[FIRST], [SECOND]}
  {
    var d := TwoFiles().tree;
    assert d.children.Keys == {FIRST, SECOND} && |{FIRST, SECOND}| == 2;
    assert EraseLog(d, []) == EraseNames(d, names, []);
    assert [] + [names[0]] == [names[0]] && names[0] in {FIRST, SECOND};
    EraseOnlyRemoves(d, []);
    assert EraseNames(d, names, [])[0] == Remove([names[0]]);
  }

  /** Removing one of two files of a directory leaves the other one to be read. */
  lemma OneIsLeft(n: Node, gone: Bytes, kept: Bytes, maxBytes: nat)
    requires n.Dir? && gone != kept && gone in n.children && kept in n.children
    requires n.children[kept].File? && |n.children[kept].payload| <= maxBytes
    ensures var left := Without(n, [gone]);
      && Exists(n, [gone]) && !Exists(left, [gone])
      && Read(Retained(Absent, left), Memory(false, false), [kept], maxBytes).reply == Content(n.children[kept].payload)
  {
    var left := Without(n, [gone]);
    assert left.children == n.children - {gone};
    assert [gone][1..] == [] && [kept][1..] == [];
    assert Lookup(left, [kept]) == Some(n.children[kept]);
  }

  /** A withholding that makes one removal and nothing else leaves an ordinary looking tree. */
  lemma {:induction false} OneRemovalIsSilent(s: Retained, m: Memory, f: Faults, gone: Bytes, kept: Bytes, maxBytes: nat)
    requires s.marker == Absent && Withhold(s, m, f).log == [Remove([gone])]
    requires s.tree.Dir? && gone != kept && gone in s.tree.children && kept in s.tree.children
    requires s.tree.children[kept].File? && |s.tree.children[kept].payload| <= maxBytes
    requires !f.firstMarker.Landed() && Erased(s.tree, f) != []
    ensures var s' := Replay(s, Withhold(s, m, f).log);
      && !MarkedWhenErased(s, Withhold(s, m, f).log)
      && s'.marker == Absent && Exists(s.tree, [gone]) && !Exists(s'.tree, [gone])
      && Read(s', Memory(false, false), [kept], maxBytes).reply == Content(s.tree.children[kept].payload)
  {
    OneIsLeft(s.tree, gone, kept, maxBytes);
    MarkedIffFirstMarker(s, m, f);
    assert [Remove([gone])][1..] == [];
    assert Replay(s, [Remove([gone])]) == Apply(s, Remove([gone]));
  }

  /** With both marker writes failing, a withholding writes what erasing writes. */
  lemma {:induction false} OnlyErases(s: Retained, m: Memory, f: Faults)
    requires !f.firstMarker.Landed() && !f.secondMarker.Landed()
    ensures Withhold(s, m, f).log == Erased(s.tree, f)
  {
  }

  lemma {:induction false} OneOfTwoGoes(m: Memory) returns (gone: Bytes, kept: Bytes)
    ensures gone != kept && gone in TwoFiles().tree.children && kept in TwoFiles().tree.children
    ensures Withhold(TwoFiles(), m, NO_MARKER).log == [Remove([gone])] == Erased(TwoFiles().tree, NO_MARKER)
  {
    OnlyErases(TwoFiles(), m, NO_MARKER);
    ErasesOneOf(SortedNames({FIRST, SECOND}));
    assert FIRST != SECOND;
    var removed := Erased(TwoFiles().tree, NO_MARKER)[0];
    gone := removed.at[0];
    kept := if gone == FIRST then SECOND else FIRST;
    assert removed == Remove([gone]);
  }

  /** The failing input: half of the tree is gone, nothing says so, and a new handle reads the rest. */
  lemma HalfErasedAndUnmarked(m: Memory) returns (gone: Bytes, kept: Bytes)
    ensures !MarkedWhenErased(TwoFiles(), Withhold(TwoFiles(), m, NO_MARKER).log)
    ensures var s := Replay(TwoFiles(), Withhold(TwoFiles(), m, NO_MARKER).log);
      && s.marker == Absent && Exists(TwoFiles().tree, [gone]) && !Exists(s.tree, [gone])
      && Read(s, Memory(false, false), [kept], 1).reply.Content?
  {
    gone, kept := OneOfTwoGoes(m);
    OneRemovalIsSilent(TwoFiles(), m, NO_MARKER, gone, kept, 1);
  }

  /** A withholding without faults, from whatever an earlier one left, ends marked and empty. */
  lemma WithholdCompletes(s: Retained, m: Memory, f: Faults)
    requires s.tree.Dir? && f.firstMarker.Written? && !EraseFails(s.tree, f)
    ensures var c := Withhold(s, m, f);
      && Replay(s, c.log) == Retained(Latched, s.tree.(children := map[]))
      && c.reply == Done && c.memory == Memory(true, m.scrubFailed)
  {
    var erase := EraseLog(s.tree, []);
    EraseEmpties(s.tree);
    assert Withhold(s, m, f).log == [PutMarker] + erase;
    ReplayConcat(s, [PutMarker], erase);
    var marked := Retained(Latched, s.tree);
    assert Replay(s, [PutMarker]) == marked by {
      assert [PutMarker][1..] == [];
    }
    EraseOnlyRemoves(s.tree, []);
    TreeIgnoresMarker(marked, Retained(Absent, s.tree), erase);
    MarkerStays(marked, erase);
  }

  lemma {:induction false} TreeIgnoresMarker(a: Retained, b: Retained, log: seq<Event>)
    requires a.tree == b.tree
    ensures Replay(a, log).tree == Replay(b, log).tree
    decreases |log|
  {
    if log != [] {
      TreeIgnoresMarker(Apply(a, log[0]), Apply(b, log[0]), log[1..]);
    }
  }

  /** Even when erasing fails, one marker write that takes effect is enough to leave the latch behind. */
  lemma {:induction false} WithholdLeavesLatch(s: Retained, m: Memory, f: Faults)
    ensures Replay(s, Withhold(s, m, f).log).marker == Latched <==>
            s.marker == Latched || f.firstMarker.Landed() || f.secondMarker.Landed()
  {
    var log := Withhold(s, m, f).log;
    EraseOnlyRemoves(s.tree, []);
    assert forall e | e in Erased(s.tree, f) :: e in EraseLog(s.tree, []);
    if f.firstMarker.Landed() || f.secondMarker.Landed() {
      assert f.firstMarker.Landed() ==> log[0] == PutMarker;
      assert !f.firstMarker.Landed() ==> log[|log| - 1] == PutMarker;
    } else {
      assert log == Erased(s.tree, f);
      NoMarkerWritten(s, log);
    }
    MarkerStays(s, log);
  }

  lemma {:induction false} NoMarkerWritten(s: Retained, log: seq<Event>)
    requires PutMarker !in log
    ensures Replay(s, log).marker == s.marker
    decreases |log|
  {
    if log != [] {
      assert log[0] in log && forall e | e in log[1..] :: e in log;
      NoMarkerWritten(Apply(s, log[0]), log[1..]);
    }
  }

  /**
   Whatever else a run did: once a withholding or scrubbing turn of it has removed something after its
   first marker write took effect, a handle opened at the end refuses to read.
   */
  lemma {:induction false} ReopenedIsWithheld(y: System, actions: seq<Action>, i: nat, h: Handle, at: Components, maxBytes: nat)
    requires i < |actions| && Withholds(actions[i]) && Removes(TurnAt(y, actions, i).log)
    requires actions[i].op.faults.firstMarker.Landed()
    ensures var z := After(y, actions + [Open(h)]);
      h in z.handles && z.handles[h].withheld && Perform(z.store, z.handles[h], ReadFile(at, maxBytes)).reply == Refused
  {
    RunMarksFirst(y, actions, i);
    assert actions[..|actions|] == actions;
    assert After(y, actions[..|actions|]).store.marker == Latched;
    AfterConcat(y, actions, [Open(h)]);
    assert [Open(h)][1..] == [];
  }
}
