/** Installing a pair outside the journal: first bootstrap and explicit repair. */
module PairEnrollment {
  // Both write the Codex credential, the Claude credential and the marker, and undo all of it when one
  // of them fails.

  import opened Basics
  import opened PairDisk
  import opened PairProtocol
  import opened PairSafety
  import opened PairStatus

  datatype Step =
    | MakeRoot(vendor: Vendor)
    | PutCredential(vendor: Vendor, bytes: Bytes)
    | RemoveCredential(vendor: Vendor)
    | PutMarkerFile(marker: MarkerFile)
    | RemoveMarkerFile
    | RemoveRoot(vendor: Vendor)

  function Take(d: Disk, s: Step): Disk {
    match s
    case MakeRoot(v) => d.WithAccount(v, d.accounts.At(v).(root := true))
    case PutCredential(v, bytes) => d.WithAccount(v, d.accounts.At(v).(durable := Some(bytes)))
    case RemoveCredential(v) => d.WithAccount(v, d.accounts.At(v).(durable := None))
    case PutMarkerFile(m) => d.(marker := m)
    case RemoveMarkerFile => d.(marker := NoMarker)
    case RemoveRoot(v) => d.WithAccount(v, Account(false, None, map[]))
  }

  function TakeAll(d: Disk, steps: seq<Step>): Disk
    decreases |steps|
  {
    if steps == [] then d else TakeAll(Take(d, steps[0]), steps[1..])
  }

  /** At most one write raises; a raising write may or may not have replaced the file already. */
  datatype Fault = NoFault | Raises(write: nat, replaced: bool)

  /** The steps made before the fault, and whether all of them were. */
  function Attempt(steps: seq<Step>, fault: Fault): (seq<Step>, bool) {
    match fault
    case NoFault => (steps, true)
    case Raises(i, replaced) =>
      if i < |steps| then (steps[..if replaced then i + 1 else i], false) else (steps, true)
  }

  predicate ValidSources(env: Env, sources: Pair<Option<Bytes>>) {
    && sources.codex.Some? && env.valid(Codex, sources.codex.value)
    && sources.claude.Some? && env.valid(Claude, sources.claude.value)
  }

  function InstallSteps(env: Env, codex: Bytes, claude: Bytes): seq<Step> {
    [PutCredential(Codex, codex), PutCredential(Claude, claude), PutMarkerFile(Names(Hashes(env, codex, claude)))]
  }

  function UndoCredential(v: Vendor, before: Option<Bytes>): Step {
    if before.None? then RemoveCredential(v) else PutCredential(v, before.value)
  }

  function UndoMarker(before: MarkerFile): Step {
    if before == NoMarker then RemoveMarkerFile else PutMarkerFile(before)
  }

  function UndoSteps(d: Disk): seq<Step> {
    [UndoCredential(Codex, d.Durable(Codex)), UndoCredential(Claude, d.Durable(Claude)), UndoMarker(d.marker)]
  }

  function DropNewRoots(d: Disk): seq<Step> {
    (if d.accounts.codex.root then [] else [RemoveRoot(Codex)])
    + (if d.accounts.claude.root then [] else [RemoveRoot(Claude)])
  }

  /** `repair_default_cli_credentials`: the steps made, and whether the pair was installed. */
  function Repair(env: Env, d: Disk, sources: Pair<Option<Bytes>>, fault: Fault): (seq<Step>, bool) {
    if d.journal != NoJournal || d.Pending(Claude).Keys != {} || d.Pending(Codex).Keys != {}
       || !ValidSources(env, sources) then (DropNewRoots(d), false)
    else
      var roots := [MakeRoot(Claude), MakeRoot(Codex)];
      if (d.Durable(Codex).Some? && !env.valid(Codex, d.Durable(Codex).value))
         || (d.Durable(Claude).Some? && !env.valid(Claude, d.Durable(Claude).value)) then
        (roots + DropNewRoots(d), false)
      else
        var (writes, complete) := Attempt(InstallSteps(env, sources.codex.value, sources.claude.value), fault);
        if complete then (roots + writes, true)
        else
          (roots + writes + UndoSteps(d) + DropNewRoots(d) + DropNewRoots(d), false)
  }

  predicate WhollyAbsent(d: Disk) {
    !d.accounts.codex.root && !d.accounts.claude.root && d.marker == NoMarker && d.journal == NoJournal
  }

  /** `auto_enroll_default_cli_credentials`: only a wholly absent pair is ever written. */
  function Bootstrap(env: Env, d: Disk, sources: Pair<Option<Bytes>>, fault: Fault): (seq<Step>, bool) {
    var undo := [RemoveMarkerFile, RemoveRoot(Codex), RemoveRoot(Claude)];
    if !WhollyAbsent(d) then ([], false)
    else if !ValidSources(env, sources) then (undo, false)
    else
      var roots := [MakeRoot(Claude), MakeRoot(Codex)];
      if d.Pending(Claude).Keys != {} || d.Pending(Codex).Keys != {}
         || d.Durable(Codex).Some? || d.Durable(Claude).Some? then (roots + undo, false)
      else
        var (writes, complete) := Attempt(InstallSteps(env, sources.codex.value, sources.claude.value), fault);
        if complete then (roots + writes, true) else (roots + writes + undo, false)
  }

  lemma {:induction false} TakeAllConcat(d: Disk, a: seq<Step>, b: seq<Step>)
    ensures TakeAll(d, a + b) == TakeAll(TakeAll(d, a), b)
    decreases |a|
  {
    if a == [] {
      assert a + b == b;
    } else {
      assert (a + b)[1..] == a[1..] + b;
      TakeAllConcat(Take(d, a[0]), a[1..], b);
    }
  }

  /** Equal except for the two credentials, the marker and whether the roots exist. */
  ghost predicate SameElsewhere(d: Disk, d': Disk) {
    && d'.journal == d.journal
    && (forall v :: d'.Pending(v) == d.Pending(v))
  }

  lemma {:induction false} InstallingTouchesOnlyThePair(d: Disk, steps: seq<Step>)
    requires forall k | 0 <= k < |steps| :: steps[k].MakeRoot? || steps[k].PutCredential? || steps[k].PutMarkerFile?
    ensures SameElsewhere(d, TakeAll(d, steps))
    ensures forall v :: d.accounts.At(v).root ==> TakeAll(d, steps).accounts.At(v).root
    decreases |steps|
  {
    if steps != [] {
      InstallingTouchesOnlyThePair(Take(d, steps[0]), steps[1..]);
    }
  }

  lemma TakeOne(d: Disk, s: Step)
    ensures TakeAll(d, [s]) == Take(d, s)
  {
    assert TakeAll(Take(d, s), [s][1..]) == Take(d, s);
  }

  lemma DroppingNewRoots(d: Disk, d': Disk)
    requires Rooted(d) && d'.marker == d.marker && d'.journal == d.journal
    requires forall v :: d.accounts.At(v).root ==> d'.accounts.At(v) == d.accounts.At(v)
    ensures TakeAll(d', DropNewRoots(d)) == d
  {
    var a := if d.accounts.codex.root then [] else [RemoveRoot(Codex)];
    var b := if d.accounts.claude.root then [] else [RemoveRoot(Claude)];
    TakeOne(d', RemoveRoot(Codex));
    TakeOne(d', RemoveRoot(Claude));
    TakeOne(Take(d', RemoveRoot(Codex)), RemoveRoot(Claude));
    TakeAllConcat(d', a, b);
    assert d.accounts.At(Codex) == d.accounts.codex && d'.accounts.At(Codex) == d'.accounts.codex;
    assert d.accounts.At(Claude) == d.accounts.claude && d'.accounts.At(Claude) == d'.accounts.claude;
  }

  lemma TakeThree(d: Disk, a: Step, b: Step, c: Step)
    ensures TakeAll(d, [a, b, c]) == Take(Take(Take(d, a), b), c)
  {
    TakeAllConcat(d, [a], [b] + [c]);
    TakeAllConcat(Take(d, a), [b], [c]);
    TakeOne(d, a);
    TakeOne(Take(d, a), b);
    TakeOne(Take(Take(d, a), b), c);
    assert [a, b, c] == [a] + ([b] + [c]);
  }

  lemma UndoRestoresPair(d: Disk, d': Disk)
    requires SameElsewhere(d, d') && forall v :: d.accounts.At(v).root ==> d'.accounts.At(v).root
    ensures var d'' := TakeAll(d', UndoSteps(d));
      && d''.marker == d.marker && d''.journal == d.journal
      && forall v :: d.accounts.At(v).root ==> d''.accounts.At(v) == d.accounts.At(v)
  {
    var undo := UndoSteps(d);
    TakeThree(d', undo[0], undo[1], undo[2]);
    forall v | d.accounts.At(v).root
      ensures TakeAll(d', undo).accounts.At(v) == d.accounts.At(v)
    {
      assert d'.accounts.At(v).root && d'.Pending(v) == d.Pending(v);
    }
  }

  /** Whatever prefix of the roots and the three writes was made, undoing it restores the disk. */
  lemma UndoRestores(d: Disk, steps: seq<Step>)
    requires Rooted(d)
    requires forall k | 0 <= k < |steps| :: steps[k].MakeRoot? || steps[k].PutCredential? || steps[k].PutMarkerFile?
    ensures TakeAll(d, steps + UndoSteps(d) + DropNewRoots(d)) == d
  {
    InstallingTouchesOnlyThePair(d, steps);
    var d1 := TakeAll(d, steps);
    UndoRestoresPair(d, d1);
    TakeAllConcat(d, steps, UndoSteps(d));
    TakeAllConcat(d, steps + UndoSteps(d), DropNewRoots(d));
    DroppingNewRoots(d, TakeAll(d1, UndoSteps(d)));
  }

  /** A repair that fails, at any of its writes or before them, leaves the disk as it found it. */
  lemma RepairIsExceptionAtomic(env: Env, d: Disk, sources: Pair<Option<Bytes>>, fault: Fault)
    requires Rooted(d)
    ensures !Repair(env, d, sources, fault).1 ==> TakeAll(d, Repair(env, d, sources, fault).0) == d
  {
    DroppingNewRoots(d, d);
    var roots := [MakeRoot(Claude), MakeRoot(Codex)];
    var r := Repair(env, d, sources, fault);
    if r.0 == roots + DropNewRoots(d) {
      InstallingTouchesOnlyThePair(d, roots);
      TakeAllConcat(d, [roots[0]], [roots[1]]);
      TakeOne(d, roots[0]);
      TakeOne(Take(d, roots[0]), roots[1]);
      assert roots == [roots[0]] + [roots[1]];
      TakeAllConcat(d, roots, DropNewRoots(d));
      DroppingNewRoots(d, TakeAll(d, roots));
    } else if !r.1 && ValidSources(env, sources) && r.0 != DropNewRoots(d) {
      var writes := Attempt(InstallSteps(env, sources.codex.value, sources.claude.value), fault).0;
      UndoRestores(d, roots + writes);
      TakeAllConcat(d, roots + writes + UndoSteps(d) + DropNewRoots(d), DropNewRoots(d));
    }
  }

  /** A bootstrap that fails leaves a wholly absent pair wholly absent, and never touches any other. */
  lemma BootstrapIsExceptionAtomic(env: Env, d: Disk, sources: Pair<Option<Bytes>>, fault: Fault)
    requires Rooted(d)
    ensures !Bootstrap(env, d, sources, fault).1 ==> TakeAll(d, Bootstrap(env, d, sources, fault).0) == d
    ensures Bootstrap(env, d, sources, fault).1 ==> WhollyAbsent(d)
  {
    var r := Bootstrap(env, d, sources, fault);
    if !r.1 && r.0 != [] {
      var undo := [RemoveMarkerFile, RemoveRoot(Codex), RemoveRoot(Claude)];
      var steps := r.0[..|r.0| - 3];
      assert d.accounts.At(Codex) == Account(false, None, map[]) && d.accounts.At(Claude) == Account(false, None, map[]);
      assert r.0 == steps + undo;
      InstallingTouchesOnlyThePair(d, steps);
      TakeAllConcat(d, steps, undo);
      TakeThree(TakeAll(d, steps), undo[0], undo[1], undo[2]);
    }
  }

  lemma InstallOutcome(env: Env, d: Disk, codex: Bytes, claude: Bytes)
    ensures var d' := TakeAll(d, [MakeRoot(Claude), MakeRoot(Codex)] + InstallSteps(env, codex, claude));
      && d'.marker == Names(Hashes(env, codex, claude)) && d'.journal == d.journal
      && d'.accounts.codex == Account(true, Some(codex), d.accounts.codex.pending)
      && d'.accounts.claude == Account(true, Some(claude), d.accounts.claude.pending)
  {
    var roots := [MakeRoot(Claude), MakeRoot(Codex)];
    var steps := InstallSteps(env, codex, claude);
    TakeAllConcat(d, roots, steps);
    TakeAllConcat(d, [roots[0]], [roots[1]]);
    TakeOne(d, roots[0]);
    TakeOne(Take(d, roots[0]), roots[1]);
    assert roots == [roots[0]] + [roots[1]];
    TakeThree(TakeAll(d, roots), steps[0], steps[1], steps[2]);
  }

  /** A repair that returns leaves the new pair committed and reported ready. */
  lemma RepairInstalls(env: Env, d: Disk, sources: Pair<Option<Bytes>>, fault: Fault)
    requires Repair(env, d, sources, fault).1
    ensures var d' := TakeAll(d, Repair(env, d, sources, fault).0);
      && Committed(env, d') && Status(env, d') == Ready
      && d'.Durable(Codex) == sources.codex && d'.Durable(Claude) == sources.claude
  {
    var writes := Attempt(InstallSteps(env, sources.codex.value, sources.claude.value), fault).0;
    assert writes == InstallSteps(env, sources.codex.value, sources.claude.value);
    InstallOutcome(env, d, sources.codex.value, sources.claude.value);
  }

  // ---- Hard crashes, between any two steps of an attempt and of its rollback ----

  /** The marker files that these steps may put in place. */
  function MarkersOf(steps: seq<Step>): set<MarkerFile> {
    set s | s in steps && s.PutMarkerFile? :: s.marker
  }

  /** After any number of steps the marker is the first one, none at all, or one that a step put. */
  lemma {:induction false} MarkerAfter(d: Disk, steps: seq<Step>, k: nat)
    requires k <= |steps|
    ensures TakeAll(d, steps[..k]).marker in {d.marker, NoMarker} + MarkersOf(steps)
    decreases k
  {
    if k > 0 {
      MarkerAfter(d, steps, k - 1);
      assert steps[..k] == steps[..k - 1] + [steps[k - 1]];
      TakeAllConcat(d, steps[..k - 1], [steps[k - 1]]);
      TakeOne(TakeAll(d, steps[..k - 1]), steps[k - 1]);
      assert steps[k - 1] in steps;
    }
  }

  /** No step touches the journal, and no step adds a transaction. */
  lemma {:induction false} NothingPendingAfter(d: Disk, steps: seq<Step>, k: nat)
    requires k <= |steps| && d.Pending(Codex).Keys == {} && d.Pending(Claude).Keys == {}
    ensures var d' := TakeAll(d, steps[..k]);
      d'.journal == d.journal && d'.Pending(Codex).Keys == {} && d'.Pending(Claude).Keys == {}
    decreases k
  {
    if k > 0 {
      NothingPendingAfter(d, steps, k - 1);
      assert steps[..k] == steps[..k - 1] + [steps[k - 1]];
      TakeAllConcat(d, steps[..k - 1], [steps[k - 1]]);
      TakeOne(TakeAll(d, steps[..k - 1]), steps[k - 1]);
    }
  }

  /** `Ready` is only reported where the marker names the hashes of both current files. */
  lemma ReadyIsNamed(env: Env, d: Disk)
    requires Status(env, d) == Ready
    ensures Committed(env, d) && d.marker.Names?
  {
  }

  lemma RepairMarkers(env: Env, d: Disk, sources: Pair<Option<Bytes>>, fault: Fault)
    ensures MarkersOf(Repair(env, d, sources, fault).0) <=
      {d.marker} + (if ValidSources(env, sources)
                    then {Names(Hashes(env, sources.codex.value, sources.claude.value))} else {})
  {
    if ValidSources(env, sources) {
      var steps := InstallSteps(env, sources.codex.value, sources.claude.value);
      forall s | s in Attempt(steps, fault).0 ensures s in steps {
      }
    }
  }

  /** The two files are the ones of the pair that the marker named before, or the new ones. */
  ghost predicate OneOfTheTwo(env: Env, d: Disk, crashed: Disk, sources: Pair<Option<Bytes>>) {
    || crashed.marker == d.marker
    || (ValidSources(env, sources) && crashed.marker == Names(Hashes(env, sources.codex.value, sources.claude.value)))
  }

  /**
   A hard crash at any step of a repair, or of its rollback, from any disk: `Ready` is reported only
   where the marker names both current files, and is the old marker or the one of the new pair.  A
   crash never makes up a recovery that was not pending before.
   */
  lemma RepairCrashIsNeverMixed(env: Env, d: Disk, sources: Pair<Option<Bytes>>, fault: Fault, k: nat)
    requires k <= |Repair(env, d, sources, fault).0|
    ensures var crashed := TakeAll(d, Repair(env, d, sources, fault).0[..k]);
      && (Status(env, crashed) == Ready ==> Committed(env, crashed) && OneOfTheTwo(env, d, crashed, sources))
      && (d.journal == NoJournal && d.Pending(Codex).Keys == {} && d.Pending(Claude).Keys == {} ==>
            Status(env, crashed) != RecoveryPending)
  {
    var crashed := TakeAll(d, Repair(env, d, sources, fault).0[..k]);
    if d.journal == NoJournal && d.Pending(Codex).Keys == {} && d.Pending(Claude).Keys == {} {
      NothingPendingAfter(d, Repair(env, d, sources, fault).0, k);
    }
    MarkerAfter(d, Repair(env, d, sources, fault).0, k);
    RepairMarkers(env, d, sources, fault);
    if Status(env, crashed) == Ready { ReadyIsNamed(env, crashed); }
  }

  /** Without hash collisions one marker names one pair of files. */
  lemma NamedOnce(env: Env, a: Disk, b: Disk)
    requires CollisionFree(env) && Named(env, a) && Named(env, b) && a.marker == b.marker
    ensures a.Durable(Codex) == b.Durable(Codex) && a.Durable(Claude) == b.Durable(Claude)
  {
  }

  /** The files themselves: over a pair that the old marker names, `Ready` means the old or the new files. */
  lemma RepairCrashKeepsBytes(env: Env, d: Disk, sources: Pair<Option<Bytes>>, fault: Fault, k: nat)
    requires k <= |Repair(env, d, sources, fault).0| && CollisionFree(env)
    ensures var crashed := TakeAll(d, Repair(env, d, sources, fault).0[..k]);
      Status(env, crashed) == Ready ==>
        || (crashed.Durable(Codex) == sources.codex && crashed.Durable(Claude) == sources.claude)
        || (crashed.marker == d.marker
            && (Named(env, d) ==> crashed.Durable(Codex) == d.Durable(Codex) && crashed.Durable(Claude) == d.Durable(Claude)))
  {
    var crashed := TakeAll(d, Repair(env, d, sources, fault).0[..k]);
    RepairCrashIsNeverMixed(env, d, sources, fault, k);
    if Status(env, crashed) == Ready && crashed.marker == d.marker && Named(env, d) {
      NamedOnce(env, crashed, d);
    }
  }

  lemma BootstrapMarkers(env: Env, d: Disk, sources: Pair<Option<Bytes>>, fault: Fault)
    ensures MarkersOf(Bootstrap(env, d, sources, fault).0) <=
      (if WhollyAbsent(d) && ValidSources(env, sources)
       then {Names(Hashes(env, sources.codex.value, sources.claude.value))} else {})
  {
    if ValidSources(env, sources) {
      var steps := InstallSteps(env, sources.codex.value, sources.claude.value);
      forall s | s in Attempt(steps, fault).0 ensures s in steps {
      }
    }
  }

  /** A hard crash at any step of a bootstrap or of its rollback: nothing was written, or `Ready` means the new pair. */
  lemma BootstrapCrashIsNeverMixed(env: Env, d: Disk, sources: Pair<Option<Bytes>>, fault: Fault, k: nat)
    requires k <= |Bootstrap(env, d, sources, fault).0|
    ensures !WhollyAbsent(d) ==> Bootstrap(env, d, sources, fault).0 == []
    ensures var crashed := TakeAll(d, Bootstrap(env, d, sources, fault).0[..k]);
      WhollyAbsent(d) && Status(env, crashed) == Ready ==>
        && Committed(env, crashed) && ValidSources(env, sources)
        && crashed.marker == Names(Hashes(env, sources.codex.value, sources.claude.value))
  {
    var crashed := TakeAll(d, Bootstrap(env, d, sources, fault).0[..k]);
    MarkerAfter(d, Bootstrap(env, d, sources, fault).0, k);
    BootstrapMarkers(env, d, sources, fault);
    if Status(env, crashed) == Ready { ReadyIsNamed(env, crashed); }
  }

  /** Before its last write a bootstrap never leaves a pair that is reported ready. */
  lemma BootstrapCrashIsNotReady(env: Env, d: Disk, sources: Pair<Option<Bytes>>, fault: Fault, k: nat)
    requires WhollyAbsent(d) && k <= |Bootstrap(env, d, sources, fault).0| && k < 5
    ensures var crashed := TakeAll(d, Bootstrap(env, d, sources, fault).0[..k]);
      crashed.marker == NoMarker && Status(env, crashed) in {Absent, RepairRequired}
  {
    var steps := Bootstrap(env, d, sources, fault).0;
    var made := steps[..k];
    assert made[..k] == made;
    assert MarkersOf(made) == {};
    MarkerAfter(d, made, k);
    JournalStays(d, made);
  }

  lemma {:induction false} JournalStays(d: Disk, steps: seq<Step>)
    ensures TakeAll(d, steps).journal == d.journal
    decreases |steps|
  {
    if steps != [] {
      JournalStays(Take(d, steps[0]), steps[1..]);
    }
  }
}
