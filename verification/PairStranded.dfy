/** Pairs that no recovery will touch. */
module PairStranded {
  // When a call leaves such a pair behind, and runs that do.

  import opened Basics
  import opened PairDisk
  import opened PairProtocol
  import opened PairSafety
  import opened PairRecovery
  import opened PairRuns
  import opened PairSessions
  import opened PairReturns
  import opened PairStatus
  import opened PairEnrollment

  // ---- What finalisation can strand ----

  /** A changed candidate of one vendor without its partner: no recovery will touch it. */
  ghost predicate Stranded(env: Env, d: Disk) {
    && Settled(env, d)
    && exists v, run, c :: Open(env, d, v, run, Some(c)) && Gone(d, Other(v)) && Some(c) != d.Durable(v)
  }

  lemma OneSidedIsRefused(env: Env, d: Disk, out: Outside, v: Vendor, run: RunId, c: Bytes)
    requires Open(env, d, v, run, Some(c)) && Gone(d, Other(v)) && Some(c) != d.Durable(v)
    ensures var claude, codex := Prepare(env, d, Claude, None, None), Prepare(env, d, Codex, None, None);
      claude.Done? && codex.Done? ==>
        (Changed(claude.value) || Changed(codex.value)) && (claude.value.run.None? || codex.value.run.None?)
  {
    PrepareOnlyScans(env, d, v);
    PrepareKeeps(env, d, v, None, None);
    PrepareKeeps(env, d, Other(v), None, None);
    var own, other := Prepare(env, d, v, None, None), Prepare(env, d, Other(v), None, None);
    ScansChangeNothing(d, own.log);
    PrepareOnlyScans(env, d, Other(v));
    ScansChangeNothing(d, other.log);
    assert d.Pending(v).Keys == {run};
  }

  lemma StrandedStaysStranded(env: Env, d: Disk, out: Outside)
    requires Stranded(env, d)
    ensures Recover(env, d, out).Stopped? && Replay(d, Recover(env, d, out).log) == d
  {
    var v, run, c :| Open(env, d, v, run, Some(c)) && Gone(d, Other(v)) && Some(c) != d.Durable(v);
    OneSidedIsRefused(env, d, out, v, run, c);
    var claude, codex := Prepare(env, d, Claude, None, None), Prepare(env, d, Codex, None, None);
    PrepareOnlyScans(env, d, Claude);
    PrepareOnlyScans(env, d, Codex);
    ScansChangeNothing(d, claude.log);
    ScansChangeNothing(d, claude.log + codex.log);
    var r := RecoverPending(env, d, out);
    assert Recover(env, d, out).log == [] + r.log == r.log;
    assert r.log == [] || r.log == claude.log || r.log == claude.log + codex.log;
  }

  lemma NotStranded(env: Env, d: Disk)
    requires Gone(d, Claude) == Gone(d, Codex)
    ensures !Stranded(env, d)
  {
    forall v, run, c | Open(env, d, v, run, Some(c))
      ensures !Gone(d, Other(v))
    {
      assert run in d.Pending(v);
    }
  }

  /** What lets finalisation remove the open transaction of `v`. */
  predicate Removes(env: Env, d: Disk, s: Session, v: Vendor, candidate: Bytes) {
    && !s.completed.At(v) && Some(candidate) == d.Durable(v) && s.baseline.At(v) == env.sha(candidate)
    && (v == Codex ==> Remember(s.history.codex, candidate).Some?)
  }

  lemma FinalizeRemoves(env: Env, d: Disk, s: Session, v: Vendor, candidate: Bytes)
    requires Open(env, d, v, s.run, Some(candidate))
    ensures var x := FinalizeVendor(env, d, s, v);
      && x.log == (if Removes(env, d, s, v, candidate) then [DropTransaction(v, s.run)] else [])
      && (x.Done? <==> s.completed.At(v) || Removes(env, d, s, v, candidate))
  {
  }

  lemma DropLeavesOther(env: Env, d: Disk, v: Vendor, run: RunId, other: Option<Bytes>)
    requires d.Pending(v).Keys == {run} && Settled(env, d)
    requires other.Some? ==> Open(env, d, Other(v), run, other)
    ensures var d' := Replay(d, [DropTransaction(v, run)]);
      && Settled(env, d') && Gone(d', v) && SamePair(d, d')
      && (other.Some? ==> Open(env, d', Other(v), run, other))
      && (Gone(d, Other(v)) ==> Gone(d', Other(v)))
  {
    DropKeeps(env, d, v, Some(run));
  }

  /**
   Finalisation removes the Codex transaction before it looks at Claude's.  From an open pair it leaves
   a stranded transaction exactly when it removes Codex's and Claude's candidate is not the durable one;
   or, were the session to take an open Codex transaction for removed, the other way round.
   */
  lemma FinalizeStrands(env: Env, d: Disk, s: Session, codex: Bytes, claude: Bytes)
    requires Open(env, d, Codex, s.run, Some(codex)) && Open(env, d, Claude, s.run, Some(claude))
    ensures Stranded(env, Replay(d, Finalize(env, d, s).log)) <==>
      || (Removes(env, d, s, Codex, codex) && Some(claude) != d.Durable(Claude))
      || (s.completed.codex && Removes(env, d, s, Claude, claude) && Some(codex) != d.Durable(Codex))
  {
    assert d.Pending(Codex).Keys == {s.run} && d.Pending(Claude).Keys == {s.run};
    FinalizeRemoves(env, d, s, Codex, codex);
    NotStranded(env, d);
    if Removes(env, d, s, Codex, codex) {
      CodexGone(env, d, s, codex, claude);
    } else if s.completed.codex {
      FinalizeRemoves(env, d, s, Claude, claude);
      assert Finalize(env, d, s).log == [] + FinalizeVendor(env, d, s, Claude).log == FinalizeVendor(env, d, s, Claude).log;
      if Removes(env, d, s, Claude, claude) {
        DropLeavesOther(env, d, Claude, s.run, Some(codex));
        OnlyChangedIsStranded(env, Replay(d, [DropTransaction(Claude, s.run)]), Codex, s.run, codex);
      }
    }
  }

  lemma CodexGone(env: Env, d: Disk, s: Session, codex: Bytes, claude: Bytes)
    requires Open(env, d, Codex, s.run, Some(codex)) && Open(env, d, Claude, s.run, Some(claude))
    requires Removes(env, d, s, Codex, codex)
    ensures Stranded(env, Replay(d, Finalize(env, d, s).log)) <==> Some(claude) != d.Durable(Claude)
  {
    assert d.Pending(Codex).Keys == {s.run};
    FinalizeRemoves(env, d, s, Codex, codex);
    var a := [DropTransaction(Codex, s.run)];
    var d1 := Replay(d, a);
    DropLeavesOther(env, d, Codex, s.run, Some(claude));
    FinalizeRemoves(env, d1, s, Claude, claude);
    OnlyChangedIsStranded(env, d1, Claude, s.run, claude);
    var b := FinalizeVendor(env, d1, s, Claude).log;
    ReplayConcat(d, a, b);
    if b != [] {
      assert d1.Pending(Claude).Keys == {s.run};
      DropLeavesOther(env, d1, Claude, s.run, None);
      NotStranded(env, Replay(d1, b));
    }
  }

  lemma OnlyChangedIsStranded(env: Env, d: Disk, v: Vendor, run: RunId, candidate: Bytes)
    requires Open(env, d, v, run, Some(candidate)) && Gone(d, Other(v))
    ensures Stranded(env, d) <==> Some(candidate) != d.Durable(v)
  {
    assert forall x :: x in d.Pending(Other(v)) <==> x in d.Pending(Other(v)).Keys;
    forall w, run', c | Open(env, d, w, run', Some(c)) ensures w == v && c == candidate {
      assert run' in d.Pending(w);
    }
  }

  /**
   A session that finalises again passes over what it has removed: nothing is left to do after a
   finalisation that returned, and Claude's part alone after one that stopped there.
   */
  lemma FinalizeGoesOn(env: Env, d: Disk, s: Session, d': Disk, s': Session)
    requires s'.completed == CompletedBy(env, d, s)
    ensures Finalize(env, d, s).Done? ==> Finalize(env, d', s') == Done([], ())
    ensures FinalizeVendor(env, d, s, Codex).Done? ==>
      Finalize(env, d', s').log == FinalizeVendor(env, d', s', Claude).log
      && (Finalize(env, d', s').Done? <==> FinalizeVendor(env, d', s', Claude).Done?)
  {
    var x := FinalizeVendor(env, d', s', Claude);
    assert Replay(d', []) == d' && [] + x.log == x.log;
  }

  // ---- What a call that does not heed the journal leaves to the user ----

  lemma {:induction false} RootsStay(d: Disk, log: seq<Event>)
    ensures Replay(d, log).accounts.codex.root == d.accounts.codex.root
    ensures Replay(d, log).accounts.claude.root == d.accounts.claude.root
    decreases |log|
  {
    if log != [] {
      RootsStay(Apply(d, log[0]), log[1..]);
    }
  }

  lemma PresentIsRooted(d: Disk)
    requires RootsPresent(d)
    ensures Rooted(d)
  {
    forall v ensures d.accounts.At(v).root {
      assert d.accounts.At(v) == if v.Codex? then d.accounts.codex else d.accounts.claude;
    }
  }

  lemma {:induction false} StuckIsReported(env: Env, d: Disk)
    requires Stuck(env, d) && Rooted(d) && RootsPresent(d)
    ensures Status(env, d) == RepairRequired
  {
    assert Stuck(Unbarred(env), d);
    StuckStops(Unbarred(env), d, Outside(Pair(None, None), (v, b) => ProbeResult(false, None), (v, b) => ProbeResult(false, None)));
    StatusMatchesJournalRecovery(env, d);
  }

  lemma {:induction false} JournalStopsRepair(env: Env, d: Disk, sources: Pair<Option<Bytes>>, fault: Fault)
    requires Stuck(env, d) && RootsPresent(d)
    ensures Repair(env, d, sources, fault) == ([], false)
  {
    assert d.journal.Prepared? && DropNewRoots(d) == [] + [];
  }

  /** Status then asks for a repair, and repair refuses because of the journal. */
  lemma {:induction false} UnheededJournalNeedsReview(env: Env, d: Disk, c: Call, n: nat, sources: Pair<Option<Bytes>>, fault: Fault)
    requires Sound(env, d) && !Heeds(env, d, c, n) && Rooted(d)
    ensures var d' := Replay(d, CutLog(env, d, c, n));
      Status(env, d') == RepairRequired && Repair(env, d', sources, fault) == ([], false)
  {
    var d' := Replay(d, CutLog(env, d, c, n));
    UnheedingCallSticks(env, d, c, n);
    RootedHas(d);
    assert RootsPresent(d);
    RootsStay(d, CutLog(env, d, c, n));
    PresentIsRooted(d');
    StuckIsReported(env, d');
    JournalStopsRepair(env, d', sources, fault);
  }

  // ---- Two runs that end there ----

  const OLD: Bytes := [1]
  const NEW: Bytes := [2, 2]
  const LATER: Bytes := [3, 3, 3]
  const RUN: RunId := "run"

  /** Digests tell the three credentials apart, every parser accepts, and no barrier is supplied. */
  function SampleDigest(b: Bytes): Digest {
    seq(|b|, i => 'a')
  }

  function SampleEnv(): Env {
    Env(SampleDigest, (v, b) => true, (v, b) => None, Pair(false, false), (v, run, generations) => true)
  }

  /** Every probe confirms its candidate and leaves `left` behind. */
  function Leaving(left: Bytes): Outside {
    Outside(Pair(None, None), (v, b) => ProbeResult(true, Some(left)), (v, b) => ProbeResult(true, Some(left)))
  }

  function SampleSession(): Session {
    Session(RUN, Pair(SampleDigest(OLD), SampleDigest(OLD)), Pair([], []), Pair(false, false))
  }

  function CleanDisk(): Disk {
    Disk(Names(Pair(SampleDigest(OLD), SampleDigest(OLD))), NoJournal, Pair(CleanAccount(), CleanAccount()))
  }

  function CleanAccount(): Account {
    Account(true, Some(OLD), map[])
  }

  function OpenAccount(candidate: Bytes): Account {
    Account(true, Some(OLD), map[RUN := Transaction(Active(RUN, SampleDigest(OLD)), Some(candidate))])
  }

  /** The pair after acquiring, and after a command has refreshed the Claude login. */
  function TouchedDisk(): Disk {
    CleanDisk().(accounts := Pair(OpenAccount(OLD), OpenAccount(NEW)))
  }

  lemma CleanIsSettled()
    ensures Settled(SampleEnv(), CleanDisk()) && Gone(CleanDisk(), Codex) && Gone(CleanDisk(), Claude)
  {
  }

  lemma TouchedIsOpen()
    ensures Open(SampleEnv(), TouchedDisk(), Codex, RUN, Some(OLD)) && Open(SampleEnv(), TouchedDisk(), Claude, RUN, Some(NEW))
  {
    var d := TouchedDisk();
    assert d.Pending(Codex).Keys == {RUN} && d.Pending(Claude).Keys == {RUN};
    assert d.Pending(Codex)[RUN].metadata == Active(RUN, SampleDigest(OLD));
    assert d.Pending(Claude)[RUN].metadata == Active(RUN, SampleDigest(OLD));
  }

  /** The pair after acquiring. */
  function OpenDisk(): Disk {
    CleanDisk().(accounts := Pair(OpenAccount(OLD), OpenAccount(OLD)))
  }

  /** The session after a reconciliation that found nothing changed. */
  function ReconciledSession(): Session {
    SampleSession().(history := Pair([OLD], [OLD]))
  }

  lemma AcquireOpens(out: Outside)
    ensures Replay(CleanDisk(), CallLog(SampleEnv(), CleanDisk(), Call.Acquiring(out, RUN))) == OpenDisk()
  {
    var env, d := SampleEnv(), CleanDisk();
    CleanIsSettled();
    CleanRecoveryIsIdle(env, d, out);
    var a, b := Seed(Claude, RUN, OLD, SampleDigest(OLD)), Seed(Codex, RUN, OLD, SampleDigest(OLD));
    assert CallLog(env, d, Call.Acquiring(out, RUN)) == [a] + [b];
    ReplayConcat(d, [a], [b]);
    ReplayOne(d, a);
    ReplayOne(Apply(d, a), b);
  }

  lemma NothingToReconcile(out: Outside)
    ensures Reconcile(SampleEnv(), OpenDisk(), SampleSession(), out, true) == Done([], (false, ReconciledSession()))
  {
    assert [] + [OLD] == [OLD];
  }

  lemma RefreshTouches()
    ensures Replay(OpenDisk(), CallLog(SampleEnv(), OpenDisk(), Call.Touching(Claude, RUN, Some(NEW)))) == TouchedDisk()
  {
    var d := OpenDisk();
    ReplayOne(d, Probe(Claude, RUN, Some(NEW)));
    assert RUN in d.Pending(Claude);
    assert Apply(d, Probe(Claude, RUN, Some(NEW))).accounts.claude.pending == OpenAccount(NEW).pending;
  }

  /**
   Acquire, reconcile with nothing changed, then the Claude login refreshes itself, then finalise with
   the session that the reconciliation returned: the pair is stranded.
   */
  lemma FinalizeStrandsARun(out: Outside, later: Outside)
    ensures var env := SampleEnv();
      var d1 := Replay(CleanDisk(), CallLog(env, CleanDisk(), Call.Acquiring(out, RUN)));
      var r := Reconcile(env, d1, SampleSession(), later, true);
      var d2 := Replay(d1, r.log);
      var d3 := Replay(d2, CallLog(env, d2, Call.Touching(Claude, RUN, Some(NEW))));
      && Settled(env, CleanDisk()) && Gone(CleanDisk(), Codex) && Gone(CleanDisk(), Claude)
      && r.Done? && Stranded(env, Replay(d3, CallLog(env, d3, Call.Finalizing(r.value.1))))
  {
    CleanIsSettled();
    AcquireOpens(out);
    NothingToReconcile(later);
    RefreshTouches();
    TouchedIsOpen();
    assert OLD != NEW;
    FinalizeStrands(SampleEnv(), TouchedDisk(), ReconciledSession(), OLD, NEW);
  }

  function SampleTransition(): Transition {
    Transition(Pair(RUN, RUN), Pair(SampleDigest(OLD), SampleDigest(OLD)), Pair(SampleDigest(OLD), SampleDigest(NEW)))
  }

  function JournaledDisk(): Disk {
    TouchedDisk().(journal := Prepared(SampleTransition()))
  }

  lemma JournalComesFirst(env: Env, d: Disk, t: Transition, codex: Bytes, claude: Bytes)
    requires d.journal == NoJournal
    ensures var log := Commit(env, d, t, codex, claude, false).log;
      log != [] && log[0] == PutJournal(t)
  {
  }

  /** The sample reconciliation probes the changed Claude candidate and finds the Codex one unchanged. */
  lemma SampleSettles()
    ensures var env, d, s, out := SampleEnv(), TouchedDisk(), SampleSession(), Leaving(NEW);
      && Enters(env, d, s) && Moved(env, d, s, Claude)
      && SettleOf(env, d, s, out, true, Claude) == Done([Probe(Claude, RUN, Some(NEW))], (NEW, [NEW]))
      && SettleOf(env, d, s, out, true, Codex) == Done([], (OLD, [OLD]))
  {
    TouchedIsOpen();
    assert OLD != NEW;
    assert [] + [NEW] == [NEW] && [] + [OLD] == [OLD];
  }

  lemma ProbeOfTouched()
    ensures Replay(TouchedDisk(), [Probe(Claude, RUN, Some(NEW))]) == TouchedDisk()
  {
    var d, p := TouchedDisk(), Probe(Claude, RUN, Some(NEW));
    ReplayOne(d, p);
    assert d.Pending(Claude)[RUN := d.Pending(Claude)[RUN].(candidate := Some(NEW))] == d.Pending(Claude);
  }

  lemma SampleReconcileStarts()
    ensures var log := CallLog(SampleEnv(), TouchedDisk(), Call.Reconciling(SampleSession(), Leaving(NEW), true));
      |log| >= 2 && log[0] == Probe(Claude, RUN, Some(NEW)) && log[1] == PutJournal(SampleTransition())
  {
    var env, d, s, out := SampleEnv(), TouchedDisk(), SampleSession(), Leaving(NEW);
    SampleSettles();
    ReconcileLog(env, d, s, out, true);
    ProbeOfTouched();
    var p := Probe(Claude, RUN, Some(NEW));
    assert [p] + [] == [p];
    JournalComesFirst(env, d, SampleTransition(), OLD, NEW);
  }

  lemma {:induction false} ProbedAndJournaled()
    ensures Replay(TouchedDisk(), [Probe(Claude, RUN, Some(NEW)), PutJournal(SampleTransition())]) == JournaledDisk()
  {
    var d, p, j := TouchedDisk(), Probe(Claude, RUN, Some(NEW)), PutJournal(SampleTransition());
    assert [p, j] == [p] + [j];
    ProbeOfTouched();
    ReplayConcat(d, [p], [j]);
    ReplayOne(d, j);
  }

  lemma FirstTwo(log: seq<Event>, a: Event, b: Event)
    requires |log| >= 2 && log[0] == a && log[1] == b
    ensures (if 2 < |log| then log[..2] else log) == [a, b]
  {
  }

  /** A reconciliation that fails right after its journal write leaves a disk fit for recovery. */
  lemma {:induction false} ReconcileJournals()
    ensures Replay(TouchedDisk(), CutLog(SampleEnv(), TouchedDisk(), Call.Reconciling(SampleSession(), Leaving(NEW), true), 2))
            == JournaledDisk()
    ensures Sound(SampleEnv(), JournaledDisk())
  {
    var env, d, c := SampleEnv(), TouchedDisk(), Call.Reconciling(SampleSession(), Leaving(NEW), true);
    SampleReconcileStarts();
    FirstTwo(CallLog(env, d, c), Probe(Claude, RUN, Some(NEW)), PutJournal(SampleTransition()));
    ProbedAndJournaled();
    TouchedIsOpen();
    CallKeepsIffItHeeds(env, d, c, 2);
  }

  /** A reconciliation that probes has made at least that event. */
  lemma UnheededStarts(env: Env, d: Disk, s: Session, out: Outside)
    requires Enters(env, d, s) && Moved(env, d, s, Claude)
    ensures Reconcile(env, d, s, out, true).log != []
  {
    ReconcileLog(env, d, s, out, true);
    var scans := SettleOfParts(env, d, s, out, true, Claude);
  }

  /**
   The session goes on: its next reconciliation probes the candidate again, the probe refreshes the
   login once more, and neither recovery nor repair will touch the pair after that.
   */
  lemma SecondReconcileLosesTheJournal(out: Outside, sources: Pair<Option<Bytes>>, fault: Fault)
    ensures var env, c := SampleEnv(), Call.Reconciling(SampleSession(), Leaving(LATER), true);
      var d' := Replay(JournaledDisk(), CallLog(env, JournaledDisk(), c));
      && Sound(env, JournaledDisk()) && !Heeds(env, JournaledDisk(), c, |CallLog(env, JournaledDisk(), c)|) && !Sound(env, d')
      && RecoverJournal(env, d').Stopped? && Recover(env, d', out).Stopped?
      && Status(env, d') == RepairRequired && Repair(env, d', sources, fault) == ([], false)
  {
    var env, d, s, c := SampleEnv(), JournaledDisk(), SampleSession(), Call.Reconciling(SampleSession(), Leaving(LATER), true);
    ReconcileJournals();
    assert Enters(env, d, s) && Moved(env, d, s, Claude);
    assert |SampleDigest(LATER)| != |SampleDigest(NEW)|;
    var n := |CallLog(env, d, c)|;
    assert CutLog(env, d, c, n) == CallLog(env, d, c);
    UnheededStarts(env, d, s, Leaving(LATER));
    assert !Heeds(env, d, c, n);
    CallKeepsIffItHeeds(env, d, c, n);
    UnheedingCallSticks(env, d, c, n);
    StuckStops(env, Replay(d, CallLog(env, d, c)), out);
    PresentIsRooted(d);
    UnheededJournalNeedsReview(env, d, c, n, sources, fault);
  }
}
