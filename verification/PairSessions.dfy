/** What a live session may still do over a journal. */
module PairSessions {
  // A session goes on after one of its calls has failed: the reconciliation after a turn is repeated
  // by the secret refresh and once more at the end of the run, with the journal of the failed one in
  // place.  Only a call that heeds that journal leaves it fit for recovery.

  import opened Basics
  import opened PairDisk
  import opened PairProtocol
  import opened PairSafety
  import opened PairRecovery
  import opened PairProgress
  import opened PairRuns

  // ---- What settling one candidate does to the disk ----

  function ProbedDisk(d: Disk, out: Outside, v: Vendor, run: RunId, candidate: Bytes, probed: bool): Disk {
    if probed then Apply(d, Probe(v, run, out.probe(v, candidate).left)) else d
  }

  function ProbeLog(out: Outside, v: Vendor, run: RunId, candidate: Bytes, probed: bool): seq<Event> {
    if probed then [Probe(v, run, out.probe(v, candidate).left)] else []
  }

  /** Settling probes at most once, and only scans after that. */
  lemma SettleParts(env: Env, out: Outside, v: Vendor, s: Session, candidate: Bytes, history: seq<Bytes>,
                    changed: bool, probing: bool) returns (scans: seq<Event>)
    ensures forall e | e in scans :: e.Scan?
    ensures var r := Settle(env, out, v, s, candidate, history, changed, probing);
      && r.log == ProbeLog(out, v, s.run, candidate, changed && probing) + scans
      && (r.Done? && !(changed && probing) ==> r.value.0 == candidate)
      && (r.Done? && changed && probing ==> Some(r.value.0) == out.probe(v, candidate).left && env.valid(v, r.value.0))
  {
    var r := Settle(env, out, v, s, candidate, history, changed, probing);
    var probe := ProbeLog(out, v, s.run, candidate, changed && probing);
    scans := r.log[|probe|..];
    assert r.log == probe + scans;
  }

  lemma ProbeLogReplays(d: Disk, out: Outside, v: Vendor, run: RunId, candidate: Bytes, probed: bool, scans: seq<Event>)
    requires forall e | e in scans :: e.Scan?
    ensures Replay(d, ProbeLog(out, v, run, candidate, probed) + scans) == ProbedDisk(d, out, v, run, candidate, probed)
  {
    var probe := ProbeLog(out, v, run, candidate, probed);
    ReplayConcat(d, probe, scans);
    ScansChangeNothing(Replay(d, probe), scans);
    if probed {
      ReplayOne(d, probe[0]);
    }
  }

  lemma SettleEffect(env: Env, d: Disk, out: Outside, v: Vendor, s: Session, candidate: Bytes, history: seq<Bytes>,
                     changed: bool, probing: bool)
    ensures Replay(d, Settle(env, out, v, s, candidate, history, changed, probing).log)
            == ProbedDisk(d, out, v, s.run, candidate, changed && probing)
  {
    var scans := SettleParts(env, out, v, s, candidate, history, changed, probing);
    ProbeLogReplays(d, out, v, s.run, candidate, changed && probing, scans);
  }

  lemma ProbeLogKeeps(env: Env, d: Disk, out: Outside, v: Vendor, run: RunId, candidate: Bytes, probed: bool,
                      scans: seq<Event>)
    requires Sound(env, d) && d.journal.Prepared? && forall e | e in scans :: e.Scan?
    requires probed ==> Journals(env, d.journal.transition, v, out.probe(v, candidate).left)
    ensures Obeys(Keeping(env), d, ProbeLog(out, v, run, candidate, probed) + scans)
  {
    var probe := ProbeLog(out, v, run, candidate, probed);
    if probed {
      ObeysOne(Keeping(env), d, probe[0]);
    }
    KeepingRun(env, d, probe);
    ScansKeep(env, Replay(d, probe), scans);
    Chain(env, d, probe, scans);
  }

  lemma JournaledSettleKeeps(env: Env, d: Disk, out: Outside, v: Vendor, s: Session, candidate: Bytes,
                             history: seq<Bytes>, changed: bool, probing: bool)
    requires Sound(env, d) && d.journal.Prepared?
    requires changed && probing ==> Journals(env, d.journal.transition, v, out.probe(v, candidate).left)
    ensures Obeys(Keeping(env), d, Settle(env, out, v, s, candidate, history, changed, probing).log)
  {
    var scans := SettleParts(env, out, v, s, candidate, history, changed, probing);
    ProbeLogKeeps(env, d, out, v, s.run, candidate, changed && probing, scans);
  }

  // ---- Reconciliation over a journal ----

  /** The events that a call makes before it fails, or its process dies, after at most `n` of them. */
  function Cut(log: seq<Event>, n: nat): seq<Event> {
    if n < |log| then log[..n] else log
  }

  /** The reconciliation gets past its guards, up to the first probe. */
  predicate Enters(env: Env, d: Disk, s: Session) {
    && DurablesValid(env, d) && DurableHashes(env, d) == s.baseline
    && ReadCandidate(env, d, s, Codex).Some? && ReadCandidate(env, d, s, Claude).Some?
    && Remember(s.history.codex, ReadCandidate(env, d, s, Codex).value).Some?
    && Remember(s.history.claude, ReadCandidate(env, d, s, Claude).value).Some?
  }

  predicate Moved(env: Env, d: Disk, s: Session, v: Vendor) {
    ReadCandidate(env, d, s, v) != d.Durable(v)
  }

  function SettleOf(env: Env, d: Disk, s: Session, out: Outside, probing: bool, v: Vendor): Exec<(Bytes, seq<Bytes>)>
    requires Enters(env, d, s)
  {
    var c := ReadCandidate(env, d, s, v).value;
    Settle(env, out, v, s, c, Remember(s.history.At(v), c).value, Moved(env, d, s, v), probing)
  }

  /** What the probe of `v` leaves behind, the candidate being the one on disk. */
  function Left(env: Env, d: Disk, s: Session, out: Outside, v: Vendor): Option<Bytes>
    requires Enters(env, d, s)
  {
    out.probe(v, ReadCandidate(env, d, s, v).value).left
  }

  /** Each probe among the first `n` events leaves a candidate with the journaled hash. */
  predicate ReconcileHeeds(env: Env, d: Disk, s: Session, out: Outside, probing: bool, t: Transition, n: nat) {
    probing && Enters(env, d, s) ==>
      var l := SettleOf(env, d, s, out, probing, Claude);
      && (Moved(env, d, s, Claude) && n > 0 ==> Journals(env, t, Claude, Left(env, d, s, out, Claude)))
      && (Moved(env, d, s, Codex) && l.Done? && n > |l.log| ==> Journals(env, t, Codex, Left(env, d, s, out, Codex)))
  }

  function ReconcileTransition(env: Env, s: Session, l: Exec<(Bytes, seq<Bytes>)>, c: Exec<(Bytes, seq<Bytes>)>): Transition
    requires l.Done? && c.Done?
  {
    Transition(Pair(s.run, s.run), s.baseline, Hashes(env, c.value.0, l.value.0))
  }

  lemma ReconcileLog(env: Env, d: Disk, s: Session, out: Outside, probing: bool)
    ensures var log := Reconcile(env, d, s, out, probing).log;
      if !Enters(env, d, s) || (!Moved(env, d, s, Claude) && !Moved(env, d, s, Codex)) then log == []
      else
        var l, c := SettleOf(env, d, s, out, probing, Claude), SettleOf(env, d, s, out, probing, Codex);
        if l.Stopped? then log == l.log
        else if c.Stopped? then log == l.log + c.log
        else log == l.log + c.log + Commit(env, Replay(d, l.log + c.log), ReconcileTransition(env, s, l, c),
                                           c.value.0, l.value.0, false).log
  {
  }

  /** Both settlings, one after the other, on the disk. */
  lemma SettlesBoth(env: Env, d: Disk, s: Session, out: Outside, probing: bool)
    requires Enters(env, d, s)
    ensures var l, c := SettleOf(env, d, s, out, probing, Claude), SettleOf(env, d, s, out, probing, Codex);
      var d1 := Replay(d, l.log);
      var d2 := Replay(d, l.log + c.log);
      && d1 == ProbedDisk(d, out, Claude, s.run, ReadCandidate(env, d, s, Claude).value, Moved(env, d, s, Claude) && probing)
      && d2 == ProbedDisk(d1, out, Codex, s.run, ReadCandidate(env, d, s, Codex).value, Moved(env, d, s, Codex) && probing)
      && d2 == Replay(d1, c.log)
  {
    var l, c := SettleOf(env, d, s, out, probing, Claude), SettleOf(env, d, s, out, probing, Codex);
    var x, y := ReadCandidate(env, d, s, Claude).value, ReadCandidate(env, d, s, Codex).value;
    SettleEffect(env, d, out, Claude, s, x, Remember(s.history.claude, x).value, Moved(env, d, s, Claude), probing);
    var d1 := Replay(d, l.log);
    SettleEffect(env, d1, out, Codex, s, y, Remember(s.history.codex, y).value, Moved(env, d, s, Codex), probing);
    ReplayConcat(d, l.log, c.log);
  }

  /** Committing over a journal: only the journaled pair itself can be rolled forward, and then it is to its end. */
  lemma JournaledCommitKeeps(env: Env, d: Disk, t: Transition, codex: Bytes, claude: Bytes)
    requires Sound(env, d) && d.journal.Prepared?
    requires t == d.journal.transition ==>
      && t.runs.codex in d.Pending(Codex) && d.Pending(Codex)[t.runs.codex].candidate == Some(codex)
      && t.runs.claude in d.Pending(Claude) && d.Pending(Claude)[t.runs.claude].candidate == Some(claude)
    ensures Obeys(Keeping(env), d, Commit(env, d, t, codex, claude, false).log)
    ensures t != d.journal.transition ==> Commit(env, d, t, codex, claude, false).log == []
  {
    if t == d.journal.transition {
      var candidates := Pair(Some(codex), Some(claude));
      RollForwardFinishes(env, d, t, candidates, false);
      assert [] + RollForwardPlan(env, d, t, candidates, false) == RollForwardPlan(env, d, t, candidates, false);
    }
  }

  lemma ReadIsPending(env: Env, d: Disk, s: Session, v: Vendor)
    requires ReadCandidate(env, d, s, v).Some?
    ensures s.run in d.Pending(v) && d.Pending(v)[s.run].candidate == ReadCandidate(env, d, s, v)
  {
  }

  /** What a settling that returned hands on is the candidate it leaves on disk. */
  lemma SettledIsOnDisk(env: Env, d: Disk, s: Session, out: Outside, probing: bool, v: Vendor, d0: Disk)
    requires Enters(env, d, s) && SettleOf(env, d, s, out, probing, v).Done?
    requires d0.Pending(v) == d.Pending(v)
    ensures var d' := ProbedDisk(d0, out, v, s.run, ReadCandidate(env, d, s, v).value, Moved(env, d, s, v) && probing);
      s.run in d'.Pending(v) && d'.Pending(v)[s.run].candidate == Some(SettleOf(env, d, s, out, probing, v).value.0)
  {
    var c := ReadCandidate(env, d, s, v).value;
    ReadIsPending(env, d, s, v);
    var scans := SettleParts(env, out, v, s, c, Remember(s.history.At(v), c).value, Moved(env, d, s, v), probing);
  }

  lemma OtherStays(d: Disk, out: Outside, v: Vendor, run: RunId, candidate: Bytes, probed: bool)
    ensures var d' := ProbedDisk(d, out, v, run, candidate, probed);
      d'.journal == d.journal && d'.Pending(Other(v)) == d.Pending(Other(v))
  {
  }

  lemma {:induction false} CutKeeps(env: Env, d: Disk, log: seq<Event>, n: nat)
    requires Obeys(Keeping(env), d, log)
    ensures Obeys(Keeping(env), d, Cut(log, n))
  {
    ObeysPrefix(Keeping(env), d, log, Cut(log, n));
  }

  lemma {:induction false} FirstSettleKeeps(env: Env, d: Disk, s: Session, out: Outside, probing: bool)
    requires Sound(env, d) && d.journal.Prepared? && Enters(env, d, s)
    requires ReconcileHeeds(env, d, s, out, probing, d.journal.transition, 1)
    ensures Obeys(Keeping(env), d, SettleOf(env, d, s, out, probing, Claude).log)
  {
    var x := ReadCandidate(env, d, s, Claude).value;
    JournaledSettleKeeps(env, d, out, Claude, s, x, Remember(s.history.claude, x).value, Moved(env, d, s, Claude), probing);
  }

  lemma {:induction false} SecondSettleKeeps(env: Env, d: Disk, s: Session, out: Outside, probing: bool, n: nat)
    requires Sound(env, d) && d.journal.Prepared? && Enters(env, d, s)
    requires SettleOf(env, d, s, out, probing, Claude).Done? && n > |SettleOf(env, d, s, out, probing, Claude).log|
    requires ReconcileHeeds(env, d, s, out, probing, d.journal.transition, n)
    ensures Obeys(Keeping(env), d, Reconcile(env, d, s, out, probing).log)
  {
    ReconcileLog(env, d, s, out, probing);
    if Reconcile(env, d, s, out, probing).log != [] {
      var l, c := SettleOf(env, d, s, out, probing, Claude), SettleOf(env, d, s, out, probing, Codex);
      var x, y := ReadCandidate(env, d, s, Claude).value, ReadCandidate(env, d, s, Codex).value;
      SettlesBoth(env, d, s, out, probing);
      FirstSettleKeeps(env, d, s, out, probing);
      var d1 := Replay(d, l.log);
      KeepingRun(env, d, l.log);
      OtherStays(d, out, Claude, s.run, x, Moved(env, d, s, Claude) && probing);
      JournaledSettleKeeps(env, d1, out, Codex, s, y, Remember(s.history.codex, y).value, Moved(env, d, s, Codex), probing);
      Chain(env, d, l.log, c.log);
      if c.Done? {
        SettlesKeepBoth(env, d, s, out, probing);
      }
    }
  }

  /** Up to the end of the first settling, a reconciliation is that settling. */
  lemma {:induction false} ReconcileBegins(env: Env, d: Disk, s: Session, out: Outside, probing: bool, n: nat)
    requires Enters(env, d, s) && Reconcile(env, d, s, out, probing).log != []
    requires var l := SettleOf(env, d, s, out, probing, Claude); l.Stopped? || n <= |l.log|
    ensures Cut(Reconcile(env, d, s, out, probing).log, n) == Cut(SettleOf(env, d, s, out, probing, Claude).log, n)
  {
    var l := SettleOf(env, d, s, out, probing, Claude);
    ReconcileLog(env, d, s, out, probing);
    assert l.log <= Reconcile(env, d, s, out, probing).log;
  }

  lemma {:induction false} ReconcileHeedsKeeps(env: Env, d: Disk, s: Session, out: Outside, probing: bool, n: nat)
    requires Sound(env, d) && d.journal.Prepared? && ReconcileHeeds(env, d, s, out, probing, d.journal.transition, n)
    ensures Obeys(Keeping(env), d, Cut(Reconcile(env, d, s, out, probing).log, n))
  {
    if n > 0 && Reconcile(env, d, s, out, probing).log != [] {
      var l := SettleOf(env, d, s, out, probing, Claude);
      FirstSettleKeeps(env, d, s, out, probing);
      if l.Done? && n > |l.log| {
        SecondSettleKeeps(env, d, s, out, probing, n);
        CutKeeps(env, d, Reconcile(env, d, s, out, probing).log, n);
      } else {
        ReconcileBegins(env, d, s, out, probing, n);
        CutKeeps(env, d, l.log, n);
      }
    }
  }

  /** With both candidates settled, the commit on top of them keeps the rule as well. */
  lemma SettlesKeepBoth(env: Env, d: Disk, s: Session, out: Outside, probing: bool)
    requires Enters(env, d, s) && d.journal.Prepared?
    requires SettleOf(env, d, s, out, probing, Claude).Done? && SettleOf(env, d, s, out, probing, Codex).Done?
    requires var log := SettleOf(env, d, s, out, probing, Claude).log + SettleOf(env, d, s, out, probing, Codex).log;
      Sound(env, d) && Obeys(Keeping(env), d, log)
    ensures var l, c := SettleOf(env, d, s, out, probing, Claude), SettleOf(env, d, s, out, probing, Codex);
      var log := l.log + c.log;
      Obeys(Keeping(env), d, log + Commit(env, Replay(d, log), ReconcileTransition(env, s, l, c), c.value.0, l.value.0, false).log)
  {
    var l, c := SettleOf(env, d, s, out, probing, Claude), SettleOf(env, d, s, out, probing, Codex);
    var x, y := ReadCandidate(env, d, s, Claude).value, ReadCandidate(env, d, s, Codex).value;
    var d1, d2 := Replay(d, l.log), Replay(d, l.log + c.log);
    var t := ReconcileTransition(env, s, l, c);
    SettlesBoth(env, d, s, out, probing);
    OtherStays(d, out, Claude, s.run, x, Moved(env, d, s, Claude) && probing);
    OtherStays(d1, out, Codex, s.run, y, Moved(env, d, s, Codex) && probing);
    SettledIsOnDisk(env, d, s, out, probing, Claude, d);
    SettledIsOnDisk(env, d, s, out, probing, Codex, d1);
    KeepingRun(env, d, l.log + c.log);
    JournaledCommitKeeps(env, d2, t, c.value.0, l.value.0);
    Chain(env, d, l.log + c.log, Commit(env, d2, t, c.value.0, l.value.0, false).log);
  }

  // ---- A journal that nothing can go on from ----

  /** A pending transaction of `v` no longer holds what the journal needs. */
  ghost predicate Spoiled(env: Env, d: Disk, v: Vendor) {
    && d.journal.Prepared?
    && exists run :: run in d.Pending(v) && !Journals(env, d.journal.transition, v, d.Pending(v)[run].candidate)
  }

  /** A transaction is gone although the pair is not yet the new one. */
  ghost predicate Bared(env: Env, d: Disk) {
    d.journal.Prepared? && (Gone(d, Claude) || Gone(d, Codex)) && !Finished(env, d, d.journal.transition)
  }

  ghost predicate Stuck(env: Env, d: Disk) {
    Spoiled(env, d, Claude) || Spoiled(env, d, Codex) || Bared(env, d)
  }

  lemma SoundIsNotStuck(env: Env, d: Disk)
    requires Sound(env, d)
    ensures !Stuck(env, d)
  {
    if d.journal.Prepared? {
      forall v, run | run in d.Pending(v) ensures Journals(env, d.journal.transition, v, d.Pending(v)[run].candidate) {
        assert run in d.Pending(v).Keys;
      }
    }
  }

  lemma SpoiledCandidateStops(env: Env, d: Disk, v: Vendor)
    requires Spoiled(env, d, v)
    ensures JournalCandidate(env, d, v, d.journal.transition).Stopped?
  {
    var run :| run in d.Pending(v) && !Journals(env, d.journal.transition, v, d.Pending(v)[run].candidate);
    assert run in d.Pending(v).Keys;
  }

  /** Every recovery stops at such a journal, whatever the barriers, and writes nothing. */
  lemma StuckStops(env: Env, d: Disk, out: Outside)
    requires Stuck(env, d)
    ensures RecoverJournal(env, d).Stopped? && Recover(env, d, out).Stopped?
    ensures Replay(d, Recover(env, d, out).log) == d
  {
    var t := d.journal.transition;
    var codex, claude := JournalCandidate(env, d, Codex, t), JournalCandidate(env, d, Claude, t);
    JournalCandidateOnlyScans(env, d, Codex, t);
    JournalCandidateOnlyScans(env, d, Claude, t);
    ScansChangeNothing(d, codex.log);
    ScansChangeNothing(d, codex.log + claude.log);
    if Spoiled(env, d, Codex) { SpoiledCandidateStops(env, d, Codex); }
    if Spoiled(env, d, Claude) { SpoiledCandidateStops(env, d, Claude); }
    if codex.Done? && claude.Done? {
      assert RollForward(env, d, t, Pair(codex.value, claude.value), true) == Stopped([], StateConflict);
      assert codex.log + claude.log + [] == codex.log + claude.log;
    }
  }

  // ---- Exactly when a call keeps a journaled disk fit for recovery ----

  /** A probe of `v` that does not heed the journal: what the two settlings leave behind. */
  predicate Unheeded(env: Env, d: Disk, s: Session, out: Outside, v: Vendor, t: Transition)
    requires Enters(env, d, s)
  {
    Moved(env, d, s, v) && !Journals(env, t, v, Left(env, d, s, out, v))
  }

  lemma UnheededIsNotTheJournal(env: Env, d: Disk, s: Session, out: Outside, v: Vendor, t: Transition)
    requires Enters(env, d, s) && Unheeded(env, d, s, out, v, t) && SettleOf(env, d, s, out, true, v).Done?
    ensures env.sha(SettleOf(env, d, s, out, true, v).value.0) != t.after.At(v)
  {
    var c := ReadCandidate(env, d, s, v).value;
    var scans := SettleParts(env, out, v, s, c, Remember(s.history.At(v), c).value, true, true);
  }

  // ---- A log of scans and probes, after which a candidate is spoiled ----

  predicate OnlyProbes(log: seq<Event>) {
    forall e | e in log :: e.Scan? || e.Probe?
  }

  lemma {:induction false} ProbesKeepRuns(d: Disk, log: seq<Event>)
    requires OnlyProbes(log)
    ensures var d' := Replay(d, log);
      && d'.journal == d.journal && d'.accounts.codex.durable == d.accounts.codex.durable
      && d'.Pending(Codex).Keys == d.Pending(Codex).Keys && d'.Pending(Claude).Keys == d.Pending(Claude).Keys
    decreases |log|
  {
    if log != [] {
      assert log[0] in log && forall e | e in log[1..] :: e in log;
      ProbesKeepRuns(Apply(d, log[0]), log[1..]);
    }
  }

  /** No later probe of the same vendor: what is spoiled stays so. */
  predicate Leaves(log: seq<Event>, v: Vendor) {
    forall e | e in log :: e.Scan? || (e.Probe? && e.vendor != v)
  }

  lemma {:induction false} LeavesSpoiled(env: Env, d: Disk, v: Vendor, log: seq<Event>)
    requires Spoiled(env, d, v) && Leaves(log, v)
    ensures Spoiled(env, Replay(d, log), v)
    decreases |log|
  {
    if log != [] {
      var e := log[0];
      assert e in log && forall x | x in log[1..] :: x in log;
      var bad :| bad in d.Pending(v) && !Journals(env, d.journal.transition, v, d.Pending(v)[bad].candidate);
      assert Apply(d, e).Pending(v) == d.Pending(v) && bad in Apply(d, e).Pending(v);
      LeavesSpoiled(env, Apply(d, e), v, log[1..]);
    }
  }

  /** Once a probe has left a candidate that is not the journaled one, every longer part of the log is stuck. */
  lemma {:induction false} ProbeSpoils(env: Env, d: Disk, a: seq<Event>, v: Vendor, run: RunId, left: Option<Bytes>, b: seq<Event>)
    requires d.journal.Prepared? && run in d.Pending(v) && !Journals(env, d.journal.transition, v, left)
    requires OnlyProbes(a) && Leaves(b, v)
    ensures Stuck(env, Replay(d, a + [Probe(v, run, left)] + b))
  {
    var p := Probe(v, run, left);
    var d1 := Replay(d, a);
    ProbesKeepRuns(d, a);
    assert run in d1.Pending(v).Keys;
    ReplayOne(d1, p);
    assert run in Apply(d1, p).Pending(v) && Apply(d1, p).Pending(v)[run].candidate == left;
    ReplayConcat(d, a, [p]);
    ReplayConcat(d, a + [p], b);
    LeavesSpoiled(env, Apply(d1, p), v, b);
  }

  // ---- What a reconciliation that does not heed its journal does ----

  /** The settling of one vendor: its probe, if there is one, comes first. */
  lemma SettleOfParts(env: Env, d: Disk, s: Session, out: Outside, probing: bool, v: Vendor) returns (scans: seq<Event>)
    requires Enters(env, d, s)
    ensures Leaves(scans, Claude) && Leaves(scans, Codex)
    ensures SettleOf(env, d, s, out, probing, v).log ==
            (if Moved(env, d, s, v) && probing then [Probe(v, s.run, Left(env, d, s, out, v))] else []) + scans
  {
    var c := ReadCandidate(env, d, s, v).value;
    scans := SettleParts(env, out, v, s, c, Remember(s.history.At(v), c).value, Moved(env, d, s, v), probing);
  }

  /** Nothing is committed: the log ends with the second settling, or with the first. */
  lemma {:induction false} UnheededCommitsNothing(env: Env, d: Disk, s: Session, out: Outside)
    requires d.journal.Prepared? && Enters(env, d, s)
    requires Unheeded(env, d, s, out, Claude, d.journal.transition) || Unheeded(env, d, s, out, Codex, d.journal.transition)
    ensures var l, c := SettleOf(env, d, s, out, true, Claude), SettleOf(env, d, s, out, true, Codex);
      Reconcile(env, d, s, out, true).log == l.log + (if l.Done? then c.log else [])
  {
    var t := d.journal.transition;
    var l, c := SettleOf(env, d, s, out, true, Claude), SettleOf(env, d, s, out, true, Codex);
    ReconcileLog(env, d, s, out, true);
    if l.Done? && c.Done? {
      SettlesBoth(env, d, s, out, true);
      var v := if Unheeded(env, d, s, out, Claude, t) then Claude else Codex;
      UnheededIsNotTheJournal(env, d, s, out, v, t);
      ReadIsPending(env, d, s, Claude);
      OtherStays(d, out, Claude, s.run, ReadCandidate(env, d, s, Claude).value, Moved(env, d, s, Claude));
      OtherStays(Replay(d, l.log), out, Codex, s.run, ReadCandidate(env, d, s, Codex).value, Moved(env, d, s, Codex));
      assert Commit(env, Replay(d, l.log + c.log), ReconcileTransition(env, s, l, c), c.value.0, l.value.0, false).log == [];
      assert l.log + c.log + [] == l.log + c.log;
    }
  }

  /** Where a log is cut after `p`, some of what follows `p` is left. */
  lemma {:induction false} CutAfter(a: seq<Event>, p: Event, b: seq<Event>, n: nat, v: Vendor) returns (rest: seq<Event>)
    requires n > |a| && Leaves(b, v)
    ensures Cut(a + [p] + b, n) == a + [p] + rest && Leaves(rest, v)
  {
    rest := Cut(b, n - |a| - 1);
    assert forall e | e in rest :: e in b;
  }

  lemma {:induction false} ClaudeUnheeded(env: Env, d: Disk, s: Session, out: Outside, n: nat)
    requires d.journal.Prepared? && Enters(env, d, s) && Unheeded(env, d, s, out, Claude, d.journal.transition) && n > 0
    ensures Stuck(env, Replay(d, Cut(Reconcile(env, d, s, out, true).log, n)))
  {
    var p := Probe(Claude, s.run, Left(env, d, s, out, Claude));
    var log := Reconcile(env, d, s, out, true).log;
    UnheededCommitsNothing(env, d, s, out);
    var scans := SettleOfParts(env, d, s, out, true, Claude);
    var more := SettleOfParts(env, d, s, out, true, Codex);
    ReadIsPending(env, d, s, Claude);
    assert log == [] + [p] + log[1..] && Leaves(log[1..], Claude);
    var rest := CutAfter([], p, log[1..], n, Claude);
    ProbeSpoils(env, d, [], Claude, s.run, p.left, rest);
  }

  lemma {:induction false} CodexUnheeded(env: Env, d: Disk, s: Session, out: Outside, n: nat)
    requires d.journal.Prepared? && Enters(env, d, s) && Unheeded(env, d, s, out, Codex, d.journal.transition)
    requires SettleOf(env, d, s, out, true, Claude).Done? && n > |SettleOf(env, d, s, out, true, Claude).log|
    ensures Stuck(env, Replay(d, Cut(Reconcile(env, d, s, out, true).log, n)))
  {
    var p := Probe(Codex, s.run, Left(env, d, s, out, Codex));
    var first := SettleOf(env, d, s, out, true, Claude).log;
    UnheededCommitsNothing(env, d, s, out);
    var scans := SettleOfParts(env, d, s, out, true, Claude);
    var more := SettleOfParts(env, d, s, out, true, Codex);
    ReadIsPending(env, d, s, Codex);
    assert Reconcile(env, d, s, out, true).log == first + [p] + more by {
      assert first + ([p] + more) == first + [p] + more;
    }
    var rest := CutAfter(first, p, more, n, Codex);
    ProbeSpoils(env, d, first, Codex, s.run, p.left, rest);
  }

  // ---- What finalisation does over a journal ----

  /** Finalisation takes no transaction away, or the journaled pair is already the new one. */
  ghost predicate FinalizeHeeds(env: Env, d: Disk, s: Session, n: nat)
    requires d.journal.Prepared?
  {
    n == 0 || Finalize(env, d, s).log == [] || Finished(env, d, d.journal.transition)
  }

  lemma JournaledFinalizeKeeps(env: Env, d: Disk, s: Session, v: Vendor)
    requires Sound(env, d) && d.journal.Prepared? && Finished(env, d, d.journal.transition)
    ensures Obeys(Keeping(env), d, FinalizeVendor(env, d, s, v).log)
    ensures var d' := Replay(d, FinalizeVendor(env, d, s, v).log);
      Sound(env, d') && d'.journal == d.journal && Finished(env, d', d.journal.transition)
  {
    if FinalizeVendor(env, d, s, v).log != [] {
      var e := DropTransaction(v, s.run);
      assert s.run in d.Pending(v).Keys;
      ObeysOne(Keeping(env), d, e);
      ReplayOne(d, e);
      KeepsSound(env, d, e);
    }
  }

  lemma FinalizeHeedsKeeps(env: Env, d: Disk, s: Session)
    requires Sound(env, d) && d.journal.Prepared?
    requires Finalize(env, d, s).log == [] || Finished(env, d, d.journal.transition)
    ensures Obeys(Keeping(env), d, Finalize(env, d, s).log)
  {
    if Finalize(env, d, s).log != [] {
      var codex := FinalizeVendor(env, d, s, Codex);
      JournaledFinalizeKeeps(env, d, s, Codex);
      if codex.Done? {
        var d1 := Replay(d, codex.log);
        JournaledFinalizeKeeps(env, d1, s, Claude);
        Chain(env, d, codex.log, FinalizeVendor(env, d1, s, Claude).log);
      }
    }
  }

  lemma {:induction false} OneDropBares(env: Env, d: Disk, v: Vendor, run: RunId)
    requires Sound(env, d) && d.journal.Prepared? && !Finished(env, d, d.journal.transition) && run in d.Pending(v)
    ensures Bared(env, Replay(d, [DropTransaction(v, run)]))
  {
    assert run in d.Pending(v).Keys;
    ReplayOne(d, DropTransaction(v, run));
    assert Gone(Replay(d, [DropTransaction(v, run)]), v);
  }

  lemma {:induction false} DropStaysBared(env: Env, d: Disk, v: Vendor, run: RunId)
    requires Bared(env, d)
    ensures Bared(env, Replay(d, [DropTransaction(v, run)]))
  {
    ReplayOne(d, DropTransaction(v, run));
  }

  /** A finalisation drops one transaction or both. */
  lemma FinalizeLog(env: Env, d: Disk, s: Session)
    ensures var log := Finalize(env, d, s).log;
      || log == []
      || (log == [DropTransaction(Codex, s.run)] && s.run in d.Pending(Codex))
      || (log == [DropTransaction(Claude, s.run)] && s.run in d.Pending(Claude))
      || (log == [DropTransaction(Codex, s.run), DropTransaction(Claude, s.run)] && s.run in d.Pending(Codex))
  {
    ReplayOne(d, DropTransaction(Codex, s.run));
  }

  lemma {:induction false} FinalizeBares(env: Env, d: Disk, s: Session, n: nat)
    requires Sound(env, d) && d.journal.Prepared? && !FinalizeHeeds(env, d, s, n)
    ensures Stuck(env, Replay(d, Cut(Finalize(env, d, s).log, n)))
  {
    var log := Finalize(env, d, s).log;
    FinalizeLog(env, d, s);
    var first := log[0];
    OneDropBares(env, d, first.vendor, s.run);
    if |Cut(log, n)| == 1 {
      assert Cut(log, n) == [first];
    } else {
      assert Cut(log, n) == [first] + [log[1]];
      ReplayConcat(d, [first], [log[1]]);
      DropStaysBared(env, Replay(d, [first]), Claude, s.run);
    }
  }

  // ---- Whole runs with atomic seeding and removal ----

  /** One call of some session, or a command that leaves a candidate behind in an open transaction. */
  datatype Call =
    | Acquiring(out: Outside, run: RunId)
    | Touching(vendor: Vendor, run: RunId, left: Option<Bytes>)
    | Reconciling(session: Session, out: Outside, probing: bool)
    | Finalizing(session: Session)

  function CallLog(env: Env, d: Disk, c: Call): seq<Event> {
    match c
    case Acquiring(out, run) => Acquire(env, d, out, run).log
    case Touching(v, run, left) => if run in d.Pending(v) then [Probe(v, run, left)] else []
    case Reconciling(s, out, probing) => Reconcile(env, d, s, out, probing).log
    case Finalizing(s) => Finalize(env, d, s).log
  }

  /** What the first `n` events of a call must heed when it finds a journal. */
  ghost predicate Heeds(env: Env, d: Disk, c: Call, n: nat) {
    d.journal.Prepared? ==>
      match c
      case Acquiring(_, _) => true
      case Touching(v, run, left) => n > 0 && run in d.Pending(v) ==> Journals(env, d.journal.transition, v, left)
      case Reconciling(s, out, probing) => ReconcileHeeds(env, d, s, out, probing, d.journal.transition, n)
      case Finalizing(s) => FinalizeHeeds(env, d, s, n)
  }

  lemma AcquireKeeps(env: Env, d: Disk, out: Outside, run: RunId)
    requires Sound(env, d)
    ensures Obeys(Keeping(env), d, Acquire(env, d, out, run).log)
  {
    RecoverKeeps(env, d, out);
    if Recover(env, d, out).Done? {
      var d1 := Replay(d, Recover(env, d, out).log);
      SeedPairKeeps(env, d1, run);
      Chain(env, d, Recover(env, d, out).log, SeedPair(env, d1, run).log);
    }
  }

  /** The events of a call that fails, or whose process dies, after at most `n` of them. */
  function CutLog(env: Env, d: Disk, c: Call, n: nat): seq<Event> {
    Cut(CallLog(env, d, c), n)
  }

  lemma HeedingCallKeeps(env: Env, d: Disk, c: Call, n: nat)
    requires Sound(env, d) && Heeds(env, d, c, n)
    ensures Obeys(Keeping(env), d, CutLog(env, d, c, n))
  {
    if c.Reconciling? && d.journal.Prepared? {
      ReconcileHeedsKeeps(env, d, c.session, c.out, c.probing, n);
    } else if n > 0 {
      match c {
        case Acquiring(out, run) => AcquireKeeps(env, d, out, run);
        case Touching(v, run, left) =>
          if run in d.Pending(v) { ObeysOne(Keeping(env), d, Probe(v, run, left)); }
        case Reconciling(s, out, probing) => ReconcileKeeps(env, d, s, out, probing);
        case Finalizing(s) =>
          if d.journal == NoJournal { FinalizeKeeps(env, d, s); }
          else { FinalizeHeedsKeeps(env, d, s); }
      }
      CutKeeps(env, d, CallLog(env, d, c), n);
    }
  }

  lemma UnheedingCallSticks(env: Env, d: Disk, c: Call, n: nat)
    requires Sound(env, d) && !Heeds(env, d, c, n)
    ensures Stuck(env, Replay(d, CutLog(env, d, c, n)))
  {
    match c
    case Touching(v, run, left) =>
      ProbeSpoils(env, d, [], v, run, left, []);
      assert CutLog(env, d, c, n) == [] + [Probe(v, run, left)] + [];
    case Reconciling(s, out, probing) =>
      if Unheeded(env, d, s, out, Claude, d.journal.transition) {
        ClaudeUnheeded(env, d, s, out, n);
      } else {
        CodexUnheeded(env, d, s, out, n);
      }
    case Finalizing(s) => FinalizeBares(env, d, s, n);
  }

  /**
   The crash invariant survives a call, whole or cut short, exactly when what was done of it heeds the
   journal that it found.
   */
  lemma CallKeepsIffItHeeds(env: Env, d: Disk, c: Call, n: nat)
    requires Sound(env, d)
    ensures Sound(env, Replay(d, CutLog(env, d, c, n))) <==> Heeds(env, d, c, n)
  {
    var log := CutLog(env, d, c, n);
    if Heeds(env, d, c, n) {
      HeedingCallKeeps(env, d, c, n);
      KeepingRun(env, d, log);
    } else {
      UnheedingCallSticks(env, d, c, n);
      if Sound(env, Replay(d, log)) { SoundIsNotStuck(env, Replay(d, log)); }
    }
  }

  /** A call that does not heed the journal ends every later recovery. */
  lemma UnheededJournalIsLost(env: Env, d: Disk, c: Call, n: nat, out: Outside)
    requires Sound(env, d) && !Heeds(env, d, c, n)
    ensures var d' := Replay(d, CutLog(env, d, c, n));
      Recover(env, d', out).Stopped? && Replay(d', Recover(env, d', out).log) == d'
  {
    UnheedingCallSticks(env, d, c, n);
    StuckStops(env, Replay(d, CutLog(env, d, c, n)), out);
  }

  // ---- Runs: the invariant holds throughout exactly when every call heeds ----

  /** Each call makes at most the given number of its events; the session may go on after that. */
  function CallsLog(env: Env, d: Disk, calls: seq<(Call, nat)>): seq<Event>
    decreases |calls|
  {
    if calls == [] then []
    else
      var done := CutLog(env, d, calls[0].0, calls[0].1);
      done + CallsLog(env, Replay(d, done), calls[1..])
  }

  /** Every call of the run heeds the journal it finds. */
  ghost predicate Heedful(env: Env, d: Disk, calls: seq<(Call, nat)>)
    decreases |calls|
  {
    calls == [] ||
    (&& Heeds(env, d, calls[0].0, calls[0].1)
     && Heedful(env, Replay(d, CutLog(env, d, calls[0].0, calls[0].1)), calls[1..]))
  }

  ghost predicate SoundThroughout(env: Env, d: Disk, calls: seq<(Call, nat)>)
    decreases |calls|
  {
    && Sound(env, d)
    && (calls == [] || SoundThroughout(env, Replay(d, CutLog(env, d, calls[0].0, calls[0].1)), calls[1..]))
  }

  lemma {:induction false} SoundThroughoutIffHeedful(env: Env, d: Disk, calls: seq<(Call, nat)>)
    requires Sound(env, d)
    ensures SoundThroughout(env, d, calls) <==> Heedful(env, d, calls)
    decreases |calls|
  {
    if calls != [] {
      CallKeepsIffItHeeds(env, d, calls[0].0, calls[0].1);
      if Heeds(env, d, calls[0].0, calls[0].1) {
        SoundThroughoutIffHeedful(env, Replay(d, CutLog(env, d, calls[0].0, calls[0].1)), calls[1..]);
      }
    }
  }

  /** A heedful run leaves a sound disk, wherever its calls are cut short. */
  lemma {:induction false} RunsStaySound(env: Env, d: Disk, calls: seq<(Call, nat)>)
    requires Sound(env, d) && Heedful(env, d, calls)
    ensures Sound(env, Replay(d, CallsLog(env, d, calls)))
    decreases |calls|
  {
    if calls != [] {
      var done := CutLog(env, d, calls[0].0, calls[0].1);
      CallKeepsIffItHeeds(env, d, calls[0].0, calls[0].1);
      RunsStaySound(env, Replay(d, done), calls[1..]);
      ReplayConcat(d, done, CallsLog(env, Replay(d, done), calls[1..]));
    }
  }
}
