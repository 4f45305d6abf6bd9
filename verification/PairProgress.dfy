/** Progress and confluence of journal recovery, from any sound disk. */
module PairProgress {
  // It finishes exactly when the evidence barriers admit the journaled candidates, every write is one
  // step of a known number, and crashing and starting over ends where never crashing ends.

  import opened Basics
  import opened PairDisk
  import opened PairProtocol
  import opened PairSafety
  import opened PairRecovery

  /** The vendor's barrier admits the recovery signal and the journaled candidate. */
  ghost predicate Admitted(env: Env, d: Disk, v: Vendor, t: Transition) {
    Gone(d, v) || !env.barriers.At(v) ||
    (&& env.admits(v, t.runs.At(v), [])
     && Witness(env, d, v, t) && env.admits(v, t.runs.At(v), [d.Pending(v)[t.runs.At(v)].candidate.value]))
  }

  ghost predicate AllAdmitted(env: Env, d: Disk) {
    d.journal.Prepared? ==> Admitted(env, d, Codex, d.journal.transition) && Admitted(env, d, Claude, d.journal.transition)
  }

  lemma JournalCandidateFound(env: Env, d: Disk, v: Vendor, t: Transition)
    requires Resumable(env, d, t)
    ensures var r := JournalCandidate(env, d, v, t);
      && (r.Done? <==> Admitted(env, d, v, t))
      && (r.Done? ==> Usable(env, d, v, t, r.value))
  {
  }

  lemma {:induction false} ScansKeep(env: Env, d: Disk, log: seq<Event>)
    requires Sound(env, d) && forall e | e in log :: e.Scan?
    ensures Obeys(Keeping(env), d, log)
    decreases |log|
  {
    if log != [] {
      assert log[0] in log;
      ScansKeep(env, d, log[1..]);
    }
  }

  lemma JournalRecoveryKeeps(env: Env, d: Disk)
    requires Sound(env, d) && d.journal.Prepared?
    ensures Obeys(Keeping(env), d, RecoverJournal(env, d).log)
    ensures RecoverJournal(env, d).Done? <==> AllAdmitted(env, d)
    ensures RecoverJournal(env, d).Stopped? ==> Replay(d, RecoverJournal(env, d).log) == d
    ensures RecoverJournal(env, d).Done? ==>
      var d' := Replay(d, RecoverJournal(env, d).log);
      && d'.journal == NoJournal && Sound(env, d') && d'.marker == Names(d.journal.transition.after)
      && Gone(d', Claude) && Gone(d', Codex)
  {
    var t := d.journal.transition;
    var codex, claude := JournalCandidate(env, d, Codex, t), JournalCandidate(env, d, Claude, t);
    JournalCandidateOnlyScans(env, d, Codex, t);
    JournalCandidateOnlyScans(env, d, Claude, t);
    JournalCandidateFound(env, d, Codex, t);
    JournalCandidateFound(env, d, Claude, t);
    var scans := codex.log + claude.log;
    ScansKeep(env, d, codex.log);
    ScansKeep(env, d, scans);
    ScansChangeNothing(d, codex.log);
    ScansChangeNothing(d, scans);
    if codex.Done? && claude.Done? {
      var candidates := Pair(codex.value, claude.value);
      RollForwardFinishes(env, d, t, candidates, true);
      Chain(env, d, scans, RollForwardPlan(env, d, t, candidates, true));
    }
  }

  // ---- Distance to the end ----

  /** The writes still to be made: two durables, the marker, two removals and the journal itself. */
  ghost function Remaining(env: Env, d: Disk): nat
    requires Sound(env, d)
  {
    if d.journal == NoJournal then 0
    else
      var t := d.journal.transition;
      var h := DurableHashes(env, d);
      1 + (if h.claude != t.after.claude then 1 else 0) + (if h.codex != t.after.codex then 1 else 0)
      + (if d.marker != Names(t.after) then 1 else 0)
      + (if Gone(d, Claude) then 0 else 1) + (if Gone(d, Codex) then 0 else 1)
  }

  function Writes(log: seq<Event>): nat {
    if log == [] then 0 else (if log[0].Scan? then 0 else 1) + Writes(log[1..])
  }

  /** Where journal recovery must end: old bytes already at the new hash stay, the others are the candidates. */
  ghost function Landing(env: Env, d: Disk): Disk
    requires Sound(env, d) && d.journal.Prepared?
  {
    var t := d.journal.transition;
    Disk(Names(t.after), NoJournal, Pair(LandedAccount(env, d, Codex, t), LandedAccount(env, d, Claude, t)))
  }

  ghost function LandedAccount(env: Env, d: Disk, v: Vendor, t: Transition): Account
    requires Resumable(env, d, t)
  {
    var a := d.accounts.At(v);
    var durable := if env.sha(a.durable.value) == t.after.At(v) then a.durable else a.pending[t.runs.At(v)].candidate;
    Account(a.root, durable, map[])
  }

  /** Recovery only scans, or makes one of the remaining writes; the journal goes last of all. */
  ghost predicate RecoveryEvent(d: Disk, e: Event) {
    e.Scan? || e.PutDurable? || e.PutMarker? || e.DropTransaction? || (e.DropJournal? && Gone(d, Claude) && Gone(d, Codex))
  }

  lemma OneStepNearer(env: Env, d: Disk, e: Event)
    requires Sound(env, d) && d.journal.Prepared? && Keeps(env, d, e) && RecoveryEvent(d, e)
    ensures Sound(env, Apply(d, e))
    ensures Remaining(env, Apply(d, e)) == Remaining(env, d) - (if e.Scan? then 0 else 1)
    ensures if e.DropJournal? then Apply(d, e) == Landing(env, d)
            else Apply(d, e).journal == d.journal && Landing(env, Apply(d, e)) == Landing(env, d)
    ensures AllAdmitted(env, d) ==> AllAdmitted(env, Apply(d, e))
  {
    KeepsSound(env, d, e);
    if e.DropTransaction? {
      assert d.Pending(e.vendor).Keys == {e.run};
    }
  }

  ghost predicate RecoveryKind(e: Event) {
    e.Scan? || e.PutDurable? || e.PutMarker? || e.DropTransaction? || e.DropJournal?
  }

  ghost predicate RecoveryLog(log: seq<Event>) {
    && (forall k | 0 <= k < |log| :: RecoveryKind(log[k]))
    && (forall k | 0 <= k < |log| - 1 :: !log[k].DropJournal?)
  }

  lemma {:induction false} StepsNearer(env: Env, d: Disk, log: seq<Event>, k: nat)
    requires Sound(env, d) && d.journal.Prepared? && Obeys(Keeping(env), d, log) && RecoveryLog(log) && k <= |log|
    requires Gone(Replay(d, log), Claude) && Gone(Replay(d, log), Codex)
    ensures var d' := Replay(d, log[..k]);
      && Sound(env, d') && Remaining(env, d') + Writes(log[..k]) == Remaining(env, d)
      && (if d'.journal == NoJournal then d' == Landing(env, d)
          else d'.journal == d.journal && Landing(env, d') == Landing(env, d))
      && (AllAdmitted(env, d) ==> AllAdmitted(env, d'))
    decreases |log|
  {
    if k != 0 {
      var e, rest := log[0], log[1..];
      var d1 := Apply(d, e);
      if e.DropJournal? {
        assert log == [e];
        ReplayOne(d, e);
      }
      OneStepNearer(env, d, e);
      assert log[..k][1..] == rest[..k - 1];
      if e.DropJournal? {
        assert rest[..k - 1] == [];
      } else {
        assert RecoveryLog(rest);
        StepsNearer(env, d1, rest, k - 1);
      }
    }
  }

  lemma RecoveryLogConcat(a: seq<Event>, b: seq<Event>)
    requires forall e | e in a :: RecoveryKind(e) && !e.DropJournal?
    requires RecoveryLog(b)
    ensures RecoveryLog(a + b)
  {
    forall k | 0 <= k < |a + b|
      ensures RecoveryKind((a + b)[k]) && (k < |a + b| - 1 ==> !(a + b)[k].DropJournal?)
    {
      assert k < |a| ==> (a + b)[k] == a[k] && a[k] in a;
      assert k >= |a| ==> (a + b)[k] == b[k - |a|];
    }
  }

  lemma {:induction false} RollForwardLog(env: Env, d: Disk, t: Transition, candidates: Pair<Option<Bytes>>)
    ensures RecoveryLog(RollForward(env, d, t, candidates, true).log)
  {
    var clean := CleanPlan(d, Claude, t, true);
    var clean' := CleanPlan(d, Codex, t, true);
    RecoveryLogConcat(clean', [DropJournal]);
    RecoveryLogConcat(clean, clean' + [DropJournal]);
    var c := clean + (clean' + [DropJournal]);
    RecoveryLogConcat(MarkerPlan(d, t), c);
    RecoveryLogConcat(InstallPlan(env, d, Codex, t, candidates.codex), MarkerPlan(d, t) + c);
    RecoveryLogConcat(InstallPlan(env, d, Claude, t, candidates.claude),
                      InstallPlan(env, d, Codex, t, candidates.codex) + (MarkerPlan(d, t) + c));
    var log, plan := RollForward(env, d, t, candidates, true).log, RollForwardPlan(env, d, t, candidates, true);
    assert log <= plan || log == InstallPlan(env, d, Claude, t, candidates.claude);
    assert forall k | 0 <= k < |log| :: log <= plan ==> log[k] == plan[k];
  }

  lemma {:induction false} JournalRecoveryLog(env: Env, d: Disk)
    ensures RecoveryLog(RecoverJournal(env, d).log)
  {
    if d.journal.Prepared? {
      var t := d.journal.transition;
      var codex, claude := JournalCandidate(env, d, Codex, t), JournalCandidate(env, d, Claude, t);
      JournalCandidateOnlyScans(env, d, Codex, t);
      JournalCandidateOnlyScans(env, d, Claude, t);
      RecoveryLogConcat(codex.log, []);
      RecoveryLogConcat(codex.log + claude.log, []);
      assert codex.log + [] == codex.log;
      assert codex.log + claude.log + [] == codex.log + claude.log;
      if codex.Done? && claude.Done? {
        RollForwardLog(env, d, t, Pair(codex.value, claude.value));
        RecoveryLogConcat(codex.log + claude.log, RollForward(env, d, t, Pair(codex.value, claude.value), true).log);
      }
    }
  }

  /**
   Progress and confluence: journal recovery makes exactly the remaining writes, a crash after any of
   its events leaves a disk that is nearer by the writes made, and recovering from there ends on the
   very disk the uninterrupted recovery ends on.
   */
  lemma RecoveryConverges(env: Env, d: Disk, k: nat)
    requires Sound(env, d) && d.journal.Prepared? && AllAdmitted(env, d)
    requires k <= |RecoverJournal(env, d).log|
    ensures RecoverJournal(env, d).Done?
    ensures Writes(RecoverJournal(env, d).log) == Remaining(env, d)
    ensures var crashed := Replay(d, RecoverJournal(env, d).log[..k]);
      && Sound(env, crashed)
      && Remaining(env, crashed) + Writes(RecoverJournal(env, d).log[..k]) == Remaining(env, d)
      && RecoverJournal(env, crashed).Done?
      && Replay(crashed, RecoverJournal(env, crashed).log) == Landing(env, d)
      && Replay(d, RecoverJournal(env, d).log) == Landing(env, d)
  {
    var log := RecoverJournal(env, d).log;
    JournalRecoveryKeeps(env, d);
    JournalRecoveryLog(env, d);
    StepsNearer(env, d, log, |log|);
    assert log[..|log|] == log;
    StepsNearer(env, d, log, k);
    var crashed := Replay(d, log[..k]);
    if crashed.journal.Prepared? {
      JournalRecoveryKeeps(env, crashed);
      JournalRecoveryLog(env, crashed);
      var again := RecoverJournal(env, crashed).log;
      StepsNearer(env, crashed, again, |again|);
      assert again[..|again|] == again;
    }
  }
}
