/** The secret-free status report, and its agreement with what recovery would do. */
module PairStatus {
  import opened Basics
  import opened PairDisk
  import opened PairProtocol
  import opened PairPlans
  import opened PairSafety
  import opened PairRecovery
  import opened PairProgress

  datatype State = Absent | RepairRequired | RecoveryPending | Ready

  /** The same oracles with no evidence barrier, as the status report calls the journal check. */
  function Unbarred(env: Env): Env {
    env.(barriers := Pair(false, false))
  }

  predicate RootsPresent(d: Disk) {
    d.accounts.codex.root && d.accounts.claude.root
  }

  /** Nothing lives below an account root that does not exist. */
  predicate Rooted(d: Disk) {
    forall v :: !d.accounts.At(v).root ==> d.accounts.At(v) == Account(false, None, map[])
  }

  lemma RootedHas(d: Disk)
    requires Rooted(d)
    ensures d.accounts.codex.root || (d.Durable(Codex).None? && d.Pending(Codex) == map[])
    ensures d.accounts.claude.root || (d.Durable(Claude).None? && d.Pending(Claude) == map[])
  {
    assert d.accounts.At(Codex) == d.accounts.codex && d.accounts.At(Claude) == d.accounts.claude;
  }

  /** `default_cli_credential_pair_state`, taken while no other process holds the locks. */
  function Status(env: Env, d: Disk): State {
    if !d.accounts.codex.root && !d.accounts.claude.root && d.marker == NoMarker && d.journal == NoJournal then Absent
    else if !RootsPresent(d) || d.marker == NoMarker || !DurablesValid(env, d) then RepairRequired
    else
      var h := DurableHashes(env, d);
      match d.journal
      case BadJournal => RepairRequired
      case Prepared(t) =>
        if (d.marker != Names(t.before) && d.marker != Names(t.after))
           || h.codex !in {t.before.codex, t.after.codex} || h.claude !in {t.before.claude, t.after.claude}
           || (d.Pending(Codex).Keys != {} && d.Pending(Codex).Keys != {t.runs.codex})
           || (d.Pending(Claude).Keys != {} && d.Pending(Claude).Keys != {t.runs.claude}) then RepairRequired
        else if JournalCandidate(Unbarred(env), d, Codex, t).Stopped? then RepairRequired
        else if JournalCandidate(Unbarred(env), d, Claude, t).Stopped? then RepairRequired
        else if (d.Pending(Codex).Keys == {} || d.Pending(Claude).Keys == {})
                && (d.marker != Names(t.after) || h != t.after) then RepairRequired
        else RecoveryPending
      case NoJournal =>
        if d.marker != Names(h) then RepairRequired
        else if d.Pending(Claude).Keys != {} || d.Pending(Codex).Keys != {} then RecoveryPending
        else Ready
  }

  lemma PlanIsPossible(env: Env, d: Disk, t: Transition, candidates: Pair<Option<Bytes>>)
    requires d.Pending(Codex).Keys == {} || d.Pending(Codex).Keys == {t.runs.codex}
    requires d.Pending(Claude).Keys == {} || d.Pending(Claude).Keys == {t.runs.claude}
    ensures Perform(d, RollForwardPlan(env, d, t, candidates, true)).Done?
  {
    var installs, finish := InstallsPlan(env, d, t, candidates), FinishPlan(d, t, true);
    InstallsPerform(env, d, t, candidates);
    var d' := Replay(d, installs);
    assert FinishPlan(d', t, true) == finish;
    FinishPerforms(d', t);
    PerformConcat(d, installs, finish);
    Regroup(InstallPlan(env, d, Claude, t, candidates.claude), InstallPlan(env, d, Codex, t, candidates.codex),
            MarkerPlan(d, t), finish);
  }

  lemma JournalCandidateUnbarred(env: Env, d: Disk, v: Vendor, t: Transition)
    ensures var r := JournalCandidate(Unbarred(env), d, v, t);
      && (r.Done? ==> d.Pending(v).Keys == {} || d.Pending(v).Keys == {t.runs.At(v)})
      && (r.Done? ==> (r.value.None? <==> d.Pending(v).Keys == {}))
      && (r.Done? && r.value.Some? ==> env.sha(r.value.value) == t.after.At(v))
  {
  }

  /**
   With a journal in place the report is `RecoveryPending` exactly when every guard of journal
   recovery passes, barriers aside.
   */
  lemma StatusMatchesJournalRecovery(env: Env, d: Disk)
    requires Rooted(d) && d.journal != NoJournal
    ensures Status(env, d) == RecoveryPending <==> RecoverJournal(Unbarred(env), d).Done?
  {
    RootedHas(d);
    if d.journal.Prepared? {
      var t := d.journal.transition;
      JournalCandidateUnbarred(env, d, Codex, t);
      JournalCandidateUnbarred(env, d, Claude, t);
      var codex, claude := JournalCandidate(Unbarred(env), d, Codex, t), JournalCandidate(Unbarred(env), d, Claude, t);
      if codex.Done? && claude.Done? {
        PlanIsPossible(Unbarred(env), d, t, Pair(codex.value, claude.value));
      }
    }
  }

  /** `Ready` is reported exactly when pair recovery would return without doing anything. */
  lemma {:induction false} ReadyMeansIdle(env: Env, d: Disk, out: Outside)
    requires Rooted(d)
    ensures Status(env, d) == Ready <==> Recover(env, d, out).Done? && Recover(env, d, out).log == []
  {
    RootedHas(d);
    if Recover(env, d, out).Done? && Recover(env, d, out).log == [] {
      if d.journal.Prepared? { JournalRecoveryIsNotIdle(env, d); }
      PendingIsNotIdle(env, d, out);
    }
  }

  lemma JournalRecoveryIsNotIdle(env: Env, d: Disk)
    requires d.journal.Prepared? && RecoverJournal(env, d).Done?
    ensures RecoverJournal(env, d).log != []
  {
    var t := d.journal.transition;
    var codex, claude := JournalCandidate(env, d, Codex, t), JournalCandidate(env, d, Claude, t);
    assert RollForward(env, d, t, Pair(codex.value, claude.value), true).log != [];
  }

  lemma PendingIsNotIdle(env: Env, d: Disk, out: Outside)
    requires RecoverPending(env, d, out).Done? && RecoverPending(env, d, out).log == []
    ensures Named(env, d) && DurablesValid(env, d) && Gone(d, Claude) && Gone(d, Codex)
  {
  }

  /** Every sound disk with a journal is reported as recoverable, never as needing repair. */
  lemma SoundJournalIsReported(env: Env, d: Disk)
    requires Sound(env, d) && d.journal.Prepared? && Rooted(d)
    ensures Status(env, d) == RecoveryPending
  {
    RootedHas(d);
    JournalCandidateFound(env, d, Codex, d.journal.transition);
    JournalCandidateFound(env, d, Claude, d.journal.transition);
  }
}
