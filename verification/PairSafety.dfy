/** Whatever crashes, the disk keeps the journaled order. */
module PairSafety {
  // The protocol is shown to obey a write-ahead discipline, the discipline is shown to keep the pair
  // whole, and no assumption is made about what happens below the `transactions` directories: seeds
  // and removals may be torn anywhere.

  import opened Basics
  import opened PairDisk
  import opened PairProtocol

  /** Both durables are readable and the marker names exactly their hashes. */
  ghost predicate Named(env: Env, d: Disk) {
    && d.Durable(Codex).Some? && d.Durable(Claude).Some?
    && d.marker == Names(DurableHashes(env, d))
  }

  ghost predicate Committed(env: Env, d: Disk) {
    d.journal == NoJournal && Named(env, d)
  }

  /** Codex moves only after Claude, the marker only after both. */
  ghost predicate Between(env: Env, d: Disk, t: Transition) {
    && d.Durable(Codex).Some? && d.Durable(Claude).Some?
    && var h := DurableHashes(env, d);
    && (h.claude == t.after.claude || (h.claude == t.before.claude && h.codex == t.before.codex))
    && h.codex in {t.before.codex, t.after.codex}
    && (d.marker == Names(t.before) || (d.marker == Names(t.after) && h == t.after))
  }

  ghost predicate Safe(env: Env, d: Disk) {
    match d.journal
    case NoJournal => Named(env, d)
    case BadJournal => false
    case Prepared(t) => Between(env, d, t)
  }

  /** The whole pairs the disk may still settle on. */
  ghost function Whole(d: Disk): set<Pair<Digest>> {
    match d.journal
    case Prepared(t) => {t.before, t.after}
    case _ => if d.marker.Names? then {d.marker.hashes} else {}
  }

  ghost function Journaled(log: seq<Event>): set<Pair<Digest>> {
    set e | e in log && e.PutJournal? :: e.transition.after
  }

  // ---- The write-ahead discipline ----

  ghost predicate Disciplined(env: Env, d: Disk, e: Event) {
    match e
    case PutJournal(t) => d.journal == NoJournal && Named(env, d) && d.marker == Names(t.before)
    case PutDurable(v, bytes) =>
      && d.journal.Prepared?
      && d.Durable(Codex).Some? && d.Durable(Claude).Some?
      && var t := d.journal.transition;
      && env.sha(bytes) == t.after.At(v) && d.marker == Names(t.before)
      && (v == Codex ==> DurableHashes(env, d).claude == t.after.claude)
    case PutMarker(hashes) =>
      && d.journal.Prepared? && hashes == d.journal.transition.after
      && d.Durable(Codex).Some? && d.Durable(Claude).Some? && DurableHashes(env, d) == hashes
    case DropJournal =>
      d.journal.Prepared? && Named(env, d) && d.marker == Names(d.journal.transition.after)
    case _ => true
  }

  /** The write-ahead rule, as the rule every log of the protocol obeys. */
  ghost function WriteAhead(env: Env): (Disk, Event) -> bool {
    (d, e) => Disciplined(env, d, e)
  }

  /** Each step of the discipline keeps the pair whole and settles on nothing that was not journaled. */
  lemma DisciplineKeepsSafe(env: Env, d: Disk, e: Event)
    requires Safe(env, d) && Disciplined(env, d, e)
    ensures Safe(env, Apply(d, e))
    ensures Whole(Apply(d, e)) <= Whole(d) + (if e.PutJournal? then {e.transition.after} else {})
  {
  }

  lemma {:induction false} DisciplinedRun(env: Env, d: Disk, log: seq<Event>)
    requires Safe(env, d) && Obeys(WriteAhead(env), d, log)
    ensures Safe(env, Replay(d, log))
    ensures Whole(Replay(d, log)) <= Whole(d) + Journaled(log)
    decreases |log|
  {
    if log != [] {
      DisciplineKeepsSafe(env, d, log[0]);
      DisciplinedRun(env, Apply(d, log[0]), log[1..]);
      assert Journaled(log[1..]) <= Journaled(log);
      assert log[0].PutJournal? ==> log[0] in log && log[0].transition.after in Journaled(log);
    }
  }

  // ---- Events below the transaction directories are neutral ----

  ghost predicate Neutral(e: Event) {
    !e.PutJournal? && !e.PutDurable? && !e.PutMarker? && !e.DropJournal?
  }

  ghost predicate SamePair(d: Disk, d': Disk) {
    && d'.marker == d.marker && d'.journal == d.journal
    && d'.Durable(Codex) == d.Durable(Codex) && d'.Durable(Claude) == d.Durable(Claude)
  }

  ghost predicate NeutralLog(log: seq<Event>) {
    forall e | e in log :: Neutral(e)
  }

  lemma {:induction false} NeutralReplay(env: Env, d: Disk, log: seq<Event>)
    requires NeutralLog(log)
    ensures SamePair(d, Replay(d, log)) && Obeys(WriteAhead(env), d, log)
    decreases |log|
  {
    if log != [] {
      assert Neutral(log[0]);
      assert SamePair(d, Apply(d, log[0]));
      NeutralReplay(env, Apply(d, log[0]), log[1..]);
    }
  }

  lemma RefreshIsNeutral(env: Env, out: Outside, v: Vendor, run: RunId, durable: Bytes, candidate: Bytes,
                         replacement: Option<Bytes>)
    ensures NeutralLog(Refresh(env, out, v, run, durable, candidate, replacement).log)
  {
    if replacement.Some? {
      assert NeutralLog(ProbeStandard(env, out, v, run, replacement.value, [durable, candidate]).log);
    }
    assert NeutralLog(ProbeCandidate(env, out, v, run, candidate, StateConflict).log);
  }

  lemma PrepareOpenIsNeutral(env: Env, d: Disk, v: Vendor, out: Option<Outside>, replacement: Option<Bytes>, r: Recovered)
    requires r.run.Some? && r.run.value in d.Pending(v) && d.Pending(v)[r.run.value].metadata.Active?
    ensures NeutralLog(PrepareOpen(env, d, v, out, replacement, r).log)
    ensures out.None? ==> forall e | e in PrepareOpen(env, d, v, out, replacement, r).log :: e.Scan?
  {
    if out.Some? {
      RefreshIsNeutral(env, out.value, v, r.run.value, r.durable, r.candidate, replacement);
    }
  }

  lemma {:induction false} PrepareIsNeutral(env: Env, d: Disk, v: Vendor, out: Option<Outside>, replacement: Option<Bytes>)
    ensures NeutralLog(Prepare(env, d, v, out, replacement).log)
    ensures out.None? ==> forall e | e in Prepare(env, d, v, out, replacement).log :: e.Scan?
  {
    ExamineOnlyScans(env, d, v);
    ExamineFindsRun(env, d, v);
    var x := Examine(env, d, v);
    if x.Done? && x.value.run.Some? {
      PrepareOpenIsNeutral(env, d, v, out, replacement, x.value);
    }
  }

  /** What an examination that returns has found. */
  lemma ExamineFindsRun(env: Env, d: Disk, v: Vendor)
    ensures var x := Examine(env, d, v);
      x.Done? ==>
        && d.Durable(v) == Some(x.value.durable) && env.valid(v, x.value.durable)
        && if x.value.run.None? then d.Pending(v).Keys == {} && x.value.candidate == x.value.durable && x.log == []
           else var run := x.value.run.value;
             && d.Pending(v).Keys == {run} && d.Pending(v)[run].metadata.Active?
             && d.Pending(v)[run].metadata.runId == run
             && d.Pending(v)[run].candidate == Some(x.value.candidate) && env.valid(v, x.value.candidate)
  {
  }

  lemma ExamineOnlyScans(env: Env, d: Disk, v: Vendor)
    ensures forall e | e in Examine(env, d, v).log :: e.Scan?
    ensures Examine(env, d, v).Done? ==> d.Durable(v) == Some(Examine(env, d, v).value.durable)
  {
  }

  lemma PrepareReadsDurable(env: Env, d: Disk, v: Vendor, out: Option<Outside>, replacement: Option<Bytes>)
    requires Prepare(env, d, v, out, replacement).Done?
    ensures d.Durable(v) == Some(Prepare(env, d, v, out, replacement).value.durable)
  {
    ExamineFindsRun(env, d, v);
  }

  // ---- The protocol obeys the discipline ----

  lemma InstallDisciplined(env: Env, d: Disk, v: Vendor, t: Transition, candidate: Option<Bytes>)
    requires d.journal == Prepared(t) && Between(env, d, t)
    requires v == Codex ==> DurableHashes(env, d).claude == t.after.claude
    requires Installable(env, d, v, t, candidate)
    ensures Obeys(WriteAhead(env), d, InstallPlan(env, d, v, t, candidate))
    ensures var d' := Replay(d, InstallPlan(env, d, v, t, candidate));
      && d'.journal == d.journal && d'.marker == d.marker && Between(env, d', t)
      && env.sha(d'.Durable(v).value) == t.after.At(v)
      && d'.Durable(if v == Codex then Claude else Codex) == d.Durable(if v == Codex then Claude else Codex)
  {
    var plan := InstallPlan(env, d, v, t, candidate);
    if plan != [] {
      ObeysOne(WriteAhead(env), d, plan[0]);
      ReplayOne(d, plan[0]);
      DisciplineKeepsSafe(env, d, plan[0]);
    }
  }

  lemma FinishDisciplined(env: Env, d: Disk, t: Transition, marker: seq<Event>, cleanup: seq<Event>)
    requires d.journal == Prepared(t) && Between(env, d, t) && DurableHashes(env, d) == t.after
    requires marker == MarkerPlan(d, t) && NeutralLog(cleanup)
    ensures Obeys(WriteAhead(env), d, marker + (cleanup + [DropJournal]))
    ensures var d' := Replay(d, marker + (cleanup + [DropJournal]));
      Committed(env, d') && d'.marker == Names(t.after)
  {
    if marker != [] {
      ObeysOne(WriteAhead(env), d, marker[0]);
      ReplayOne(d, marker[0]);
    }
    var d1 := Replay(d, marker);
    assert Obeys(WriteAhead(env), d, marker) && d1.marker == Names(t.after) && Named(env, d1);
    NeutralReplay(env, d1, cleanup);
    var d2 := Replay(d1, cleanup);
    ReplayOne(d2, DropJournal);
    ObeysOne(WriteAhead(env), d2, DropJournal);
    ObeysConcat(WriteAhead(env), d1, cleanup, [DropJournal]);
    ObeysConcat(WriteAhead(env), d, marker, cleanup + [DropJournal]);
    ReplayConcat(d1, cleanup, [DropJournal]);
    ReplayConcat(d, marker, cleanup + [DropJournal]);
  }

  lemma PlanDisciplined(env: Env, d: Disk, t: Transition, candidates: Pair<Option<Bytes>>, cleanup: bool)
    requires d.journal == Prepared(t) && Between(env, d, t)
    requires Installable(env, d, Claude, t, candidates.claude) && Installable(env, d, Codex, t, candidates.codex)
    ensures Obeys(WriteAhead(env), d, RollForwardPlan(env, d, t, candidates, cleanup))
    ensures var d' := Replay(d, RollForwardPlan(env, d, t, candidates, cleanup));
      Committed(env, d') && d'.marker == Names(t.after)
  {
    var claude := InstallPlan(env, d, Claude, t, candidates.claude);
    InstallDisciplined(env, d, Claude, t, candidates.claude);
    var d1 := Replay(d, claude);
    var codex := InstallPlan(env, d, Codex, t, candidates.codex);
    assert codex == InstallPlan(env, d1, Codex, t, candidates.codex);
    InstallDisciplined(env, d1, Codex, t, candidates.codex);
    var d2 := Replay(d1, codex);
    var clean := CleanPlan(d, Claude, t, cleanup) + CleanPlan(d, Codex, t, cleanup);
    FinishDisciplined(env, d2, t, MarkerPlan(d, t), clean);
    var rest := MarkerPlan(d, t) + (clean + [DropJournal]);
    assert clean + [DropJournal] == CleanPlan(d, Claude, t, cleanup) + (CleanPlan(d, Codex, t, cleanup) + [DropJournal]);
    ObeysConcat(WriteAhead(env), d1, codex, rest);
    ObeysConcat(WriteAhead(env), d, claude, codex + rest);
    ReplayConcat(d1, codex, rest);
    ReplayConcat(d, claude, codex + rest);
  }

  lemma RollForwardDisciplined(env: Env, d: Disk, t: Transition, candidates: Pair<Option<Bytes>>, cleanup: bool)
    requires d.journal == Prepared(t) && Between(env, d, t)
    ensures Obeys(WriteAhead(env), d, RollForward(env, d, t, candidates, cleanup).log)
    ensures var r := RollForward(env, d, t, candidates, cleanup);
      r.Done? ==> Committed(env, Replay(d, r.log)) && Replay(d, r.log).marker == Names(t.after)
  {
    var r := RollForward(env, d, t, candidates, cleanup);
    if r.log != [] || r.Done? {
      if Installable(env, d, Codex, t, candidates.codex) {
        PlanDisciplined(env, d, t, candidates, cleanup);
        ObeysPrefix(WriteAhead(env), d, RollForwardPlan(env, d, t, candidates, cleanup), r.log);
      } else {
        InstallDisciplined(env, d, Claude, t, candidates.claude);
      }
    }
  }

  lemma CommitDisciplined(env: Env, d: Disk, t: Transition, codex: Bytes, claude: Bytes, cleanup: bool)
    requires Safe(env, d) && (d.journal == NoJournal ==> d.marker == Names(t.before))
    ensures Obeys(WriteAhead(env), d, Commit(env, d, t, codex, claude, cleanup).log)
    ensures var r := Commit(env, d, t, codex, claude, cleanup);
      r.Done? ==> Committed(env, Replay(d, r.log)) && Replay(d, r.log).marker == Names(t.after)
  {
    var candidates := Pair(Some(codex), Some(claude));
    if d.journal == NoJournal {
      var w := PutJournal(t);
      var d1 := Replay(d, [w]);
      ReplayOne(d, w);
      ObeysOne(WriteAhead(env), d, w);
      RollForwardDisciplined(env, d1, t, candidates, cleanup);
      var f := RollForward(env, d1, t, candidates, cleanup);
      ObeysConcat(WriteAhead(env), d, [w], f.log);
      ReplayConcat(d, [w], f.log);
    } else if d.journal == Prepared(t) {
      RollForwardDisciplined(env, d, t, candidates, cleanup);
      var f := RollForward(env, d, t, candidates, cleanup);
      assert [] + f.log == f.log;
    }
  }

  lemma JournalCandidateOnlyScans(env: Env, d: Disk, v: Vendor, t: Transition)
    ensures forall e | e in JournalCandidate(env, d, v, t).log :: e.Scan?
  {
  }

  lemma {:induction false} RecoverJournalDisciplined(env: Env, d: Disk)
    requires Safe(env, d)
    ensures Obeys(WriteAhead(env), d, RecoverJournal(env, d).log)
    ensures RecoverJournal(env, d).Done? ==>
      var d' := Replay(d, RecoverJournal(env, d).log);
      && Committed(env, d')
      && (d.journal.Prepared? ==> d'.marker == Names(d.journal.transition.after))
  {
    if d.journal.Prepared? {
      var t := d.journal.transition;
      var codex, claude := JournalCandidate(env, d, Codex, t), JournalCandidate(env, d, Claude, t);
      JournalCandidateOnlyScans(env, d, Codex, t);
      JournalCandidateOnlyScans(env, d, Claude, t);
      var scans := codex.log + claude.log;
      NeutralReplay(env, d, codex.log);
      NeutralReplay(env, d, scans);
      ScansChangeNothing(d, scans);
      if codex.Done? && claude.Done? {
        var f := RollForward(env, d, t, Pair(codex.value, claude.value), true);
        RollForwardDisciplined(env, d, t, Pair(codex.value, claude.value), true);
        ObeysConcat(WriteAhead(env), d, scans, f.log);
        ReplayConcat(d, scans, f.log);
      }
    }
  }

  lemma {:induction false} ScansChangeNothing(d: Disk, log: seq<Event>)
    requires forall e | e in log :: e.Scan?
    ensures Replay(d, log) == d
    decreases |log|
  {
    if log != [] {
      ScansChangeNothing(d, log[1..]);
    }
  }

  lemma SettlePendingDisciplined(env: Env, d: Disk, claude: Recovered, codex: Recovered)
    requires Committed(env, d) && d.Durable(Claude) == Some(claude.durable) && d.Durable(Codex) == Some(codex.durable)
    ensures var r := SettlePending(env, d, claude, codex);
      Obeys(WriteAhead(env), d, r.log) && (r.Done? ==> Committed(env, Replay(d, r.log)))
  {
    if claude.run.Some? && claude.run == codex.run {
      if !Changed(claude) && !Changed(codex) {
        NeutralReplay(env, d, Perform(d, DropRuns(claude.run, codex.run)).log);
      } else {
        var t := Transition(Pair(codex.run.value, claude.run.value), Hashes(env, codex.durable, claude.durable),
                            Hashes(env, codex.candidate, claude.candidate));
        CommitDisciplined(env, d, t, codex.candidate, claude.candidate, true);
      }
    }
  }

  lemma CommitPendingDisciplined(env: Env, d: Disk, out: Outside, replacement: Pair<Option<Bytes>>)
    requires Committed(env, d)
    ensures Obeys(WriteAhead(env), d, CommitPending(env, d, out, replacement).log)
    ensures CommitPending(env, d, out, replacement).Done? ==>
      Committed(env, Replay(d, CommitPending(env, d, out, replacement).log))
  {
    var r := CommitPending(env, d, out, replacement);
    var claude := Prepare(env, d, Claude, Some(out), replacement.claude);
    PrepareIsNeutral(env, d, Claude, Some(out), replacement.claude);
    NeutralReplay(env, d, claude.log);
    if claude.Done? {
      var d1 := Replay(d, claude.log);
      var codex := Prepare(env, d1, Codex, Some(out), replacement.codex);
      PrepareIsNeutral(env, d1, Codex, Some(out), replacement.codex);
      NeutralReplay(env, d1, codex.log);
      var log := claude.log + codex.log;
      ReplayConcat(d, claude.log, codex.log);
      ObeysConcat(WriteAhead(env), d, claude.log, codex.log);
      if codex.Done? {
        var d2 := Replay(d1, codex.log);
        PrepareReadsDurable(env, d, Claude, Some(out), replacement.claude);
        PrepareReadsDurable(env, d1, Codex, Some(out), replacement.codex);
        SettlePendingDisciplined(env, d2, claude.value, codex.value);
        var w := SettlePending(env, d2, claude.value, codex.value);
        ObeysConcat(WriteAhead(env), d, log, w.log);
        ReplayConcat(d, log, w.log);
      }
    }
  }

  lemma RecoverPendingDisciplined(env: Env, d: Disk, out: Outside)
    requires Committed(env, d)
    ensures Obeys(WriteAhead(env), d, RecoverPending(env, d, out).log)
    ensures RecoverPending(env, d, out).Done? ==> Committed(env, Replay(d, RecoverPending(env, d, out).log))
  {
    var replacement := Pair(Newer(env, Codex, out.standard.codex, d.Durable(Codex).value),
                            Newer(env, Claude, out.standard.claude, d.Durable(Claude).value));
    var claude, codex := Prepare(env, d, Claude, None, None), Prepare(env, d, Codex, None, None);
    PrepareIsNeutral(env, d, Claude, None, None);
    PrepareIsNeutral(env, d, Codex, None, None);
    PrepareOnlyScans(env, d, Claude);
    PrepareOnlyScans(env, d, Codex);
    var log := claude.log + codex.log;
    NeutralReplay(env, d, claude.log);
    NeutralReplay(env, d, log);
    ScansChangeNothing(d, log);
    if claude.Done? && codex.Done? {
      var l, c := claude.value, codex.value;
      if !Changed(l) && !Changed(c) {
        var p := Perform(d, DropRuns(l.run, c.run));
        NeutralReplay(env, d, p.log);
        ObeysConcat(WriteAhead(env), d, log, p.log);
        ReplayConcat(d, log, p.log);
      } else {
        var w := CommitPending(env, d, out, replacement);
        CommitPendingDisciplined(env, d, out, replacement);
        ObeysConcat(WriteAhead(env), d, log, w.log);
        ReplayConcat(d, log, w.log);
      }
    }
  }

  lemma PrepareOnlyScans(env: Env, d: Disk, v: Vendor)
    ensures forall e | e in Prepare(env, d, v, None, None).log :: e.Scan?
  {
    PrepareIsNeutral(env, d, v, None, None);
  }

  lemma {:induction false} RecoverDisciplined(env: Env, d: Disk, out: Outside)
    requires Safe(env, d)
    ensures Obeys(WriteAhead(env), d, Recover(env, d, out).log)
    ensures Recover(env, d, out).Done? ==> Committed(env, Replay(d, Recover(env, d, out).log))
  {
    var j := RecoverJournal(env, d);
    RecoverJournalDisciplined(env, d);
    if j.Done? {
      var d1 := Replay(d, j.log);
      var p := RecoverPending(env, d1, out);
      RecoverPendingDisciplined(env, d1, out);
      ObeysConcat(WriteAhead(env), d, j.log, p.log);
      ReplayConcat(d, j.log, p.log);
    }
  }

  lemma {:induction false} SettleIsNeutral(env: Env, out: Outside, v: Vendor, s: Session, candidate: Bytes, history: seq<Bytes>,
                        changed: bool, probing: bool)
    ensures NeutralLog(Settle(env, out, v, s, candidate, history, changed, probing).log)
  {
    assert NeutralLog(ProbeCandidate(env, out, v, s.run, candidate, RefreshFailure).log);
    forall h ensures NeutralLog(Barrier(env, v, s.run, h).log) {
    }
  }

  lemma ReconcileDisciplined(env: Env, d: Disk, s: Session, out: Outside, probing: bool)
    requires Safe(env, d)
    ensures Obeys(WriteAhead(env), d, Reconcile(env, d, s, out, probing).log)
    ensures var r := Reconcile(env, d, s, out, probing);
      r.Done? && r.value.0 ==> Committed(env, Replay(d, r.log)) && Replay(d, r.log).marker == Names(r.value.1.baseline)
  {
    var r := Reconcile(env, d, s, out, probing);
    if r.log != [] {
      var codex, claude := ReadCandidate(env, d, s, Codex), ReadCandidate(env, d, s, Claude);
      var hx, hl := Remember(s.history.codex, codex.value), Remember(s.history.claude, claude.value);
      var l := Settle(env, out, Claude, s, claude.value, hl.value, claude.value != d.Durable(Claude).value, probing);
      SettleIsNeutral(env, out, Claude, s, claude.value, hl.value, claude.value != d.Durable(Claude).value, probing);
      NeutralReplay(env, d, l.log);
      if l.Done? {
        var c := Settle(env, out, Codex, s, codex.value, hx.value, codex.value != d.Durable(Codex).value, probing);
        SettleIsNeutral(env, out, Codex, s, codex.value, hx.value, codex.value != d.Durable(Codex).value, probing);
        var log := l.log + c.log;
        NeutralReplay(env, d, log);
        if c.Done? {
          var d1 := Replay(d, log);
          var t := Transition(Pair(s.run, s.run), s.baseline, Hashes(env, c.value.0, l.value.0));
          var w := Commit(env, d1, t, c.value.0, l.value.0, false);
          CommitDisciplined(env, d1, t, c.value.0, l.value.0, false);
          ObeysConcat(WriteAhead(env), d, log, w.log);
          ReplayConcat(d, log, w.log);
        }
      }
    }
  }

  // ---- Whole runs ----

  /** One call made by some process holding the profile and account locks, or outside interference. */
  datatype Act =
    | Recovering(out: Outside)
    | Reconciling(session: Session, out: Outside, probing: bool)
    | Finalizing(session: Session)
    | Opening(run: RunId)
    | Interfering(vendor: Vendor, pending: map<RunId, Transaction>)

  /** The process executes at most `steps` events of the call before it dies. */
  datatype Turn = Turn(act: Act, steps: nat)

  function ActLog(env: Env, d: Disk, act: Act): seq<Event> {
    match act
    case Recovering(out) => Recover(env, d, out).log
    case Reconciling(s, out, probing) => Reconcile(env, d, s, out, probing).log
    case Finalizing(s) => Finalize(env, d, s).log
    case Opening(run) => SeedPair(env, d, run).log
    case Interfering(v, pending) => [Meddle(v, pending)]
  }

  function TurnLog(env: Env, d: Disk, turn: Turn): seq<Event> {
    var log := ActLog(env, d, turn.act);
    if turn.steps < |log| then log[..turn.steps] else log
  }

  /** The events of a whole run: every turn starts from whatever the previous ones left behind. */
  function RunLog(env: Env, d: Disk, turns: seq<Turn>): seq<Event>
    decreases |turns|
  {
    if turns == [] then []
    else
      var first := TurnLog(env, d, turns[0]);
      first + RunLog(env, Replay(d, first), turns[1..])
  }

  lemma {:induction false} ActDisciplined(env: Env, d: Disk, act: Act)
    requires Safe(env, d)
    ensures Obeys(WriteAhead(env), d, ActLog(env, d, act))
  {
    match act
    case Recovering(out) => RecoverDisciplined(env, d, out);
    case Reconciling(s, out, probing) => ReconcileDisciplined(env, d, s, out, probing);
    case Finalizing(s) => NeutralReplay(env, d, Finalize(env, d, s).log);
    case Opening(run) => NeutralReplay(env, d, SeedPair(env, d, run).log);
    case Interfering(v, pending) => NeutralReplay(env, d, [Meddle(v, pending)]);
  }

  lemma {:induction false} RunDisciplined(env: Env, d: Disk, turns: seq<Turn>)
    requires Safe(env, d)
    ensures Obeys(WriteAhead(env), d, RunLog(env, d, turns))
    decreases |turns|
  {
    if turns != [] {
      var first := TurnLog(env, d, turns[0]);
      ActDisciplined(env, d, turns[0].act);
      ObeysPrefix(WriteAhead(env), d, ActLog(env, d, turns[0].act), first);
      DisciplinedRun(env, d, first);
      RunDisciplined(env, Replay(d, first), turns[1..]);
      ObeysConcat(WriteAhead(env), d, first, RunLog(env, Replay(d, first), turns[1..]));
    }
  }

  /**
   Whatever calls, crashes and interference follow a committed pair, the disk never leaves the
   journaled order, and the pairs it may settle on are the first one and those that were journaled.
   */
  lemma {:induction false} RunsNeverMix(env: Env, d: Disk, turns: seq<Turn>)
    requires Committed(env, d)
    ensures var d' := Replay(d, RunLog(env, d, turns));
      && Safe(env, d')
      && Whole(d') <= {d.marker.hashes} + Journaled(RunLog(env, d, turns))
  {
    RunDisciplined(env, d, turns);
    DisciplinedRun(env, d, RunLog(env, d, turns));
  }

  /**
   Crash atomicity: after any such run, a recovery that returns leaves no journal, and marker and
   both durables name one whole pair: the first one, or one that some process journaled.
   */
  lemma CompletedRecoveryIsWhole(env: Env, d: Disk, turns: seq<Turn>, out: Outside)
    requires Committed(env, d)
    ensures var crashed := Replay(d, RunLog(env, d, turns));
      var r := Recover(env, crashed, out);
      var d' := Replay(crashed, r.log);
      r.Done? ==>
        && Committed(env, d')
        && DurableHashes(env, d') in {d.marker.hashes} + Journaled(RunLog(env, d, turns)) + Journaled(r.log)
  {
    RunsNeverMix(env, d, turns);
    var crashed := Replay(d, RunLog(env, d, turns));
    RecoverDisciplined(env, crashed, out);
    DisciplinedRun(env, crashed, Recover(env, crashed, out).log);
    var d' := Replay(crashed, Recover(env, crashed, out).log);
    assert Committed(env, d') ==> DurableHashes(env, d') in Whole(d');
  }

  /** Without hash collisions a committed marker names one pair of files. */
  lemma CommittedBytes(env: Env, d: Disk, codex: Bytes, claude: Bytes)
    requires CollisionFree(env) && Committed(env, d)
    ensures d.marker == Names(Hashes(env, codex, claude)) <==>
            d.Durable(Codex) == Some(codex) && d.Durable(Claude) == Some(claude)
  {
  }

  /** `d` holds the one pair of files that `t` was to install. */
  ghost predicate HoldsAfter(env: Env, d: Disk, t: Transition) {
    forall codex, claude | Hashes(env, codex, claude) == t.after ::
      d.Durable(Codex) == Some(codex) && d.Durable(Claude) == Some(claude)
  }

  /** The bytes themselves: both files are the first ones, or both are those that one journal write was for. */
  lemma CompletedRecoveryKeepsBytes(env: Env, d: Disk, turns: seq<Turn>, out: Outside)
    requires Committed(env, d) && CollisionFree(env)
    ensures var crashed := Replay(d, RunLog(env, d, turns));
      var r := Recover(env, crashed, out);
      var d' := Replay(crashed, r.log);
      r.Done? ==>
        || (d'.Durable(Codex) == d.Durable(Codex) && d'.Durable(Claude) == d.Durable(Claude))
        || exists e :: e in RunLog(env, d, turns) + r.log && e.PutJournal? && HoldsAfter(env, d', e.transition)
  {
    var crashed := Replay(d, RunLog(env, d, turns));
    var r := Recover(env, crashed, out);
    var d' := Replay(crashed, r.log);
    CompletedRecoveryIsWhole(env, d, turns, out);
    if r.Done? {
      if DurableHashes(env, d') == d.marker.hashes {
        CommittedBytes(env, d', d.Durable(Codex).value, d.Durable(Claude).value);
      } else {
        var e :| e in RunLog(env, d, turns) + r.log && e.PutJournal? && e.transition.after == DurableHashes(env, d');
        HoldsItsHashes(env, d', e.transition);
      }
    }
  }

  lemma HoldsItsHashes(env: Env, d: Disk, t: Transition)
    requires Committed(env, d) && CollisionFree(env) && DurableHashes(env, d) == t.after
    ensures HoldsAfter(env, d, t)
  {
    forall codex, claude | Hashes(env, codex, claude) == t.after
      ensures d.Durable(Codex) == Some(codex) && d.Durable(Claude) == Some(claude)
    {
      CommittedBytes(env, d, codex, claude);
    }
  }
}
