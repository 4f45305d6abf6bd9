/** The crash invariant, and the roll-forward from it. */
module PairRecovery {
  // Seeding and removing a transaction directory are atomic here: every reachable disk is then sound,
  // and from every sound disk with a journal each guard of journal recovery passes.

  import opened Basics
  import opened PairDisk
  import opened PairProtocol
  import opened PairSafety

  function Other(v: Vendor): Vendor { if v == Codex then Claude else Codex }

  /** The transaction that the journal relies on is alone, bound, and holds the journaled candidate. */
  ghost predicate Witness(env: Env, d: Disk, v: Vendor, t: Transition) {
    var run := t.runs.At(v);
    && d.Pending(v).Keys == {run}
    && var x := d.Pending(v)[run];
    && x.metadata.Active? && x.metadata.runId == run && x.metadata.baseline in {t.before.At(v), t.after.At(v)}
    && x.candidate.Some? && env.valid(v, x.candidate.value) && env.sha(x.candidate.value) == t.after.At(v)
  }

  /** A candidate that the journal can go on with: valid, and with the journaled hash. */
  predicate Journals(env: Env, t: Transition, v: Vendor, left: Option<Bytes>) {
    left.Some? && env.valid(v, left.value) && env.sha(left.value) == t.after.At(v)
  }

  predicate Gone(d: Disk, v: Vendor) {
    d.Pending(v).Keys == {}
  }

  ghost predicate Finished(env: Env, d: Disk, t: Transition) {
    Named(env, d) && d.marker == Names(t.after)
  }

  /** A disk from which the journaled pair can be rolled forward. */
  ghost predicate Resumable(env: Env, d: Disk, t: Transition) {
    && d.journal == Prepared(t) && Between(env, d, t) && DurablesValid(env, d)
    && (Witness(env, d, Claude, t) || Gone(d, Claude))
    && (Witness(env, d, Codex, t) || Gone(d, Codex))
    && (Gone(d, Claude) || Gone(d, Codex) ==> Finished(env, d, t))
  }

  /** At most one transaction is pending, and it is based on the durable credential. */
  ghost predicate Bound(env: Env, d: Disk, v: Vendor) {
    && d.Durable(v).Some?
    && (Gone(d, v) || exists run :: d.Pending(v).Keys == {run} && d.Pending(v)[run].metadata == Active(run, env.sha(d.Durable(v).value)))
  }

  ghost predicate Sound(env: Env, d: Disk) {
    match d.journal
    case NoJournal => Named(env, d) && DurablesValid(env, d) && Bound(env, d, Codex) && Bound(env, d, Claude)
    case BadJournal => false
    case Prepared(t) => Resumable(env, d, t)
  }

  // ---- The rule obeyed by every call when seeding and removal are atomic ----

  ghost predicate Keeps(env: Env, d: Disk, e: Event) {
    Possible(d, e) &&
    match d.journal
    case NoJournal => (
      match e
      case Scan(_, _, _) => true
      case Probe(_, _, _) => true
      case PutCandidate(_, _, _) => true
      case DropTransaction(_, _) => true
      case Seed(v, run, bytes, baseline) => Gone(d, v) && d.Durable(v).Some? && baseline == env.sha(d.Durable(v).value)
      case PutJournal(t) => d.marker == Names(t.before) && Witness(env, d, Codex, t) && Witness(env, d, Claude, t)
      case _ => false)
    case BadJournal => false
    case Prepared(t) => (
      match e
      case Scan(_, _, _) => true
      case Probe(v, run, left) => run in d.Pending(v) ==> Journals(env, t, v, left)
      case PutDurable(v, bytes) =>
        && Disciplined(env, d, e) && env.sha(d.Durable(v).value) != t.after.At(v)
        && Witness(env, d, v, t) && d.Pending(v)[t.runs.At(v)].candidate == Some(bytes)
      case PutMarker(_) => Disciplined(env, d, e) && d.marker != Names(t.after)
      case PutMetadata(v, run, baseline) =>
        Finished(env, d, t) && run == t.runs.At(v) && baseline == t.after.At(v)
      case DropTransaction(v, run) => Finished(env, d, t) && run == t.runs.At(v)
      case DropJournal => Finished(env, d, t) && Bound(env, d, Codex) && Bound(env, d, Claude)
      case _ => false)
  }

  ghost function Keeping(env: Env): (Disk, Event) -> bool {
    (d, e) => Keeps(env, d, e)
  }

  lemma KeepsBound(env: Env, d: Disk, e: Event, v: Vendor)
    requires d.journal == NoJournal && Sound(env, d) && Keeps(env, d, e)
    ensures Bound(env, Apply(d, e), v)
  {
    var d' := Apply(d, e);
    if !Gone(d, v) {
      var run :| d.Pending(v).Keys == {run} && d.Pending(v)[run].metadata == Active(run, env.sha(d.Durable(v).value));
      assert d'.Pending(v).Keys == {run} || Gone(d', v);
    } else if e.Seed? && e.vendor == v {
      assert d'.Pending(v).Keys == {e.run};
    }
  }

  lemma KeepsSound(env: Env, d: Disk, e: Event)
    requires Sound(env, d) && Keeps(env, d, e)
    ensures Sound(env, Apply(d, e))
  {
    if d.journal == NoJournal {
      KeepsBound(env, d, e, Codex);
      KeepsBound(env, d, e, Claude);
    } else if e.Probe? && e.run in d.Pending(e.vendor) {
      ProbeKeepsWitness(env, d, e.vendor, e.run, e.left);
    }
  }

  /** On a journaled disk a probe may leave nothing but a candidate with the journaled hash. */
  lemma ProbeKeepsWitness(env: Env, d: Disk, v: Vendor, run: RunId, left: Option<Bytes>)
    requires Sound(env, d) && d.journal.Prepared? && run in d.Pending(v)
    ensures var d' := Apply(d, Probe(v, run, left));
      Sound(env, d') <==> Journals(env, d.journal.transition, v, left)
  {
    var t := d.journal.transition;
    var d' := Apply(d, Probe(v, run, left));
    assert d.Pending(v).Keys == {t.runs.At(v)} && d'.Pending(v).Keys == {t.runs.At(v)};
    assert Witness(env, d', v, t) <==> Journals(env, t, v, left);
  }

  lemma {:induction false} KeepingRun(env: Env, d: Disk, log: seq<Event>)
    requires Sound(env, d) && Obeys(Keeping(env), d, log)
    ensures Sound(env, Replay(d, log))
    decreases |log|
  {
    if log != [] {
      KeepsSound(env, d, log[0]);
      KeepingRun(env, Apply(d, log[0]), log[1..]);
    }
  }

  lemma {:induction false} KeepingPerforms(env: Env, d: Disk, plan: seq<Event>)
    requires Obeys(Keeping(env), d, plan)
    ensures Perform(d, plan) == Done(plan, ())
    decreases |plan|
  {
    if plan != [] {
      KeepingPerforms(env, Apply(d, plan[0]), plan[1..]);
      assert [plan[0]] + plan[1..] == plan;
    }
  }

  // ---- Rolling forward from a resumable disk ----

  /** The candidate handed to the roll-forward is the one on disk, if there still is one. */
  ghost predicate Usable(env: Env, d: Disk, v: Vendor, t: Transition, candidate: Option<Bytes>) {
    if Gone(d, v) then candidate.None?
    else t.runs.At(v) in d.Pending(v) && candidate == d.Pending(v)[t.runs.At(v)].candidate
  }

  lemma InstallKeeps(env: Env, d: Disk, v: Vendor, t: Transition, candidate: Option<Bytes>)
    requires Resumable(env, d, t)
    requires v == Codex ==> DurableHashes(env, d).claude == t.after.claude
    requires Usable(env, d, v, t, candidate)
    ensures Installable(env, d, v, t, candidate)
    ensures Obeys(Keeping(env), d, InstallPlan(env, d, v, t, candidate))
    ensures var d' := Replay(d, InstallPlan(env, d, v, t, candidate));
      && Resumable(env, d', t) && d'.marker == d.marker
      && env.sha(d'.Durable(v).value) == t.after.At(v)
      && d'.Durable(Other(v)) == d.Durable(Other(v))
      && d'.Pending(Claude) == d.Pending(Claude) && d'.Pending(Codex) == d.Pending(Codex)
  {
    var plan := InstallPlan(env, d, v, t, candidate);
    if plan != [] {
      ObeysOne(Keeping(env), d, plan[0]);
      ReplayOne(d, plan[0]);
      KeepsSound(env, d, plan[0]);
    }
  }

  lemma MarkerKeeps(env: Env, d: Disk, t: Transition)
    requires Resumable(env, d, t) && DurableHashes(env, d) == t.after
    ensures Obeys(Keeping(env), d, MarkerPlan(d, t))
    ensures var d' := Replay(d, MarkerPlan(d, t));
      && Resumable(env, d', t) && Finished(env, d', t) && d'.accounts == d.accounts
  {
    if d.marker != Names(t.after) {
      ObeysOne(Keeping(env), d, PutMarker(t.after));
      ReplayOne(d, PutMarker(t.after));
    }
  }

  /** The transaction is gone, or re-based on the new durable credential with its candidate kept. */
  ghost predicate Cleaned(d: Disk, d': Disk, v: Vendor, t: Transition, cleanup: bool) {
    if cleanup then Gone(d', v)
    else
      var run := t.runs.At(v);
      run in d.Pending(v) && d'.Pending(v) == d.Pending(v)[run := d.Pending(v)[run].(metadata := Active(run, t.after.At(v)))]
  }

  lemma CleanKeeps(env: Env, d: Disk, v: Vendor, t: Transition, cleanup: bool)
    requires Resumable(env, d, t) && Finished(env, d, t)
    requires cleanup || Witness(env, d, v, t)
    ensures var d' := Replay(d, CleanPlan(d, v, t, cleanup));
      && Obeys(Keeping(env), d, CleanPlan(d, v, t, cleanup)) && Resumable(env, d', t) && Finished(env, d', t)
      && Cleaned(d, d', v, t, cleanup) && Bound(env, d', v)
      && d'.Pending(Other(v)) == d.Pending(Other(v))
      && (Witness(env, d, Other(v), t) ==> Witness(env, d', Other(v), t))
      && (Bound(env, d, Other(v)) ==> Bound(env, d', Other(v)))
  {
    var plan := CleanPlan(d, v, t, cleanup);
    if plan != [] {
      ObeysOne(Keeping(env), d, plan[0]);
      ReplayOne(d, plan[0]);
      KeepsSound(env, d, plan[0]);
      assert cleanup || Replay(d, plan).Pending(v).Keys == {t.runs.At(v)};
    }
  }

  lemma DropJournalKeeps(env: Env, d: Disk, t: Transition)
    requires Resumable(env, d, t) && Finished(env, d, t) && Bound(env, d, Claude) && Bound(env, d, Codex)
    ensures Obeys(Keeping(env), d, [DropJournal])
    ensures var d' := Replay(d, [DropJournal]);
      d' == d.(journal := NoJournal) && Sound(env, d')
  {
    ObeysOne(Keeping(env), d, DropJournal);
    ReplayOne(d, DropJournal);
    KeepsSound(env, d, DropJournal);
  }

  lemma Chain(env: Env, d: Disk, a: seq<Event>, b: seq<Event>)
    requires Obeys(Keeping(env), d, a) && Obeys(Keeping(env), Replay(d, a), b)
    ensures Obeys(Keeping(env), d, a + b) && Replay(d, a + b) == Replay(Replay(d, a), b)
  {
    ObeysConcat(Keeping(env), d, a, b);
    ReplayConcat(d, a, b);
  }

  lemma CleanupKeeps(env: Env, d: Disk, t: Transition, cleanup: bool)
    requires Resumable(env, d, t) && Finished(env, d, t)
    requires cleanup || (Witness(env, d, Claude, t) && Witness(env, d, Codex, t))
    ensures var plan := CleanPlan(d, Claude, t, cleanup) + (CleanPlan(d, Codex, t, cleanup) + [DropJournal]);
      var d' := Replay(d, plan);
      && Obeys(Keeping(env), d, plan)
      && d'.journal == NoJournal && Sound(env, d') && d'.marker == Names(t.after)
      && Cleaned(d, d', Claude, t, cleanup) && Cleaned(d, d', Codex, t, cleanup)
  {
    var a, b := CleanPlan(d, Claude, t, cleanup), CleanPlan(d, Codex, t, cleanup);
    CleanKeeps(env, d, Claude, t, cleanup);
    var d1 := Replay(d, a);
    CleanKeeps(env, d1, Codex, t, cleanup);
    var d2 := Replay(d1, b);
    DropJournalKeeps(env, d2, t);
    Chain(env, d1, b, [DropJournal]);
    Chain(env, d, a, b + [DropJournal]);
  }

  lemma FinishKeeps(env: Env, d: Disk, t: Transition, cleanup: bool)
    requires Resumable(env, d, t) && DurableHashes(env, d) == t.after
    requires cleanup || (Witness(env, d, Claude, t) && Witness(env, d, Codex, t))
    ensures var plan := MarkerPlan(d, t) + (CleanPlan(d, Claude, t, cleanup) + (CleanPlan(d, Codex, t, cleanup) + [DropJournal]));
      var d' := Replay(d, plan);
      && Obeys(Keeping(env), d, plan)
      && d'.journal == NoJournal && Sound(env, d') && d'.marker == Names(t.after)
      && Cleaned(d, d', Claude, t, cleanup) && Cleaned(d, d', Codex, t, cleanup)
  {
    MarkerKeeps(env, d, t);
    var d1 := Replay(d, MarkerPlan(d, t));
    CleanupKeeps(env, d1, t, cleanup);
    Chain(env, d, MarkerPlan(d, t), CleanPlan(d, Claude, t, cleanup) + (CleanPlan(d, Codex, t, cleanup) + [DropJournal]));
  }

  lemma PlanKeeps(env: Env, d: Disk, t: Transition, candidates: Pair<Option<Bytes>>, cleanup: bool)
    requires Resumable(env, d, t)
    requires cleanup || (Witness(env, d, Claude, t) && Witness(env, d, Codex, t))
    requires Usable(env, d, Claude, t, candidates.claude) && Usable(env, d, Codex, t, candidates.codex)
    ensures var plan := RollForwardPlan(env, d, t, candidates, cleanup);
      var d' := Replay(d, plan);
      && Obeys(Keeping(env), d, plan)
      && d'.journal == NoJournal && Sound(env, d') && d'.marker == Names(t.after)
      && Cleaned(d, d', Claude, t, cleanup) && Cleaned(d, d', Codex, t, cleanup)
  {
    var claude, codex := InstallPlan(env, d, Claude, t, candidates.claude), InstallPlan(env, d, Codex, t, candidates.codex);
    InstallKeeps(env, d, Claude, t, candidates.claude);
    var d1 := Replay(d, claude);
    assert codex == InstallPlan(env, d1, Codex, t, candidates.codex);
    InstallKeeps(env, d1, Codex, t, candidates.codex);
    var d2 := Replay(d1, codex);
    FinishKeeps(env, d2, t, cleanup);
    var rest := MarkerPlan(d, t) + (CleanPlan(d, Claude, t, cleanup) + (CleanPlan(d, Codex, t, cleanup) + [DropJournal]));
    Chain(env, d1, codex, rest);
    Chain(env, d, claude, codex + rest);
  }

  /** From a resumable disk the roll-forward passes every guard and runs to its end. */
  lemma RollForwardFinishes(env: Env, d: Disk, t: Transition, candidates: Pair<Option<Bytes>>, cleanup: bool)
    requires Resumable(env, d, t)
    requires cleanup || (Witness(env, d, Claude, t) && Witness(env, d, Codex, t))
    requires Usable(env, d, Claude, t, candidates.claude) && Usable(env, d, Codex, t, candidates.codex)
    ensures var plan := RollForwardPlan(env, d, t, candidates, cleanup);
      var d' := Replay(d, plan);
      && RollForward(env, d, t, candidates, cleanup) == Done(plan, ())
      && Obeys(Keeping(env), d, plan)
      && d'.journal == NoJournal && Sound(env, d') && d'.marker == Names(t.after)
      && Cleaned(d, d', Claude, t, cleanup) && Cleaned(d, d', Codex, t, cleanup)
  {
    PlanKeeps(env, d, t, candidates, cleanup);
    KeepingPerforms(env, d, RollForwardPlan(env, d, t, candidates, cleanup));
  }
}
