/** When the whole recovery of the pair returns. */
module PairReturns {
  // Over a journal only the evidence barriers decide.  Without one, both leftovers must be valid and
  // admitted; a changed pair must in addition be complete, and its probes must confirm it.

  import opened Basics
  import opened PairDisk
  import opened PairProtocol
  import opened PairSafety
  import opened PairRecovery
  import opened PairProgress
  import opened PairRuns
  import opened PairSessions

  // ---- The conditions, in terms of barriers, parsers and probes alone ----

  predicate Admits(env: Env, v: Vendor, run: RunId, generations: seq<Bytes>) {
    env.barriers.At(v) ==> env.admits(v, run, generations)
  }

  /** The leftover of `v` is gone, or its candidate is valid and the barrier admits it. */
  ghost predicate Clears(env: Env, d: Disk, v: Vendor)
    requires Sound(env, d)
  {
    forall run | run in d.Pending(v) ::
      && Admits(env, v, run, [])
      && d.Pending(v)[run].candidate.Some? && env.valid(v, d.Pending(v)[run].candidate.value)
      && Admits(env, v, run, Dedup([d.Durable(v).value, d.Pending(v)[run].candidate.value,
                                    d.Pending(v)[run].candidate.value]))
  }

  /** The leftover of `v` holds the durable credential, if there is one. */
  predicate Unchanged(d: Disk, v: Vendor) {
    forall run | run in d.Pending(v) :: d.Pending(v)[run].candidate == d.Durable(v)
  }

  predicate ProbePasses(env: Env, p: ProbeResult, v: Vendor) {
    p.confirmed && p.left.Some? && env.valid(v, p.left.value)
  }

  /** An ambient login replaces the candidate when nothing was changed, or when it is strictly newer. */
  predicate Supersedes(env: Env, v: Vendor, durable: Bytes, candidate: Bytes, replacement: Option<Bytes>) {
    && replacement.Some?
    && (candidate == durable ||
        (var r, c := env.generation(v, replacement.value), env.generation(v, candidate);
         r.Some? && c.Some? && r.value > c.value))
  }

  /** Probing `candidate`, and admitting what the probe left. */
  predicate CandidateConfirms(env: Env, out: Outside, v: Vendor, run: RunId, durable: Bytes, candidate: Bytes) {
    var p := out.probe(v, candidate);
    ProbePasses(env, p, v) && Admits(env, v, run, Dedup([durable, candidate, p.left.value]))
  }

  /** The second look at a changed pair: a newer ambient login, or else the candidate, is confirmed. */
  predicate Confirms(env: Env, out: Outside, v: Vendor, run: RunId, durable: Bytes, candidate: Bytes,
                     replacement: Option<Bytes>)
  {
    if !Supersedes(env, v, durable, candidate, replacement) then
      CandidateConfirms(env, out, v, run, durable, candidate)
    else
      var login, p := replacement.value, out.sourceProbe(v, replacement.value);
      && env.valid(v, login) && p.left.Some? && env.valid(v, p.left.value)
      && Admits(env, v, run, Dedup([durable, candidate, login, p.left.value]))
      && if p.confirmed then Admits(env, v, run, Dedup([durable, candidate, p.left.value]))
         else CandidateConfirms(env, out, v, run, durable, candidate)
  }

  function NewerLogin(env: Env, d: Disk, out: Outside, v: Vendor): Option<Bytes>
    requires d.Durable(v).Some?
  {
    Newer(env, v, out.standard.At(v), d.Durable(v).value)
  }

  /** `run` is pending for `v`, and the second look at its candidate succeeds. */
  predicate RunConfirms(env: Env, d: Disk, out: Outside, v: Vendor, run: RunId) {
    && d.Durable(v).Some? && run in d.Pending(v) && d.Pending(v)[run].candidate.Some?
    && Confirms(env, out, v, run, d.Durable(v).value, d.Pending(v)[run].candidate.value, NewerLogin(env, d, out, v))
  }

  /** Both vendors have the same pending run, and its second look succeeds for both. */
  predicate PairConfirms(env: Env, d: Disk, out: Outside) {
    exists run | run in d.Pending(Codex) :: RunConfirms(env, d, out, Codex, run) && RunConfirms(env, d, out, Claude, run)
  }

  ghost predicate Returns(env: Env, d: Disk, out: Outside)
    requires Sound(env, d)
  {
    if d.journal.Prepared? then AllAdmitted(env, d)
    else
      && Clears(env, d, Claude) && Clears(env, d, Codex)
      && ((Unchanged(d, Claude) && Unchanged(d, Codex)) || PairConfirms(env, d, out))
  }

  // ---- The first look, without probes ----

  lemma GoneIsClear(env: Env, d: Disk, v: Vendor)
    requires Settled(env, d) && Gone(d, v)
    ensures Clears(env, d, v) && Unchanged(d, v)
    ensures Examine(env, d, v) == Done([], Recovered(None, d.Durable(v).value, d.Durable(v).value))
  {
    assert forall run :: run in d.Pending(v) <==> run in d.Pending(v).Keys;
  }

  lemma OpenHasRun(env: Env, d: Disk, v: Vendor) returns (run: RunId)
    requires Settled(env, d) && !Gone(d, v)
    ensures run in d.Pending(v) && d.Pending(v).Keys == {run} && Open(env, d, v, run, d.Pending(v)[run].candidate)
    ensures SoleRun(d.Pending(v)) == Some(run)
  {
    run :| run in d.Pending(v);
    SoundIsOpen(env, d, v, run);
    assert d.Pending(v).Keys == {run};
  }

  lemma ExamineReturns(env: Env, d: Disk, v: Vendor, run: RunId)
    requires run in d.Pending(v) && Open(env, d, v, run, d.Pending(v)[run].candidate)
    requires SoleRun(d.Pending(v)) == Some(run)
    ensures var c := d.Pending(v)[run].candidate;
      && (Examine(env, d, v).Done? <==> Admits(env, v, run, []) && c.Some? && env.valid(v, c.value))
      && (Examine(env, d, v).Done? ==> Examine(env, d, v).value == Recovered(Some(run), d.Durable(v).value, c.value))
  {
    assert d.Pending(v).Keys == {run};
  }

  /** The first look at `v` returns exactly when its leftover clears. */
  lemma FirstLook(env: Env, d: Disk, v: Vendor)
    requires Settled(env, d)
    ensures var r := Prepare(env, d, v, None, None);
      && (r.Done? <==> Clears(env, d, v))
      && (r.Done? ==> (Changed(r.value) <==> !Unchanged(d, v)) && r.value.durable == d.Durable(v).value
                      && if Gone(d, v) then r.value.run.None?
                         else r.value.run.Some? && d.Pending(v).Keys == {r.value.run.value})
  {
    if Gone(d, v) {
      GoneIsClear(env, d, v);
    } else {
      var run := OpenHasRun(env, d, v);
      ExamineReturns(env, d, v, run);
      assert Clears(env, d, v) <==>
        && Admits(env, v, run, [])
        && d.Pending(v)[run].candidate.Some? && env.valid(v, d.Pending(v)[run].candidate.value)
        && Admits(env, v, run, Dedup([d.Durable(v).value, d.Pending(v)[run].candidate.value,
                                      d.Pending(v)[run].candidate.value]));
    }
  }

  // ---- The second look, with probes ----

  lemma RefreshReturns(env: Env, out: Outside, v: Vendor, run: RunId, durable: Bytes, candidate: Bytes,
                       replacement: Option<Bytes>)
    ensures var f := Refresh(env, out, v, run, durable, candidate, replacement);
      f.Done? && Admits(env, v, run, Dedup([durable, candidate, f.value]))
      <==> Confirms(env, out, v, run, durable, candidate, replacement)
  {
    if replacement.Some? && out.sourceProbe(v, replacement.value).left.Some? {
      assert [durable, candidate] + [replacement.value, out.sourceProbe(v, replacement.value).left.value]
             == [durable, candidate, replacement.value, out.sourceProbe(v, replacement.value).left.value];
    }
  }

  lemma SecondLook(env: Env, d: Disk, v: Vendor, out: Outside, run: RunId)
    requires Settled(env, d) && run in d.Pending(v) && Clears(env, d, v)
    ensures var r := Prepare(env, d, v, Some(out), NewerLogin(env, d, out, v));
      && (r.Done? <==> RunConfirms(env, d, out, v, run))
      && (r.Done? ==> r.value.run == Some(run))
  {
    var only := OpenHasRun(env, d, v);
    assert run in d.Pending(v).Keys;
    ExamineReturns(env, d, v, run);
    RefreshReturns(env, out, v, run, d.Durable(v).value, d.Pending(v)[run].candidate.value, NewerLogin(env, d, out, v));
  }

  lemma CommitPendingReturns(env: Env, d: Disk, out: Outside, run: RunId)
    requires Settled(env, d) && run in d.Pending(Claude) && run in d.Pending(Codex)
    requires Clears(env, d, Claude) && Clears(env, d, Codex)
    ensures CommitPending(env, d, out, Pair(NewerLogin(env, d, out, Codex), NewerLogin(env, d, out, Claude))).Done?
            <==> RunConfirms(env, d, out, Codex, run) && RunConfirms(env, d, out, Claude, run)
  {
    var replacement := Pair(NewerLogin(env, d, out, Codex), NewerLogin(env, d, out, Claude));
    var claude := Prepare(env, d, Claude, Some(out), replacement.claude);
    SecondLook(env, d, Claude, out, run);
    PrepareKeeps(env, d, Claude, Some(out), replacement.claude);
    if claude.Done? {
      var d1 := Replay(d, claude.log);
      assert d1.accounts.codex == d.accounts.codex;
      SecondLook(env, d1, Codex, out, run);
      PrepareKeeps(env, d1, Codex, Some(out), replacement.codex);
      var codex := Prepare(env, d1, Codex, Some(out), replacement.codex);
      if codex.Done? {
        SettlePendingKeeps(env, Replay(d1, codex.log), claude.value, codex.value);
      }
    }
  }

  lemma PairHasOneRun(env: Env, d: Disk, out: Outside, run: RunId)
    requires d.Pending(Codex).Keys == {run}
    ensures PairConfirms(env, d, out) <==> RunConfirms(env, d, out, Codex, run) && RunConfirms(env, d, out, Claude, run)
  {
    assert forall x :: x in d.Pending(Codex) <==> x in d.Pending(Codex).Keys;
  }

  lemma PendingReturns(env: Env, d: Disk, out: Outside)
    requires Settled(env, d)
    ensures RecoverPending(env, d, out).Done? <==> Returns(env, d, out)
  {
    var replacement := Pair(NewerLogin(env, d, out, Codex), NewerLogin(env, d, out, Claude));
    var claude, codex := Prepare(env, d, Claude, None, None), Prepare(env, d, Codex, None, None);
    FirstLook(env, d, Claude);
    FirstLook(env, d, Codex);
    if claude.Done? && codex.Done? {
      var l, c := claude.value, codex.value;
      if !Changed(l) && !Changed(c) {
        DropRunsKeep(env, d, l.run, c.run);
      } else if l.run.Some? && l.run == c.run {
        assert l.run.value in d.Pending(Claude).Keys && l.run.value in d.Pending(Codex).Keys;
        CommitPendingReturns(env, d, out, l.run.value);
        PairHasOneRun(env, d, out, l.run.value);
      } else {
        OneSidedNeverConfirms(env, d, out, l.run, c.run);
      }
    }
  }

  /** A pair whose runs differ, or of which one is gone, is never confirmed. */
  lemma OneSidedNeverConfirms(env: Env, d: Disk, out: Outside, claude: Option<RunId>, codex: Option<RunId>)
    requires claude.None? || claude != codex
    requires if claude.None? then Gone(d, Claude) else d.Pending(Claude).Keys == {claude.value}
    requires if codex.None? then Gone(d, Codex) else d.Pending(Codex).Keys == {codex.value}
    ensures !PairConfirms(env, d, out)
  {
    assert forall x :: x in d.Pending(Codex) <==> x in d.Pending(Codex).Keys;
    assert forall x :: x in d.Pending(Claude) <==> x in d.Pending(Claude).Keys;
  }

  /** The whole recovery of a sound disk returns exactly under these conditions. */
  lemma RecoveryReturns(env: Env, d: Disk, out: Outside)
    requires Sound(env, d)
    ensures Recover(env, d, out).Done? <==> Returns(env, d, out)
  {
    if d.journal.Prepared? {
      JournalRecoveryKeeps(env, d);
      if RecoverJournal(env, d).Done? {
        var d1 := Replay(d, RecoverJournal(env, d).log);
        CleanRecoveryIsIdle(env, d1, out);
      }
    } else {
      PendingReturns(env, d, out);
    }
  }

  /** Recovering a settled pair with nothing pending is a no-op: recovering twice is recovering once. */
  lemma CleanRecoveryIsIdle(env: Env, d: Disk, out: Outside)
    requires Settled(env, d) && Gone(d, Claude) && Gone(d, Codex)
    ensures Recover(env, d, out).Done? && Recover(env, d, out).log == []
  {
  }

  /** Leftovers that hold the durable credentials never stand in the way when no barrier is supplied. */
  lemma UnchangedLeftoversReturn(env: Env, d: Disk, out: Outside)
    requires Settled(env, d) && Unchanged(d, Claude) && Unchanged(d, Codex)
    requires !env.barriers.codex && !env.barriers.claude
    ensures Recover(env, d, out).Done?
  {
    RecoveryReturns(env, d, out);
  }

  /**
   Wherever a heedful run is cut short, the next recovery returns exactly when barriers, parsers and
   probes meet these conditions; then it leaves nothing pending, and recovering again does nothing.
   */
  lemma EveryCrashIsRecoverable(env: Env, d: Disk, calls: seq<(Call, nat)>, out: Outside)
    requires Sound(env, d) && Heedful(env, d, calls)
    ensures var crashed := Replay(d, CallsLog(env, d, calls));
      && Sound(env, crashed)
      && var r := Recover(env, crashed, out);
      var d' := Replay(crashed, r.log);
      && (r.Done? <==> Returns(env, crashed, out))
      && (r.Done? ==> Settled(env, d') && Gone(d', Claude) && Gone(d', Codex)
                      && forall out' :: Recover(env, d', out').Done? && Recover(env, d', out').log == [])
  {
    RunsStaySound(env, d, calls);
    var crashed := Replay(d, CallsLog(env, d, calls));
    RecoveryReturns(env, crashed, out);
    RecoverKeeps(env, crashed, out);
    if Recover(env, crashed, out).Done? {
      forall out' {
        CleanRecoveryIsIdle(env, Replay(crashed, Recover(env, crashed, out).log), out');
      }
    }
  }
}
