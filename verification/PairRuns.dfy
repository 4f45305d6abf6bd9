/** Every call on a settled disk keeps the crash invariant. */
module PairRuns {
  // Seeding and removing a transaction directory are atomic here.

  import opened Basics
  import opened PairDisk
  import opened PairProtocol
  import opened PairSafety
  import opened PairRecovery
  import opened PairProgress

  ghost predicate Settled(env: Env, d: Disk) {
    d.journal == NoJournal && Sound(env, d)
  }

  /** A settled disk whose only pending transaction of `v` is `run`, holding `candidate`. */
  ghost predicate Open(env: Env, d: Disk, v: Vendor, run: RunId, candidate: Option<Bytes>) {
    && Settled(env, d)
    && d.Pending(v) == map[run := Transaction(Active(run, env.sha(d.Durable(v).value)), candidate)]
  }

  lemma SoundIsOpen(env: Env, d: Disk, v: Vendor, run: RunId)
    requires Settled(env, d) && run in d.Pending(v)
    ensures Open(env, d, v, run, d.Pending(v)[run].candidate)
  {
    var run' :| d.Pending(v).Keys == {run'} && d.Pending(v)[run'].metadata == Active(run', env.sha(d.Durable(v).value));
    assert run == run';
  }

  lemma TouchKeeps(env: Env, d: Disk, v: Vendor, run: RunId, e: Event)
    requires Settled(env, d) && run in d.Pending(v)
    requires e.Scan? || ((e.Probe? || e.PutCandidate?) && e.vendor == v && e.run == run)
    ensures Obeys(Keeping(env), d, [e])
    ensures var d' := Replay(d, [e]);
      && SamePair(d, d') && d'.accounts.At(Other(v)) == d.accounts.At(Other(v))
      && Open(env, d', v, run, if e.Scan? then d.Pending(v)[run].candidate
                               else if e.Probe? then e.left else Some(e.bytes))
  {
    SoundIsOpen(env, d, v, run);
    ObeysOne(Keeping(env), d, e);
    ReplayOne(d, e);
    KeepsSound(env, d, e);
  }

  lemma {:induction false} SettledScans(env: Env, d: Disk, log: seq<Event>)
    requires Settled(env, d) && forall e | e in log :: e.Scan?
    ensures Obeys(Keeping(env), d, log) && Replay(d, log) == d
  {
    ScansKeep(env, d, log);
    ScansChangeNothing(d, log);
  }

  /** What a call that only touched `v`'s open transaction leaves behind. */
  ghost predicate Touched(env: Env, d: Disk, v: Vendor, log: seq<Event>) {
    var d' := Replay(d, log);
    && Obeys(Keeping(env), d, log) && Settled(env, d') && SamePair(d, d')
    && d'.accounts.At(Other(v)) == d.accounts.At(Other(v))
  }

  /** What a probe leaves on disk is the candidate it returns. */
  lemma ProbeCandidateKeeps(env: Env, d: Disk, out: Outside, v: Vendor, run: RunId, candidate: Bytes, reason: Reason)
    requires Settled(env, d) && run in d.Pending(v)
    ensures var p := ProbeCandidate(env, out, v, run, candidate, reason);
      && Touched(env, d, v, p.log)
      && (p.Done? ==> env.valid(v, p.value) && Open(env, Replay(d, p.log), v, run, Some(p.value)))
  {
    TouchKeeps(env, d, v, run, Probe(v, run, out.probe(v, candidate).left));
  }

  lemma ScansTouchNothing(env: Env, d: Disk, v: Vendor, scans: seq<Event>)
    requires Settled(env, d) && forall e | e in scans :: e.Scan?
    ensures Touched(env, d, v, scans) && Replay(d, scans) == d
  {
    SettledScans(env, d, scans);
  }

  lemma {:induction false} TouchedTwice(env: Env, d: Disk, v: Vendor, a: seq<Event>, b: seq<Event>)
    requires Touched(env, d, v, a) && Touched(env, Replay(d, a), v, b)
    ensures Touched(env, d, v, a + b) && Replay(d, a + b) == Replay(Replay(d, a), b)
  {
    Chain(env, d, a, b);
  }

  lemma ProbeStandardScans(env: Env, out: Outside, v: Vendor, run: RunId, login: Bytes, prior: seq<Bytes>)
    ensures var s := ProbeStandard(env, out, v, run, login, prior);
      && (forall e | e in s.log :: e.Scan?)
      && (s.Done? && s.value.Some? ==> env.valid(v, s.value.value))
  {
  }

  /** What a refresh leaves on disk is the candidate it returns. */
  lemma RefreshKeeps(env: Env, d: Disk, out: Outside, v: Vendor, run: RunId, durable: Bytes, candidate: Bytes,
                     replacement: Option<Bytes>)
    requires Settled(env, d) && run in d.Pending(v) && env.valid(v, candidate)
    ensures var r := Refresh(env, out, v, run, durable, candidate, replacement);
      && Touched(env, d, v, r.log)
      && (r.Done? ==> env.valid(v, r.value) && Open(env, Replay(d, r.log), v, run, Some(r.value)))
  {
    var r := Refresh(env, out, v, run, durable, candidate, replacement);
    ProbeCandidateKeeps(env, d, out, v, run, candidate, StateConflict);
    if replacement.Some? && r != ProbeCandidate(env, out, v, run, candidate, StateConflict) {
      var s := ProbeStandard(env, out, v, run, replacement.value, [durable, candidate]);
      ProbeStandardScans(env, out, v, run, replacement.value, [durable, candidate]);
      ScansTouchNothing(env, d, v, s.log);
      if s.Done? && s.value.Some? {
        TouchKeeps(env, d, v, run, PutCandidate(v, run, s.value.value));
        TouchedTwice(env, d, v, s.log, [PutCandidate(v, run, s.value.value)]);
      } else if s.Done? {
        TouchedTwice(env, d, v, s.log, ProbeCandidate(env, out, v, run, candidate, StateConflict).log);
      }
    }
  }

  /** On a settled disk the baseline is the durable's hash, so the candidate is probed and kept. */
  lemma PrepareOpenKeeps(env: Env, d: Disk, v: Vendor, out: Option<Outside>, replacement: Option<Bytes>, x: Recovered)
    requires x.run.Some? && x.run.value in d.Pending(v) && d.Pending(v)[x.run.value].metadata.Active?
    requires Open(env, d, v, x.run.value, Some(x.candidate)) && env.valid(v, x.candidate) && d.Durable(v) == Some(x.durable)
    ensures var r := PrepareOpen(env, d, v, out, replacement, x);
      var d' := Replay(d, r.log);
      && Obeys(Keeping(env), d, r.log) && Settled(env, d') && SamePair(d, d')
      && d'.accounts.At(Other(v)) == d.accounts.At(Other(v))
      && (r.Done? ==> r.value.run == x.run && r.value.durable == x.durable && env.valid(v, r.value.candidate)
                      && Open(env, d', v, x.run.value, Some(r.value.candidate)))
  {
    var run := x.run.value;
    var f := if out.None? then Done([], x.candidate)
             else Refresh(env, out.value, v, run, x.durable, x.candidate, replacement);
    if out.Some? {
      RefreshKeeps(env, d, out.value, v, run, x.durable, x.candidate, replacement);
    }
    if f.Done? {
      var d1 := Replay(d, f.log);
      var b := Barrier(env, v, run, Dedup([x.durable, x.candidate, f.value]));
      SettledScans(env, d1, b.log);
      Chain(env, d, f.log, b.log);
    }
  }

  lemma PrepareKeeps(env: Env, d: Disk, v: Vendor, out: Option<Outside>, replacement: Option<Bytes>)
    requires Settled(env, d)
    ensures var r := Prepare(env, d, v, out, replacement);
      var d' := Replay(d, r.log);
      && Obeys(Keeping(env), d, r.log) && Settled(env, d') && SamePair(d, d')
      && d'.accounts.At(Other(v)) == d.accounts.At(Other(v))
      && (r.Done? ==>
          && d.Durable(v) == Some(r.value.durable)
          && (if r.value.run.None? then Gone(d, v) && d' == d && !Changed(r.value)
              else env.valid(v, r.value.candidate) && Open(env, d', v, r.value.run.value, Some(r.value.candidate))))
  {
    var x := Examine(env, d, v);
    ExamineOnlyScans(env, d, v);
    ExamineFindsRun(env, d, v);
    SettledScans(env, d, x.log);
    if x.Done? && x.value.run.Some? {
      SoundIsOpen(env, d, v, x.value.run.value);
      PrepareOpenKeeps(env, d, v, out, replacement, x.value);
      Chain(env, d, x.log, PrepareOpen(env, d, v, out, replacement, x.value).log);
    }
  }

  lemma CommitKeeps(env: Env, d: Disk, t: Transition, codex: Bytes, claude: Bytes, cleanup: bool)
    requires d.marker == Names(t.before) && env.valid(Codex, codex) && env.valid(Claude, claude)
    requires Open(env, d, Codex, t.runs.codex, Some(codex)) && Open(env, d, Claude, t.runs.claude, Some(claude))
    requires t.after == Hashes(env, codex, claude)
    ensures var r := Commit(env, d, t, codex, claude, cleanup);
      var d' := Replay(d, r.log);
      && r.Done? && Obeys(Keeping(env), d, r.log) && Settled(env, d') && d'.marker == Names(t.after)
      && (cleanup ==> Gone(d', Claude) && Gone(d', Codex))
  {
    var e := PutJournal(t);
    ObeysOne(Keeping(env), d, e);
    ReplayOne(d, e);
    KeepsSound(env, d, e);
    var d1 := Apply(d, e);
    var candidates := Pair(Some(codex), Some(claude));
    RollForwardFinishes(env, d1, t, candidates, cleanup);
    Chain(env, d, [e], RollForwardPlan(env, d1, t, candidates, cleanup));
  }

  lemma DropKeeps(env: Env, d: Disk, v: Vendor, run: Option<RunId>)
    requires Settled(env, d) && (if run.None? then Gone(d, v) else d.Pending(v).Keys == {run.value})
    ensures var plan := if run.Some? then [DropTransaction(v, run.value)] else [];
      var d' := Replay(d, plan);
      && Obeys(Keeping(env), d, plan) && Settled(env, d') && SamePair(d, d') && Gone(d', v)
      && d'.accounts.At(Other(v)) == d.accounts.At(Other(v))
  {
    if run.Some? {
      var e := DropTransaction(v, run.value);
      ObeysOne(Keeping(env), d, e);
      ReplayOne(d, e);
      KeepsSound(env, d, e);
    }
  }

  lemma DropRunsKeep(env: Env, d: Disk, claude: Option<RunId>, codex: Option<RunId>)
    requires Settled(env, d)
    requires if claude.None? then Gone(d, Claude) else d.Pending(Claude).Keys == {claude.value}
    requires if codex.None? then Gone(d, Codex) else d.Pending(Codex).Keys == {codex.value}
    ensures var r := Perform(d, DropRuns(claude, codex));
      var d' := Replay(d, r.log);
      && r.Done? && Obeys(Keeping(env), d, r.log) && Settled(env, d') && SamePair(d, d')
      && Gone(d', Claude) && Gone(d', Codex)
  {
    var a := if claude.Some? then [DropTransaction(Claude, claude.value)] else [];
    var b := if codex.Some? then [DropTransaction(Codex, codex.value)] else [];
    DropKeeps(env, d, Claude, claude);
    DropKeeps(env, Replay(d, a), Codex, codex);
    Chain(env, d, a, b);
    KeepingPerforms(env, d, a + b);
  }

  /** What a prepared vendor must look like on disk. */
  ghost predicate IsPrepared(env: Env, d: Disk, v: Vendor, r: Recovered) {
    && Settled(env, d) && d.Durable(v) == Some(r.durable)
    && if r.run.None? then Gone(d, v) && !Changed(r)
       else env.valid(v, r.candidate) && Open(env, d, v, r.run.value, Some(r.candidate))
  }

  lemma SettlePendingKeeps(env: Env, d: Disk, claude: Recovered, codex: Recovered)
    requires IsPrepared(env, d, Claude, claude) && IsPrepared(env, d, Codex, codex)
    ensures var r := SettlePending(env, d, claude, codex);
      var d' := Replay(d, r.log);
      && Obeys(Keeping(env), d, r.log) && Sound(env, d')
      && (r.Done? ==> Settled(env, d') && Gone(d', Claude) && Gone(d', Codex))
      && (r.Done? <==> claude.run.Some? && claude.run == codex.run)
  {
    if claude.run.Some? && claude.run == codex.run {
      if !Changed(claude) && !Changed(codex) {
        DropRunsKeep(env, d, claude.run, codex.run);
      } else {
        var t := Transition(Pair(codex.run.value, claude.run.value), Hashes(env, codex.durable, claude.durable),
                            Hashes(env, codex.candidate, claude.candidate));
        CommitKeeps(env, d, t, codex.candidate, claude.candidate, true);
      }
    }
  }

  lemma {:induction false} CommitPendingKeeps(env: Env, d: Disk, out: Outside, replacement: Pair<Option<Bytes>>)
    requires Settled(env, d)
    ensures var r := CommitPending(env, d, out, replacement);
      var d' := Replay(d, r.log);
      && Obeys(Keeping(env), d, r.log) && Sound(env, d')
      && (r.Done? ==> Settled(env, d') && Gone(d', Claude) && Gone(d', Codex))
  {
    var claude := Prepare(env, d, Claude, Some(out), replacement.claude);
    PrepareKeeps(env, d, Claude, Some(out), replacement.claude);
    if claude.Done? {
      var d1 := Replay(d, claude.log);
      var codex := Prepare(env, d1, Codex, Some(out), replacement.codex);
      PrepareKeeps(env, d1, Codex, Some(out), replacement.codex);
      var log := claude.log + codex.log;
      Chain(env, d, claude.log, codex.log);
      if codex.Done? {
        SettlePendingKeeps(env, Replay(d1, codex.log), claude.value, codex.value);
        Chain(env, d, log, SettlePending(env, Replay(d1, codex.log), claude.value, codex.value).log);
      }
    }
  }

  lemma RecoverPendingKeeps(env: Env, d: Disk, out: Outside)
    requires Settled(env, d)
    ensures var r := RecoverPending(env, d, out);
      var d' := Replay(d, r.log);
      && Obeys(Keeping(env), d, r.log) && Sound(env, d')
      && (r.Done? ==> Settled(env, d') && Gone(d', Claude) && Gone(d', Codex))
  {
    var replacement := Pair(Newer(env, Codex, out.standard.codex, d.Durable(Codex).value),
                            Newer(env, Claude, out.standard.claude, d.Durable(Claude).value));
    var claude, codex := Prepare(env, d, Claude, None, None), Prepare(env, d, Codex, None, None);
    PrepareOnlyScans(env, d, Claude);
    PrepareOnlyScans(env, d, Codex);
    PrepareKeeps(env, d, Claude, None, None);
    PrepareKeeps(env, d, Codex, None, None);
    var log := claude.log + codex.log;
    SettledScans(env, d, claude.log);
    SettledScans(env, d, log);
    if claude.Done? && codex.Done? {
      ScansChangeNothing(d, codex.log);
      var l, c := claude.value, codex.value;
      if !Changed(l) && !Changed(c) {
        DropRunsKeep(env, d, l.run, c.run);
        Chain(env, d, log, Perform(d, DropRuns(l.run, c.run)).log);
      } else if l.run.Some? && l.run == c.run {
        CommitPendingKeeps(env, d, out, replacement);
        Chain(env, d, log, CommitPending(env, d, out, replacement).log);
      }
    }
  }

  lemma {:induction false} RecoverKeeps(env: Env, d: Disk, out: Outside)
    requires Sound(env, d)
    ensures var r := Recover(env, d, out);
      var d' := Replay(d, r.log);
      && Obeys(Keeping(env), d, r.log)
      && (r.Done? ==> Settled(env, d') && Gone(d', Claude) && Gone(d', Codex))
  {
    var j := RecoverJournal(env, d);
    if d.journal.Prepared? {
      JournalRecoveryKeeps(env, d);
    }
    if j.Done? {
      var d1 := Replay(d, j.log);
      RecoverPendingKeeps(env, d1, out);
      Chain(env, d, j.log, RecoverPending(env, d1, out).log);
    }
  }

  lemma SettleKeeps(env: Env, d: Disk, out: Outside, v: Vendor, s: Session, candidate: Bytes, history: seq<Bytes>,
                    changed: bool, probing: bool)
    requires Open(env, d, v, s.run, Some(candidate)) && env.valid(v, candidate)
    ensures var r := Settle(env, out, v, s, candidate, history, changed, probing);
      var d' := Replay(d, r.log);
      && Obeys(Keeping(env), d, r.log) && Settled(env, d') && SamePair(d, d')
      && d'.accounts.At(Other(v)) == d.accounts.At(Other(v))
      && (r.Done? ==> env.valid(v, r.value.0) && Open(env, d', v, s.run, Some(r.value.0)))
  {
    var p := if probing then ProbeCandidate(env, out, v, s.run, candidate, RefreshFailure) else Done([], candidate);
    if probing {
      ProbeCandidateKeeps(env, d, out, v, s.run, candidate, RefreshFailure);
    }
    if changed && p.Done? {
      var h := Remember(history, p.value);
      if h.Some? {
        var b := Barrier(env, v, s.run, h.value);
        ScansTouchNothing(env, Replay(d, p.log), v, b.log);
        TouchedTwice(env, d, v, p.log, b.log);
      }
    }
  }

  lemma ReconcileKeeps(env: Env, d: Disk, s: Session, out: Outside, probing: bool)
    requires Settled(env, d)
    ensures var r := Reconcile(env, d, s, out, probing);
      && Obeys(Keeping(env), d, r.log)
      && (r.Done? ==> Settled(env, Replay(d, r.log)))
  {
    var codex, claude := ReadCandidate(env, d, s, Codex), ReadCandidate(env, d, s, Claude);
    if Reconcile(env, d, s, out, probing).log != [] {
      var hx, hl := Remember(s.history.codex, codex.value), Remember(s.history.claude, claude.value);
      var codexChanged := codex.value != d.Durable(Codex).value;
      var claudeChanged := claude.value != d.Durable(Claude).value;
      SoundIsOpen(env, d, Claude, s.run);
      SoundIsOpen(env, d, Codex, s.run);
      var l := Settle(env, out, Claude, s, claude.value, hl.value, claudeChanged, probing);
      SettleKeeps(env, d, out, Claude, s, claude.value, hl.value, claudeChanged, probing);
      if l.Done? {
        var d1 := Replay(d, l.log);
        var c := Settle(env, out, Codex, s, codex.value, hx.value, codexChanged, probing);
        SettleKeeps(env, d1, out, Codex, s, codex.value, hx.value, codexChanged, probing);
        Chain(env, d, l.log, c.log);
        if c.Done? {
          var d2 := Replay(d1, c.log);
          var t := Transition(Pair(s.run, s.run), s.baseline, Hashes(env, c.value.0, l.value.0));
          CommitKeeps(env, d2, t, c.value.0, l.value.0, false);
          Chain(env, d, l.log + c.log, Commit(env, d2, t, c.value.0, l.value.0, false).log);
        }
      }
    }
  }

  lemma SeedPairKeeps(env: Env, d: Disk, run: RunId)
    requires Settled(env, d)
    ensures Obeys(Keeping(env), d, SeedPair(env, d, run).log)
  {
    if SeedPair(env, d, run).Done? {
      var a := Seed(Claude, run, d.Durable(Claude).value, env.sha(d.Durable(Claude).value));
      var b := Seed(Codex, run, d.Durable(Codex).value, env.sha(d.Durable(Codex).value));
      var d1 := Replay(d, [a]);
      ObeysOne(Keeping(env), d, a);
      ReplayOne(d, a);
      ObeysOne(Keeping(env), d1, b);
      Chain(env, d, [a], [b]);
      assert [a] + [b] == [a, b];
    }
  }

  lemma FinalizeVendorKeeps(env: Env, d: Disk, s: Session, v: Vendor)
    requires Settled(env, d)
    ensures Obeys(Keeping(env), d, FinalizeVendor(env, d, s, v).log)
    ensures Settled(env, Replay(d, FinalizeVendor(env, d, s, v).log))
  {
    if FinalizeVendor(env, d, s, v).log != [] {
      SoundIsOpen(env, d, v, s.run);
      DropKeeps(env, d, v, Some(s.run));
    }
  }

  lemma FinalizeKeeps(env: Env, d: Disk, s: Session)
    requires Settled(env, d)
    ensures Obeys(Keeping(env), d, Finalize(env, d, s).log)
  {
    var codex := FinalizeVendor(env, d, s, Codex);
    FinalizeVendorKeeps(env, d, s, Codex);
    if codex.Done? {
      var d1 := Replay(d, codex.log);
      FinalizeVendorKeeps(env, d1, s, Claude);
      Chain(env, d, codex.log, FinalizeVendor(env, d1, s, Claude).log);
    }
  }
}
