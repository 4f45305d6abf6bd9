/** Scan before install. */
module PairEvidence {
  // Whatever a call writes was handed to that vendor's evidence barrier earlier in the same call, and
  // before the journal if that call wrote one.

  import opened Basics
  import opened PairDisk
  import opened PairProtocol
  import opened PairSafety

  ghost predicate Scans(log: seq<Event>, v: Vendor, bytes: Bytes) {
    exists e :: e in log && e.Scan? && e.vendor == v && bytes in e.generations
  }

  /** The events before `k`, cut at the first journal write among them. */
  ghost function BeforeJournal(log: seq<Event>): seq<Event>
  {
    if log == [] || log[0].PutJournal? then [] else [log[0]] + BeforeJournal(log[1..])
  }

  /** Every durable write so far is covered by a scan that precedes it and any journal write. */
  ghost predicate ScannedFirst(env: Env, log: seq<Event>) {
    forall k | 0 <= k < |log| && log[k].PutDurable? && env.barriers.At(log[k].vendor) ::
      Scans(BeforeJournal(log[..k]), log[k].vendor, log[k].bytes)
  }

  ghost predicate Quiet(log: seq<Event>) {
    forall e | e in log :: !e.PutDurable? && !e.PutJournal?
  }

  ghost predicate NoJournalWrite(log: seq<Event>) {
    forall e | e in log :: !e.PutJournal?
  }

  lemma {:induction false} BeforeJournalConcat(a: seq<Event>, b: seq<Event>)
    requires NoJournalWrite(a)
    ensures BeforeJournal(a + b) == a + BeforeJournal(b)
    decreases |a|
  {
    if a == [] {
      assert a + b == b;
    } else {
      assert a[0] in a;
      assert (a + b)[1..] == a[1..] + b;
      BeforeJournalConcat(a[1..], b);
    }
  }

  /** Scans, then at most one journal write, then writes that install only what was scanned. */
  lemma ScannedInstall(env: Env, scans: seq<Event>, journal: seq<Event>, writes: seq<Event>)
    requires Quiet(scans) && (journal == [] || (|journal| == 1 && journal[0].PutJournal?))
    requires NoJournalWrite(writes)
    requires forall e | e in writes && e.PutDurable? && env.barriers.At(e.vendor) :: Scans(scans, e.vendor, e.bytes)
    ensures ScannedFirst(env, scans + (journal + writes))
  {
    var log, n := scans + (journal + writes), |scans| + |journal|;
    assert forall k | 0 <= k < |scans| :: log[k] in scans;
    assert forall k | |scans| <= k < n :: log[k] == journal[0];
    forall k | n <= k < |log| && log[k].PutDurable? && env.barriers.At(log[k].vendor)
      ensures Scans(BeforeJournal(log[..k]), log[k].vendor, log[k].bytes)
    {
      assert log[k] == writes[k - n];
      var rest := log[|scans|..k];
      assert log[..k] == scans + rest;
      BeforeJournalConcat(scans, rest);
      var e :| e in scans && e.Scan? && e.vendor == log[k].vendor && log[k].bytes in e.generations;
      assert e in BeforeJournal(log[..k]);
    }
  }

  lemma ScannedConcat(env: Env, a: seq<Event>, b: seq<Event>)
    requires ScannedFirst(env, a) && ScannedFirst(env, b) && NoJournalWrite(a)
    ensures ScannedFirst(env, a + b)
  {
    var log := a + b;
    forall k | 0 <= k < |log| && log[k].PutDurable? && env.barriers.At(log[k].vendor)
      ensures Scans(BeforeJournal(log[..k]), log[k].vendor, log[k].bytes)
    {
      if k < |a| {
        assert log[..k] == a[..k];
      } else {
        assert log[k] == b[k - |a|] && log[..k] == a + b[..k - |a|];
        BeforeJournalConcat(a, b[..k - |a|]);
        var before := BeforeJournal(b[..k - |a|]);
        var e :| e in before && e.Scan? && e.vendor == log[k].vendor && log[k].bytes in e.generations;
        assert e in BeforeJournal(log[..k]);
      }
    }
  }

  lemma QuietIsScanned(env: Env, log: seq<Event>)
    requires Quiet(log)
    ensures ScannedFirst(env, log)
  {
    assert forall k | 0 <= k < |log| :: log[k] in log;
  }

  // ---- What the roll-forward installs ----

  /** The write installs the candidate it was given, where the hash must change. */
  ghost predicate Installs(env: Env, d: Disk, t: Transition, candidates: Pair<Option<Bytes>>, e: Event) {
    !e.PutJournal? &&
    (e.PutDurable? ==>
      && candidates.At(e.vendor) == Some(e.bytes)
      && d.Durable(e.vendor).Some? && env.sha(d.Durable(e.vendor).value) != t.after.At(e.vendor))
  }

  lemma PlanInstalls(env: Env, d: Disk, t: Transition, candidates: Pair<Option<Bytes>>, cleanup: bool, e: Event)
    requires e in RollForwardPlan(env, d, t, candidates, cleanup)
    ensures Installs(env, d, t, candidates, e)
  {
    var clean := CleanPlan(d, Claude, t, cleanup) + (CleanPlan(d, Codex, t, cleanup) + [DropJournal]);
    assert forall x | x in clean :: Installs(env, d, t, candidates, x);
    assert e in InstallPlan(env, d, Claude, t, candidates.claude) || e in InstallPlan(env, d, Codex, t, candidates.codex)
        || e in MarkerPlan(d, t) || e in clean;
  }

  lemma {:induction false} RollForwardInstalls(env: Env, d: Disk, t: Transition, candidates: Pair<Option<Bytes>>, cleanup: bool)
    ensures forall e | e in RollForward(env, d, t, candidates, cleanup).log :: Installs(env, d, t, candidates, e)
  {
    var log, plan := RollForward(env, d, t, candidates, cleanup).log, RollForwardPlan(env, d, t, candidates, cleanup);
    if log <= plan {
      forall k | 0 <= k < |log|
        ensures Installs(env, d, t, candidates, log[k])
      {
        assert plan[k] in plan;
        PlanInstalls(env, d, t, candidates, cleanup, plan[k]);
      }
    }
  }

  lemma {:induction false} DedupKeeps(values: seq<Bytes>, b: Bytes)
    requires b in values
    ensures b in Dedup(values)
    decreases |values|
  {
    var init := values[..|values| - 1];
    if values[|values| - 1] != b {
      assert b in init;
      DedupKeeps(init, b);
    } else if b !in Dedup(init) {
      assert Dedup(values) == Dedup(init) + [b];
    }
  }

  lemma PrepareOpenScans(env: Env, d: Disk, v: Vendor, out: Option<Outside>, replacement: Option<Bytes>, x: Recovered)
    requires x.run.Some? && x.run.value in d.Pending(v) && d.Pending(v)[x.run.value].metadata.Active?
    requires d.Pending(v)[x.run.value].metadata.baseline != env.sha(x.durable) ==> x.candidate == x.durable
    ensures var r := PrepareOpen(env, d, v, out, replacement, x);
      r.Done? && env.barriers.At(v) ==> Scans(r.log, v, r.value.candidate)
  {
    var r := PrepareOpen(env, d, v, out, replacement, x);
    if r.Done? && env.barriers.At(v) {
      var run := x.run.value;
      if d.Pending(v)[run].metadata.baseline != env.sha(x.durable) {
        assert Scan(v, run, [x.durable]) in r.log;
      } else {
        var values := [x.durable, x.candidate, r.value.candidate];
        assert values[2] in values;
        DedupKeeps(values, r.value.candidate);
        assert Scan(v, run, Dedup(values)) in r.log;
      }
    }
  }

  lemma ScansMore(a: seq<Event>, b: seq<Event>, v: Vendor, bytes: Bytes)
    requires Scans(b, v, bytes)
    ensures Scans(a + b, v, bytes)
  {
    var e :| e in b && e.Scan? && e.vendor == v && bytes in e.generations;
    assert e in a + b;
  }

  lemma {:induction false} PrepareScans(env: Env, d: Disk, v: Vendor, out: Option<Outside>, replacement: Option<Bytes>)
    ensures Quiet(Prepare(env, d, v, out, replacement).log)
    ensures var r := Prepare(env, d, v, out, replacement);
      r.Done? && r.value.run.Some? && env.barriers.At(v) ==> Scans(r.log, v, r.value.candidate)
  {
    PrepareIsNeutral(env, d, v, out, replacement);
    ExamineFindsRun(env, d, v);
    StaleIsUnchanged(env, d, v);
    var x := Examine(env, d, v);
    if x.Done? && x.value.run.Some? {
      PrepareOpenScans(env, d, v, out, replacement, x.value);
      var r := PrepareOpen(env, d, v, out, replacement, x.value);
      if r.Done? && env.barriers.At(v) {
        ScansMore(x.log, r.log, v, r.value.candidate);
      }
    }
  }

  lemma StaleIsUnchanged(env: Env, d: Disk, v: Vendor)
    ensures var x := Examine(env, d, v);
      x.Done? && x.value.run.Some? && x.value.run.value in d.Pending(v)
      && d.Pending(v)[x.value.run.value].metadata.Active?
      && d.Pending(v)[x.value.run.value].metadata.baseline != env.sha(x.value.durable)
      ==> x.value.candidate == x.value.durable
  {
  }

  lemma JournalCandidateScans(env: Env, d: Disk, v: Vendor, t: Transition)
    ensures Quiet(JournalCandidate(env, d, v, t).log)
    ensures var r := JournalCandidate(env, d, v, t);
      r.Done? && r.value.Some? && env.barriers.At(v) ==> Scans(r.log, v, r.value.value)
  {
    var r := JournalCandidate(env, d, v, t);
    if r.Done? && r.value.Some? && env.barriers.At(v) {
      assert Scan(v, t.runs.At(v), [r.value.value]) in r.log;
    }
  }

  lemma {:induction false} JournaledInstallScans(env: Env, d: Disk, t: Transition, scans: seq<Event>, candidates: Pair<Option<Bytes>>)
    requires Quiet(scans)
    requires forall v | env.barriers.At(v) && candidates.At(v).Some? :: Scans(scans, v, candidates.At(v).value)
    ensures var f := RollForward(env, d, t, candidates, true).log;
      NoJournalWrite(f) && ScannedFirst(env, scans + f)
  {
    var f := RollForward(env, d, t, candidates, true).log;
    RollForwardInstalls(env, d, t, candidates, true);
    ScannedInstall(env, scans, [], f);
    assert [] + f == f;
  }

  lemma {:induction false} RecoverJournalScans(env: Env, d: Disk)
    ensures NoJournalWrite(RecoverJournal(env, d).log) && ScannedFirst(env, RecoverJournal(env, d).log)
  {
    if d.journal.Prepared? {
      var t := d.journal.transition;
      var codex, claude := JournalCandidate(env, d, Codex, t), JournalCandidate(env, d, Claude, t);
      JournalCandidateScans(env, d, Codex, t);
      JournalCandidateScans(env, d, Claude, t);
      QuietIsScanned(env, codex.log);
      QuietIsScanned(env, codex.log + claude.log);
      if codex.Done? && claude.Done? {
        ScansStay(codex.log, claude.log);
        JournaledInstallScans(env, d, t, codex.log + claude.log, Pair(codex.value, claude.value));
      }
    }
  }

  lemma JournalKeepsDurables(d: Disk, t: Transition)
    requires WriteTransition(d, t).Done?
    ensures var log := WriteTransition(d, t).log;
      && (log == [] || (|log| == 1 && log[0].PutJournal?))
      && Replay(d, log).Durable(Codex) == d.Durable(Codex) && Replay(d, log).Durable(Claude) == d.Durable(Claude)
  {
    if WriteTransition(d, t).log != [] { ReplayOne(d, PutJournal(t)); }
  }

  lemma CommitShape(env: Env, d: Disk, t: Transition, codex: Bytes, claude: Bytes, cleanup: bool)
    ensures var w := WriteTransition(d, t); var candidates := Pair(Some(codex), Some(claude));
      Commit(env, d, t, codex, claude, cleanup).log ==
      if w.Done? then w.log + RollForward(env, Replay(d, w.log), t, candidates, cleanup).log else []
  {
  }

  /** A commit installs a candidate only if it was scanned, or its hash is already in place. */
  lemma CommitScans(env: Env, d: Disk, scans: seq<Event>, t: Transition, codex: Bytes, claude: Bytes, cleanup: bool)
    requires Quiet(scans)
    requires forall v | env.barriers.At(v) ::
      Scans(scans, v, if v == Codex then codex else claude)
      || (d.Durable(v).Some? && env.sha(d.Durable(v).value) == t.after.At(v))
    ensures ScannedFirst(env, scans + Commit(env, d, t, codex, claude, cleanup).log)
  {
    var w := WriteTransition(d, t);
    var candidates := Pair(Some(codex), Some(claude));
    CommitShape(env, d, t, codex, claude, cleanup);
    if w.Done? {
      var d1 := Replay(d, w.log);
      JournalKeepsDurables(d, t);
      RollForwardInstalls(env, d1, t, candidates, cleanup);
      ScannedInstall(env, scans, w.log, RollForward(env, d1, t, candidates, cleanup).log);
    } else {
      QuietIsScanned(env, scans);
      assert scans + [] == scans;
    }
  }

  lemma {:induction false} SettlePendingScans(env: Env, d: Disk, scans: seq<Event>, claude: Recovered, codex: Recovered)
    requires Quiet(scans)
    requires claude.run.Some? && env.barriers.claude ==> Scans(scans, Claude, claude.candidate)
    requires codex.run.Some? && env.barriers.codex ==> Scans(scans, Codex, codex.candidate)
    ensures ScannedFirst(env, scans + SettlePending(env, d, claude, codex).log)
  {
    var r := SettlePending(env, d, claude, codex);
    if claude.run.None? || claude.run != codex.run || (!Changed(claude) && !Changed(codex)) {
      QuietIsScanned(env, scans + r.log);
    } else {
      var t := Transition(Pair(codex.run.value, claude.run.value), Hashes(env, codex.durable, claude.durable),
                          Hashes(env, codex.candidate, claude.candidate));
      CommitScans(env, d, scans, t, codex.candidate, claude.candidate, true);
    }
  }

  lemma {:induction false} CommitPendingScans(env: Env, d: Disk, out: Outside, replacement: Pair<Option<Bytes>>)
    ensures ScannedFirst(env, CommitPending(env, d, out, replacement).log)
  {
    var claude := Prepare(env, d, Claude, Some(out), replacement.claude);
    PrepareScans(env, d, Claude, Some(out), replacement.claude);
    QuietIsScanned(env, claude.log);
    if claude.Done? {
      var d1 := Replay(d, claude.log);
      var codex := Prepare(env, d1, Codex, Some(out), replacement.codex);
      PrepareScans(env, d1, Codex, Some(out), replacement.codex);
      var log := claude.log + codex.log;
      QuietIsScanned(env, log);
      if codex.Done? {
        ScansStay(claude.log, codex.log);
        SettlePendingScans(env, Replay(d1, codex.log), log, claude.value, codex.value);
      }
    }
  }

  lemma ScansStay(a: seq<Event>, b: seq<Event>)
    ensures forall v, bytes :: Scans(a, v, bytes) || Scans(b, v, bytes) ==> Scans(a + b, v, bytes)
  {
    forall v, bytes | Scans(a, v, bytes) || Scans(b, v, bytes)
      ensures Scans(a + b, v, bytes)
    {
      var e :| (e in a || e in b) && e.Scan? && e.vendor == v && bytes in e.generations;
      assert e in a + b;
    }
  }

  lemma {:induction false} RecoverPendingScans(env: Env, d: Disk, out: Outside)
    ensures ScannedFirst(env, RecoverPending(env, d, out).log)
  {
    if d.Durable(Codex).Some? && d.Durable(Claude).Some? {
      var replacement := Pair(Newer(env, Codex, out.standard.codex, d.Durable(Codex).value),
                              Newer(env, Claude, out.standard.claude, d.Durable(Claude).value));
      var claude, codex := Prepare(env, d, Claude, None, None), Prepare(env, d, Codex, None, None);
      PrepareScans(env, d, Claude, None, None);
      PrepareScans(env, d, Codex, None, None);
      var log := claude.log + codex.log;
      QuietIsScanned(env, claude.log);
      QuietIsScanned(env, log);
      if claude.Done? && codex.Done? {
        if !Changed(claude.value) && !Changed(codex.value) {
          QuietIsScanned(env, log + Perform(d, DropRuns(claude.value.run, codex.value.run)).log);
        } else {
          CommitPendingScans(env, d, out, replacement);
          ScannedConcat(env, log, CommitPending(env, d, out, replacement).log);
        }
      }
    }
  }

  /** Every generation that recovery installs was scanned first, and before any journal it wrote. */
  lemma {:induction false} RecoverScansFirst(env: Env, d: Disk, out: Outside)
    ensures ScannedFirst(env, Recover(env, d, out).log)
  {
    RecoverJournalScans(env, d);
    var j := RecoverJournal(env, d);
    if j.Done? {
      RecoverPendingScans(env, Replay(d, j.log), out);
      ScannedConcat(env, j.log, RecoverPending(env, Replay(d, j.log), out).log);
    }
  }

  lemma SettleScans(env: Env, out: Outside, v: Vendor, s: Session, candidate: Bytes, history: seq<Bytes>,
                    changed: bool, probing: bool)
    ensures Quiet(Settle(env, out, v, s, candidate, history, changed, probing).log)
    ensures NeutralLog(Settle(env, out, v, s, candidate, history, changed, probing).log)
    ensures var r := Settle(env, out, v, s, candidate, history, changed, probing);
      r.Done? ==> if changed then env.barriers.At(v) ==> Scans(r.log, v, r.value.0) else r.value.0 == candidate
  {
    SettleIsNeutral(env, out, v, s, candidate, history, changed, probing);
    var r := Settle(env, out, v, s, candidate, history, changed, probing);
    if r.Done? && changed && env.barriers.At(v) {
      assert Scan(v, s.run, r.value.1) in r.log;
    }
  }

  lemma {:induction false} ReconcileCommitScans(env: Env, d: Disk, s: Session, l: Exec<(Bytes, seq<Bytes>)>, c: Exec<(Bytes, seq<Bytes>)>)
    requires l.Done? && c.Done? && Quiet(l.log) && Quiet(c.log) && NeutralLog(l.log + c.log)
    requires d.Durable(Codex).Some? && d.Durable(Claude).Some?
    requires env.barriers.claude ==> Scans(l.log, Claude, l.value.0) || Some(l.value.0) == d.Durable(Claude)
    requires env.barriers.codex ==> Scans(c.log, Codex, c.value.0) || Some(c.value.0) == d.Durable(Codex)
    ensures var t := Transition(Pair(s.run, s.run), s.baseline, Hashes(env, c.value.0, l.value.0));
      ScannedFirst(env, l.log + c.log + Commit(env, Replay(d, l.log + c.log), t, c.value.0, l.value.0, false).log)
  {
    NeutralReplay(env, d, l.log + c.log);
    ScansStay(l.log, c.log);
    var t := Transition(Pair(s.run, s.run), s.baseline, Hashes(env, c.value.0, l.value.0));
    CommitScans(env, Replay(d, l.log + c.log), l.log + c.log, t, c.value.0, l.value.0, false);
  }

  /** Every generation that reconciliation installs was scanned first, and before its journal. */
  lemma {:induction false} ReconcileScansFirst(env: Env, d: Disk, s: Session, out: Outside, probing: bool)
    ensures ScannedFirst(env, Reconcile(env, d, s, out, probing).log)
  {
    if Reconcile(env, d, s, out, probing).log != [] {
      var codex, claude := ReadCandidate(env, d, s, Codex), ReadCandidate(env, d, s, Claude);
      var hx, hl := Remember(s.history.codex, codex.value), Remember(s.history.claude, claude.value);
      var codexChanged := codex.value != d.Durable(Codex).value;
      var claudeChanged := claude.value != d.Durable(Claude).value;
      var l := Settle(env, out, Claude, s, claude.value, hl.value, claudeChanged, probing);
      SettleScans(env, out, Claude, s, claude.value, hl.value, claudeChanged, probing);
      QuietIsScanned(env, l.log);
      if l.Done? {
        var c := Settle(env, out, Codex, s, codex.value, hx.value, codexChanged, probing);
        SettleScans(env, out, Codex, s, codex.value, hx.value, codexChanged, probing);
        var log := l.log + c.log;
        QuietIsScanned(env, log);
        if c.Done? {
          ReconcileCommitScans(env, d, s, l, c);
        }
      }
    }
  }
}
