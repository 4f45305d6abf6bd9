/**
 The commit and recovery protocol of the default credential pair, as logs of events.

 Vendor parsers, status probes, evidence barriers and the SHA-256 digest are oracles held in `Env`;
 the ambient logins and what the probes leave behind are held in `Outside`.
 */
module PairProtocol {
  import opened Basics
  import opened PairDisk

  datatype Env = Env(
    sha: Bytes -> Digest,
    valid: (Vendor, Bytes) -> bool,
    generation: (Vendor, Bytes) -> Option<int>,
    barriers: Pair<bool>,
    admits: (Vendor, RunId, seq<Bytes>) -> bool)

  datatype ProbeResult = ProbeResult(confirmed: bool, left: Option<Bytes>)

  datatype Outside = Outside(
    standard: Pair<Option<Bytes>>,
    probe: (Vendor, Bytes) -> ProbeResult,
    sourceProbe: (Vendor, Bytes) -> ProbeResult)

  ghost predicate CollisionFree(env: Env) {
    forall a, b :: env.sha(a) == env.sha(b) ==> a == b
  }

  /** Hand generations to the vendor's evidence barrier, if one was supplied; it may refuse. */
  function Barrier(env: Env, v: Vendor, run: RunId, generations: seq<Bytes>): Exec<()> {
    if !env.barriers.At(v) then Done([], ())
    else if env.admits(v, run, generations) then Done([Scan(v, run, generations)], ())
    else Stopped([Scan(v, run, generations)], RefreshFailure)
  }

  function Hashes(env: Env, codex: Bytes, claude: Bytes): Pair<Digest> {
    Pair(env.sha(codex), env.sha(claude))
  }

  predicate DurablesValid(env: Env, d: Disk) {
    && d.Durable(Codex).Some? && env.valid(Codex, d.Durable(Codex).value)
    && d.Durable(Claude).Some? && env.valid(Claude, d.Durable(Claude).value)
  }

  function DurableHashes(env: Env, d: Disk): Pair<Digest>
    requires d.Durable(Codex).Some? && d.Durable(Claude).Some?
  {
    Hashes(env, d.Durable(Codex).value, d.Durable(Claude).value)
  }

  // ---- Journal recovery ----

  /** The journaled candidate of one vendor, `None` when its transaction is already gone. */
  function JournalCandidate(env: Env, d: Disk, v: Vendor, t: Transition): (r: Exec<Option<Bytes>>) {
    var run := t.runs.At(v);
    var pending := d.Pending(v);
    if pending.Keys == {} then Done([], None)
    else if pending.Keys != {run} then Stopped([], StateConflict)
    else
      var m := pending[run].metadata;
      if !m.Active? || m.runId != run || m.baseline !in {t.before.At(v), t.after.At(v)} then
        Stopped([], StateConflict)
      else
        var first := Barrier(env, v, run, []);
        if first.Stopped? then Stopped(first.log, first.reason)
        else
          var c := pending[run].candidate;
          if c.None? || !env.valid(v, c.value) || env.sha(c.value) != t.after.At(v) then
            Stopped(first.log, StateConflict)
          else
            var second := Barrier(env, v, run, [c.value]);
            if second.Stopped? then Stopped(first.log + second.log, second.reason)
            else Done(first.log + second.log, c)
  }

  /** What may be rolled forward: marker and durables are bound to the journal, witnesses are there. */
  predicate RollForwardGuard(env: Env, d: Disk, t: Transition, candidates: Pair<Option<Bytes>>) {
    && (d.marker == Names(t.before) || d.marker == Names(t.after))
    && DurablesValid(env, d)
    && var h := DurableHashes(env, d);
    && h.claude in {t.before.claude, t.after.claude}
    && h.codex in {t.before.codex, t.after.codex}
    && (candidates.claude.None? || candidates.codex.None? ==> d.marker == Names(t.after) && h == t.after)
  }

  predicate CandidateMatches(env: Env, candidate: Option<Bytes>, digest: Digest) {
    candidate.Some? && env.sha(candidate.value) == digest
  }

  /** The write that brings one durable to its journaled hash, if it is not already there. */
  function InstallPlan(env: Env, d: Disk, v: Vendor, t: Transition, candidate: Option<Bytes>): seq<Event> {
    if d.Durable(v).None? || candidate.None? || env.sha(d.Durable(v).value) == t.after.At(v) then []
    else [PutDurable(v, candidate.value)]
  }

  /** The transaction is removed, or kept open on its new baseline. */
  function CleanPlan(d: Disk, v: Vendor, t: Transition, cleanup: bool): seq<Event> {
    if !cleanup then [PutMetadata(v, t.runs.At(v), t.after.At(v))]
    else if d.Pending(v).Keys == {} then []
    else [DropTransaction(v, t.runs.At(v))]
  }

  function MarkerPlan(d: Disk, t: Transition): seq<Event> {
    if d.marker == Names(t.after) then [] else [PutMarker(t.after)]
  }

  /** Claude, then Codex, then the marker, then the transactions, then the journal. */
  function RollForwardPlan(env: Env, d: Disk, t: Transition, candidates: Pair<Option<Bytes>>, cleanup: bool): seq<Event> {
    InstallPlan(env, d, Claude, t, candidates.claude)
    + (InstallPlan(env, d, Codex, t, candidates.codex)
       + (MarkerPlan(d, t)
          + (CleanPlan(d, Claude, t, cleanup) + (CleanPlan(d, Codex, t, cleanup) + [DropJournal]))))
  }

  predicate Installable(env: Env, d: Disk, v: Vendor, t: Transition, candidate: Option<Bytes>) {
    d.Durable(v).Some? && (env.sha(d.Durable(v).value) == t.after.At(v) || CandidateMatches(env, candidate, t.after.At(v)))
  }

  /** A Codex candidate that does not match is only noticed after Claude has been written. */
  function RollForward(env: Env, d: Disk, t: Transition, candidates: Pair<Option<Bytes>>, cleanup: bool): (r: Exec<()>)
  {
    if !RollForwardGuard(env, d, t, candidates) || !Installable(env, d, Claude, t, candidates.claude) then
      Stopped([], StateConflict)
    else if !Installable(env, d, Codex, t, candidates.codex) then
      Stopped(InstallPlan(env, d, Claude, t, candidates.claude), StateConflict)
    else
      Perform(d, RollForwardPlan(env, d, t, candidates, cleanup))
  }

  function WriteTransition(d: Disk, t: Transition): Exec<()> {
    match d.journal
    case NoJournal => Done([PutJournal(t)], ())
    case BadJournal => Stopped([], StateConflict)
    case Prepared(t') => if t' == t then Done([], ()) else Stopped([], StateConflict)
  }

  /** First half of pair recovery: finish whatever the journal says was being committed. */
  function RecoverJournal(env: Env, d: Disk): Exec<()> {
    match d.journal
    case NoJournal => Done([], ())
    case BadJournal => Stopped([], StateConflict)
    case Prepared(t) =>
      var codex := JournalCandidate(env, d, Codex, t);
      if codex.Stopped? then Stopped(codex.log, codex.reason)
      else
        var claude := JournalCandidate(env, d, Claude, t);
        if claude.Stopped? then Stopped(codex.log + claude.log, claude.reason)
        else RollForward(env, d, t, Pair(codex.value, claude.value), true).After(codex.log + claude.log)
  }

  // ---- Recovery of unjournaled transactions ----

  datatype Recovered = Recovered(run: Option<RunId>, durable: Bytes, candidate: Bytes)

  function Newer(env: Env, v: Vendor, standard: Option<Bytes>, durable: Bytes): Option<Bytes> {
    if standard.None? || !env.valid(v, standard.value) then None
    else
      var s, g := env.generation(v, standard.value), env.generation(v, durable);
      if s.Some? && g.Some? && s.value > g.value then standard else None
  }

  function Dedup(values: seq<Bytes>): seq<Bytes> {
    if values == [] then []
    else
      var rest := Dedup(values[..|values| - 1]);
      if values[|values| - 1] in rest then rest else rest + [values[|values| - 1]]
  }

  /** Probe an ambient login in a disposable home; its generations reach the barrier either way. */
  function ProbeStandard(env: Env, out: Outside, v: Vendor, run: RunId, login: Bytes, prior: seq<Bytes>)
    : Exec<Option<Bytes>>
  {
    if !env.valid(v, login) then Stopped([], StateConflict)
    else
      var p := out.sourceProbe(v, login);
      if p.left.None? || !env.valid(v, p.left.value) then Stopped([], StateConflict)
      else
        var b := Barrier(env, v, run, Dedup(prior + [login, p.left.value]));
        if b.Stopped? then Stopped(b.log, b.reason)
        else Done(b.log, if p.confirmed then p.left else None)
  }

  /** The only pending run, if there is exactly one. */
  function SoleRun(pending: map<RunId, Transaction>): Option<RunId> {
    if exists run :: run in pending && pending.Keys == {run} then
      var run :| run in pending && pending.Keys == {run};
      Some(run)
    else None
  }

  /** Read and validate the one pending transaction of a vendor before any probe runs. */
  function Examine(env: Env, d: Disk, v: Vendor): Exec<Recovered> {
    if d.Durable(v).None? || !env.valid(v, d.Durable(v).value) then Stopped([], StateConflict)
    else
      var durable := d.Durable(v).value;
      if d.Pending(v).Keys == {} then Done([], Recovered(None, durable, durable))
      else
        var sole := SoleRun(d.Pending(v));
        if sole.None? then Stopped([], StateConflict)
        else
          var run := sole.value;
          var x := d.Pending(v)[run];
          if !x.metadata.Active? || x.metadata.runId != run then Stopped([], StateConflict)
          else
            var first := Barrier(env, v, run, []);
            if first.Stopped? then Stopped(first.log, first.reason)
            else if x.candidate.None? || !env.valid(v, x.candidate.value) then Stopped(first.log, StateConflict)
            else if x.metadata.baseline != env.sha(durable) && x.candidate.value != durable then
              Stopped(first.log, StateConflict)
            else Done(first.log, Recovered(Some(run), durable, x.candidate.value))
  }

  function ProbeCandidate(env: Env, out: Outside, v: Vendor, run: RunId, candidate: Bytes, reason: Reason): Exec<Bytes> {
    var p := out.probe(v, candidate);
    if p.left.None? || !env.valid(v, p.left.value) || !p.confirmed then Stopped([Probe(v, run, p.left)], reason)
    else Done([Probe(v, run, p.left)], p.left.value)
  }

  /** A strictly newer ambient login replaces the candidate; otherwise the candidate is probed. */
  function Refresh(env: Env, out: Outside, v: Vendor, run: RunId, durable: Bytes, candidate: Bytes,
                   replacement: Option<Bytes>): Exec<Bytes>
  {
    var supersedes := replacement.Some? &&
      (candidate == durable ||
       (var r, c := env.generation(v, replacement.value), env.generation(v, candidate);
        r.Some? && c.Some? && r.value > c.value));
    if !supersedes then ProbeCandidate(env, out, v, run, candidate, StateConflict)
    else
      var s := ProbeStandard(env, out, v, run, replacement.value, [durable, candidate]);
      if s.Stopped? then Stopped(s.log, s.reason)
      else if s.value.Some? then Done(s.log + [PutCandidate(v, run, s.value.value)], s.value.value)
      else ProbeCandidate(env, out, v, run, candidate, StateConflict).After(s.log)
  }

  /** The pending transaction that was examined: probed if `out` is given, and scanned again. */
  function PrepareOpen(env: Env, d: Disk, v: Vendor, out: Option<Outside>, replacement: Option<Bytes>, r: Recovered)
    : Exec<Recovered>
    requires r.run.Some? && r.run.value in d.Pending(v) && d.Pending(v)[r.run.value].metadata.Active?
  {
    var run := r.run.value;
    if d.Pending(v)[run].metadata.baseline != env.sha(r.durable) then
      var b := Barrier(env, v, run, [r.durable]);
      if b.Stopped? then Stopped(b.log, b.reason) else Done(b.log, r)
    else
      var f := if out.None? then Done([], r.candidate)
               else Refresh(env, out.value, v, run, r.durable, r.candidate, replacement);
      if f.Stopped? then Stopped(f.log, f.reason)
      else
        var b := Barrier(env, v, run, Dedup([r.durable, r.candidate, f.value]));
        if b.Stopped? then Stopped(f.log + b.log, b.reason)
        else Done(f.log + b.log, Recovered(Some(run), r.durable, f.value))
  }

  /** One vendor's pending transaction, if there is one. */
  function Prepare(env: Env, d: Disk, v: Vendor, out: Option<Outside>, replacement: Option<Bytes>): Exec<Recovered> {
    var x := Examine(env, d, v);
    if x.Stopped? || x.value.run.None? then x
    else PrepareOpen(env, d, v, out, replacement, x.value).After(x.log)
  }

  predicate Changed(r: Recovered) { r.candidate != r.durable }

  function DropRuns(claude: Option<RunId>, codex: Option<RunId>): seq<Event> {
    (if claude.Some? then [DropTransaction(Claude, claude.value)] else [])
    + (if codex.Some? then [DropTransaction(Codex, codex.value)] else [])
  }

  /** Journal one changed pair and roll it forward. */
  function Commit(env: Env, d: Disk, t: Transition, codex: Bytes, claude: Bytes, cleanup: bool): Exec<()> {
    var w := WriteTransition(d, t);
    if w.Stopped? then w
    else RollForward(env, Replay(d, w.log), t, Pair(Some(codex), Some(claude)), cleanup).After(w.log)
  }

  /** Both transactions probed: drop them when nothing changed, and commit the pair otherwise. */
  function SettlePending(env: Env, d: Disk, claude: Recovered, codex: Recovered): Exec<()> {
    if claude.run.None? || claude.run != codex.run then Stopped([], StateConflict)
    else if !Changed(claude) && !Changed(codex) then Perform(d, DropRuns(claude.run, codex.run))
    else
      var t := Transition(Pair(codex.run.value, claude.run.value), Hashes(env, codex.durable, claude.durable),
                          Hashes(env, codex.candidate, claude.candidate));
      Commit(env, d, t, codex.candidate, claude.candidate, true)
  }

  /** The probing half, entered only for a structurally paired changed transaction. */
  function CommitPending(env: Env, d: Disk, out: Outside, replacement: Pair<Option<Bytes>>): Exec<()> {
    var claude := Prepare(env, d, Claude, Some(out), replacement.claude);
    if claude.Stopped? then Stopped(claude.log, claude.reason)
    else
      var d1 := Replay(d, claude.log);
      var codex := Prepare(env, d1, Codex, Some(out), replacement.codex);
      var log := claude.log + codex.log;
      if codex.Stopped? then Stopped(log, codex.reason)
      else
        SettlePending(env, Replay(d1, codex.log), claude.value, codex.value).After(log)
  }

  /** Second half of pair recovery: check the committed pair, then settle what is still pending. */
  function RecoverPending(env: Env, d: Disk, out: Outside): Exec<Pair<Option<Bytes>>> {
    if d.Durable(Codex).None? || d.Durable(Claude).None? then Stopped([], StateConflict)
    else if d.marker != Names(DurableHashes(env, d)) then Stopped([], StateConflict)
    else
      var replacement := Pair(Newer(env, Codex, out.standard.codex, d.Durable(Codex).value),
                              Newer(env, Claude, out.standard.claude, d.Durable(Claude).value));
      var claude := Prepare(env, d, Claude, None, None);
      if claude.Stopped? then Stopped(claude.log, claude.reason)
      else
        var codex := Prepare(env, d, Codex, None, None);
        var log := claude.log + codex.log;
        if codex.Stopped? then Stopped(log, codex.reason)
        else
          var l, c := claude.value, codex.value;
          if !Changed(l) && !Changed(c) then
            var p := Perform(d, DropRuns(l.run, c.run));
            if p.Stopped? then Stopped(log + p.log, p.reason) else Done(log + p.log, replacement)
          else if l.run.None? || c.run.None? || l.run != c.run then Stopped(log, StateConflict)
          else
            var p := CommitPending(env, d, out, replacement);
            if p.Stopped? then Stopped(log + p.log, p.reason) else Done(log + p.log, Pair(None, None))
  }

  /** `_coordinated_recover_default_pair`: returns strictly newer ambient logins, if any. */
  function Recover(env: Env, d: Disk, out: Outside): Exec<Pair<Option<Bytes>>> {
    var j := RecoverJournal(env, d);
    if j.Stopped? then Stopped(j.log, j.reason)
    else RecoverPending(env, Replay(d, j.log), out).After(j.log)
  }

  // ---- Reconciliation of an open pair of transactions ----

  const MAX_HISTORY: nat := 256
  const MAX_HISTORY_BYTES: nat := 67108864

  function TotalBytes(values: seq<Bytes>): nat {
    if values == [] then 0 else TotalBytes(values[..|values| - 1]) + |values[|values| - 1]|
  }

  /** The generation history after one append: deduplicated, and refused beyond its bounds. */
  function Remember(history: seq<Bytes>, value: Bytes): (r: Option<seq<Bytes>>)
    ensures r.Some? ==> value in r.value && history <= r.value
  {
    if value in history then Some(history)
    else if |history| >= MAX_HISTORY || TotalBytes(history) + |value| > MAX_HISTORY_BYTES then None
    else Some(history + [value])
  }

  /** An open `CombinedCredentialTransaction` over the default pair; `completed` once a transaction is removed. */
  datatype Session = Session(run: RunId, baseline: Pair<Digest>, history: Pair<seq<Bytes>>, completed: Pair<bool>)

  /** Read one candidate for reconciliation and remember it. */
  function ReadCandidate(env: Env, d: Disk, s: Session, v: Vendor): Option<Bytes> {
    if s.run !in d.Pending(v) then None
    else
      var c := d.Pending(v)[s.run].candidate;
      if c.None? || !env.valid(v, c.value) then None else c
  }

  /** Probe a changed candidate if asked to, remember what it left, and pass the history to the barrier. */
  function Settle(env: Env, out: Outside, v: Vendor, s: Session, candidate: Bytes, history: seq<Bytes>,
                  changed: bool, probing: bool): Exec<(Bytes, seq<Bytes>)>
  {
    if !changed then Done([], (candidate, history))
    else
      var p := if probing then ProbeCandidate(env, out, v, s.run, candidate, RefreshFailure) else Done([], candidate);
      if p.Stopped? then Stopped(p.log, p.reason)
      else
        var h := Remember(history, p.value);
        if h.None? then Stopped(p.log, RefreshFailure)
        else
          var b := Barrier(env, v, s.run, h.value);
          if b.Stopped? then Stopped(p.log + b.log, b.reason)
          else Done(p.log + b.log, (p.value, h.value))
  }

  /** `_reconcile_default_pair`: `Done` carries whether anything was committed, and the new session. */
  function Reconcile(env: Env, d: Disk, s: Session, out: Outside, probing: bool): Exec<(bool, Session)> {
    if !DurablesValid(env, d) || DurableHashes(env, d) != s.baseline then Stopped([], StateConflict)
    else
      var codex, claude := ReadCandidate(env, d, s, Codex), ReadCandidate(env, d, s, Claude);
      if codex.None? || claude.None? then Stopped([], RefreshFailure)
      else
        var hx, hl := Remember(s.history.codex, codex.value), Remember(s.history.claude, claude.value);
        if hx.None? || hl.None? then Stopped([], RefreshFailure)
        else
          var codexChanged := codex.value != d.Durable(Codex).value;
          var claudeChanged := claude.value != d.Durable(Claude).value;
          if !codexChanged && !claudeChanged then
            Done([], (false, s.(history := Pair(hx.value, hl.value))))
          else
            var l := Settle(env, out, Claude, s, claude.value, hl.value, claudeChanged, probing);
            if l.Stopped? then Stopped(l.log, l.reason)
            else
              var c := Settle(env, out, Codex, s, codex.value, hx.value, codexChanged, probing);
              var log := l.log + c.log;
              if c.Stopped? then Stopped(log, c.reason)
              else
                var after := Hashes(env, c.value.0, l.value.0);
                var t := Transition(Pair(s.run, s.run), s.baseline, after);
                var w := Commit(env, Replay(d, log), t, c.value.0, l.value.0, false);
                if w.Stopped? then Stopped(log + w.log, w.reason)
                else Done(log + w.log, (true, s.(baseline := after, history := Pair(c.value.1, l.value.1))))
  }

  /** `finalize_reconciled`: Codex first, then Claude, each only if its candidate equals its durable. */
  function FinalizeVendor(env: Env, d: Disk, s: Session, v: Vendor): Exec<()> {
    if s.completed.At(v) then Done([], ())
    else if d.Durable(v).None? || s.run !in d.Pending(v) || d.Pending(v)[s.run].candidate.None? then Stopped([], StateConflict)
    else
      var c := d.Pending(v)[s.run].candidate.value;
      if (v == Codex && (!env.valid(v, c) || Remember(s.history.At(v), c).None?)) then Stopped([], RefreshFailure)
      else if env.sha(d.Durable(v).value) != s.baseline.At(v) || c != d.Durable(v).value then Stopped([], StateConflict)
      else Done([DropTransaction(v, s.run)], ())
  }

  function Finalize(env: Env, d: Disk, s: Session): Exec<()> {
    var codex := FinalizeVendor(env, d, s, Codex);
    if codex.Stopped? then codex
    else FinalizeVendor(env, Replay(d, codex.log), s, Claude).After(codex.log)
  }

  /** The transactions that a session knows to be removed after a finalisation, whether that returned or not. */
  function CompletedBy(env: Env, d: Disk, s: Session): Pair<bool> {
    Pair(FinalizeVendor(env, d, s, Codex).Done?, Finalize(env, d, s).Done? || s.completed.claude)
  }

  /** Opening a session seeds the Claude transaction, then the Codex one. */
  function SeedPair(env: Env, d: Disk, run: RunId): Exec<()> {
    if !DurablesValid(env, d) || d.Pending(Claude).Keys != {} || d.Pending(Codex).Keys != {} then
      Stopped([], RefreshFailure)
    else
      Done([Seed(Claude, run, d.Durable(Claude).value, env.sha(d.Durable(Claude).value)),
            Seed(Codex, run, d.Durable(Codex).value, env.sha(d.Durable(Codex).value))], ())
  }

  /** `CombinedCredentialTransaction.acquire` up to the point where its transactions are open. */
  function Acquire(env: Env, d: Disk, out: Outside, run: RunId): Exec<()> {
    var r := Recover(env, d, out);
    if r.Stopped? then Stopped(r.log, r.reason)
    else SeedPair(env, Replay(d, r.log), run).After(r.log)
  }
}
