/**
 The imperative roll-forward: the methods overwrite the disk one write at a time.

 Each method is proved to make exactly the writes of its specification in `PairProtocol`, so what
 is proved there holds of every state it passes through.
 */
module PairStore {
  import opened Basics
  import opened PairDisk
  import opened PairProtocol
  import opened PairPlans

  predicate Fits(values: seq<Bytes>) {
    |values| <= MAX_HISTORY && TotalBytes(values) <= MAX_HISTORY_BYTES
  }

  /** Within both bounds, and free of duplicates. */
  predicate IsHistory(values: seq<Bytes>) {
    && Fits(values)
    && forall i, j | 0 <= i < j < |values| :: values[i] != values[j]
  }

  /** Appending one value after the other to an empty history, until one is refused. */
  function RememberAll(values: seq<Bytes>): Option<seq<Bytes>> {
    if values == [] then Some([])
    else
      var init := RememberAll(values[..|values| - 1]);
      if init.None? then None else Remember(init.value, values[|values| - 1])
  }

  lemma TotalOfMore(values: seq<Bytes>, last: Bytes)
    ensures TotalBytes(values + [last]) == TotalBytes(values) + |last|
  {
    assert (values + [last])[..|values|] == values;
  }

  /** A series is refused exactly when its distinct values do not fit; otherwise the history holds these. */
  lemma {:induction false} HistoryHoldsEachOnce(values: seq<Bytes>)
    ensures RememberAll(values) == if Fits(Dedup(values)) then Some(Dedup(values)) else None
    ensures forall b :: b in Dedup(values) <==> b in values
    ensures forall i, j | 0 <= i < j < |Dedup(values)| :: Dedup(values)[i] != Dedup(values)[j]
    decreases |values|
  {
    if values != [] {
      var init, last := values[..|values| - 1], values[|values| - 1];
      assert values == init + [last];
      HistoryHoldsEachOnce(init);
      TotalOfMore(Dedup(init), last);
    }
  }

  /** What is held after a series is still held, in the same places, after any longer one. */
  lemma {:induction false} HistoryOnlyGrows(values: seq<Bytes>, more: seq<Bytes>)
    requires RememberAll(values + more).Some?
    ensures RememberAll(values).Some? && RememberAll(values).value <= RememberAll(values + more).value
    decreases |more|
  {
    if more == [] {
      assert values + more == values;
    } else {
      var init := more[..|more| - 1];
      assert (values + more)[..|values + more| - 1] == values + init;
      HistoryOnlyGrows(values, init);
    }
  }

  /** `_AuthGenerationHistory`: bounded, deduplicated, with a running byte count. */
  class AuthGenerationHistory {
    var values: seq<Bytes>
    var totalBytes: nat

    ghost predicate Valid()
      reads this
    {
      totalBytes == TotalBytes(values) && IsHistory(values)
    }

    constructor ()
      ensures Valid() && values == []
    {
      values, totalBytes := [], 0;
    }

    /** Whether the value was new; `None`, with nothing changed, when a bound would be exceeded. */
    method Append(value: Bytes) returns (added: Option<bool>)
      requires Valid()
      modifies this
      ensures Valid()
      ensures added.None? <==> Remember(old(values), value).None?
      ensures added.Some? ==> added.value == (value !in old(values))
      ensures values == if added.Some? then Remember(old(values), value).value else old(values)
    {
      if value in values {
        return Some(false);
      }
      if |values| >= MAX_HISTORY || totalBytes + |value| > MAX_HISTORY_BYTES {
        return None;
      }
      values := values + [value];
      totalBytes := totalBytes + |value|;
      assert values[..|values| - 1] == old(values);
      return Some(true);
    }
  }

  class Store {
    const env: Env
    var disk: Disk
    ghost var log: seq<Event>

    constructor (env: Env, d: Disk)
      ensures this.env == env && disk == d && log == []
    {
      this.env, disk, log := env, d, [];
    }

    method InstallDurable(v: Vendor, bytes: Bytes)
      modifies this
      ensures disk == Apply(old(disk), PutDurable(v, bytes)) && log == old(log) + [PutDurable(v, bytes)]
    {
      disk := disk.WithAccount(v, disk.accounts.At(v).(durable := Some(bytes)));
      log := log + [PutDurable(v, bytes)];
    }

    method InstallMarker(hashes: Pair<Digest>)
      modifies this
      ensures disk == Apply(old(disk), PutMarker(hashes)) && log == old(log) + [PutMarker(hashes)]
    {
      disk := disk.(marker := Names(hashes));
      log := log + [PutMarker(hashes)];
    }

    /** Removing or re-basing a transaction fails when its directory is missing. */
    method CleanTransaction(v: Vendor, run: RunId, cleanup: bool, baseline: Digest) returns (ok: bool)
      modifies this
      ensures var e := if cleanup then DropTransaction(v, run) else PutMetadata(v, run, baseline);
        && (ok <==> Possible(old(disk), e))
        && disk == (if ok then Apply(old(disk), e) else old(disk))
        && log == old(log) + (if ok then [e] else [])
    {
      var pending := disk.Pending(v);
      if run !in pending {
        return false;
      }
      var next := if cleanup then pending - {run}
                  else pending[run := pending[run].(metadata := Active(run, baseline))];
      disk := disk.WithPending(v, next);
      log := log + [if cleanup then DropTransaction(v, run) else PutMetadata(v, run, baseline)];
      return true;
    }

    ghost predicate Did(d: Disk, earlier: seq<Event>, x: Exec<()>, ok: bool)
      reads this
    {
      log == earlier + x.log && disk == Replay(d, x.log) && (ok <==> x.Done?)
    }

    /** Marker and durables must be bound to the journal before anything is written. */
    method CheckBound(t: Transition, candidates: Pair<Option<Bytes>>) returns (ok: bool)
      ensures ok <==> RollForwardGuard(env, disk, t, candidates)
    {
      if disk.marker != Names(t.before) && disk.marker != Names(t.after) {
        return false;
      }
      if disk.Durable(Claude).None? || disk.Durable(Codex).None?
         || !env.valid(Claude, disk.Durable(Claude).value) || !env.valid(Codex, disk.Durable(Codex).value) {
        return false;
      }
      var claudeHash, codexHash := env.sha(disk.Durable(Claude).value), env.sha(disk.Durable(Codex).value);
      if claudeHash !in {t.before.claude, t.after.claude} || codexHash !in {t.before.codex, t.after.codex} {
        return false;
      }
      if candidates.claude.None? || candidates.codex.None? {
        if disk.marker != Names(t.after) || claudeHash != t.after.claude || codexHash != t.after.codex {
          return false;
        }
      }
      return true;
    }

    /** Bring one durable to its journaled hash, unless it is there already. */
    method Advance(v: Vendor, t: Transition, candidate: Option<Bytes>) returns (ok: bool)
      requires disk.Durable(v).Some?
      modifies this
      ensures ok <==> Installable(env, old(disk), v, t, candidate)
      ensures var plan := if ok then InstallPlan(env, old(disk), v, t, candidate) else [];
        log == old(log) + plan && disk == Replay(old(disk), plan)
    {
      var durable := disk.Durable(v).value;
      if env.sha(durable) != t.after.At(v) {
        if candidate.None? || env.sha(candidate.value) != t.after.At(v) {
          return false;
        }
        ghost var d := disk;
        InstallDurable(v, candidate.value);
        ReplayOne(d, PutDurable(v, candidate.value));
      }
      return true;
    }

    /** The first three writes. */
    method InstallPair(t: Transition, candidates: Pair<Option<Bytes>>) returns (ok: bool)
      requires RollForwardGuard(env, disk, t, candidates)
      modifies this
      ensures ok <==> BothInstallable(env, old(disk), t, candidates)
      ensures var plan := if ok then InstallsPlan(env, old(disk), t, candidates)
                          else if Installable(env, old(disk), Claude, t, candidates.claude)
                          then InstallPlan(env, old(disk), Claude, t, candidates.claude) else [];
        log == old(log) + plan && disk == Replay(old(disk), plan)
    {
      ghost var d := disk;
      ghost var w1, w2 := InstallPlan(env, d, Claude, t, candidates.claude), InstallPlan(env, d, Codex, t, candidates.codex);
      ok := Advance(Claude, t, candidates.claude);
      if !ok {
        return;
      }
      ghost var d1 := disk;
      OtherVendorUntouched(env, d, t, candidates.claude);
      ok := Advance(Codex, t, candidates.codex);
      if !ok {
        return;
      }
      ghost var d2 := disk;
      if disk.marker != Names(t.after) {
        InstallMarker(t.after);
        ReplayOne(d2, PutMarker(t.after));
      }
      ReplayConcat(d1, w2, MarkerPlan(d, t));
      ReplayConcat(d, w1, w2 + MarkerPlan(d, t));
    }

    /** Cleaning one transaction, where there is something to clean. */
    method Clean(v: Vendor, t: Transition, cleanup: bool) returns (ok: bool)
      modifies this
      ensures Did(old(disk), old(log), Perform(old(disk), CleanPlan(old(disk), v, t, cleanup)), ok)
    {
      ghost var d := disk;
      ok := true;
      var pending := disk.Pending(v);
      if !cleanup || pending.Keys != {} {
        ok := CleanTransaction(v, t.runs.At(v), cleanup, t.after.At(v));
        ghost var e := CleanPlan(d, v, t, cleanup)[0];
        PerformCons(d, e, []);
        ReplayOne(d, e);
        assert [e] + [] == [e];
      }
    }

    /** Cleaning the Codex transaction and removing the journal. */
    method FinishCodex(t: Transition, cleanup: bool) returns (ok: bool)
      modifies this
      ensures Did(old(disk), old(log), Perform(old(disk), CleanPlan(old(disk), Codex, t, cleanup) + [DropJournal]), ok)
    {
      ghost var d := disk;
      PerformConcat(d, CleanPlan(d, Codex, t, cleanup), [DropJournal]);
      ok := Clean(Codex, t, cleanup);
      if ok {
        ghost var d2 := disk;
        PerformCons(d2, DropJournal, []);
        assert [DropJournal] + [] == [DropJournal];
        disk := disk.(journal := NoJournal);
        log := log + [DropJournal];
        ReplayOne(d2, DropJournal);
        ReplayConcat(d, CleanPlan(d, Codex, t, cleanup), [DropJournal]);
      }
    }

    /** Cleaning both transactions, Claude's first, and removing the journal. */
    method Finish(t: Transition, cleanup: bool) returns (ok: bool)
      modifies this
      ensures Did(old(disk), old(log), Perform(old(disk), FinishPlan(old(disk), t, cleanup)), ok)
    {
      ghost var d, earlier := disk, log;
      FinishSplits(d, t, cleanup);
      ok := Clean(Claude, t, cleanup);
      if ok {
        ghost var d1 := disk;
        ghost var rest := Perform(d1, CleanPlan(d1, Codex, t, cleanup) + [DropJournal]);
        Joins(d, CleanPlan(d, Claude, t, cleanup), rest, earlier);
        ok := FinishCodex(t, cleanup);
      }
    }

    /** The finishing writes of a roll-forward from `d` whose installing writes have been made. */
    method FinishFrom(t: Transition, cleanup: bool, ghost d: Disk, ghost earlier: seq<Event>,
                      ghost candidates: Pair<Option<Bytes>>) returns (ok: bool)
      requires RollForwardGuard(env, d, t, candidates) && BothInstallable(env, d, t, candidates)
      requires disk == Replay(d, InstallsPlan(env, d, t, candidates))
      requires log == earlier + InstallsPlan(env, d, t, candidates)
      modifies this
      ensures Did(d, earlier, PairProtocol.RollForward(env, d, t, candidates, cleanup), ok)
    {
      RollForwardEnds(env, d, t, candidates, cleanup, earlier);
      ok := Finish(t, cleanup);
    }

    /** `_roll_forward_pair_transition`, write by write. */
    method RollForward(t: Transition, candidates: Pair<Option<Bytes>>, cleanup: bool) returns (ok: bool)
      modifies this
      ensures Did(old(disk), old(log), PairProtocol.RollForward(env, old(disk), t, candidates, cleanup), ok)
    {
      ok := CheckBound(t, candidates);
      if !ok {
        return;
      }
      ghost var d, earlier := disk, log;
      ok := InstallPair(t, candidates);
      if ok {
        ok := FinishFrom(t, cleanup, d, earlier, candidates);
      } else {
        RollForwardRefuses(env, d, t, candidates, cleanup);
      }
    }
  }

  /** The finishing writes run one after the other until one of them is impossible. */
  lemma FinishSplits(d: Disk, t: Transition, cleanup: bool)
    ensures var claude := CleanPlan(d, Claude, t, cleanup);
      var x := Perform(d, FinishPlan(d, t, cleanup));
      var d1 := Replay(d, claude);
      if Perform(d, claude).Stopped? then x == Perform(d, claude)
      else Perform(d, claude).log == claude
           && x == Perform(d1, CleanPlan(d1, Codex, t, cleanup) + [DropJournal]).After(claude)
  {
    var claude, codex := CleanPlan(d, Claude, t, cleanup), CleanPlan(d, Codex, t, cleanup);
    PerformConcat(d, claude, codex + [DropJournal]);
    if claude != [] { ReplayOne(d, claude[0]); }
    assert codex == CleanPlan(Replay(d, claude), Codex, t, cleanup);
  }

  lemma OtherVendorUntouched(env: Env, d: Disk, t: Transition, candidate: Option<Bytes>)
    ensures var d' := Replay(d, InstallPlan(env, d, Claude, t, candidate));
      d'.Durable(Codex) == d.Durable(Codex) && d'.marker == d.marker
  {
    var plan := InstallPlan(env, d, Claude, t, candidate);
    if plan != [] { ReplayOne(d, plan[0]); }
  }

  /** The whole plan is the installing writes, then the finishing ones on the disk they leave. */
  lemma RollForwardSplits(env: Env, d: Disk, t: Transition, candidates: Pair<Option<Bytes>>, cleanup: bool)
    requires RollForwardGuard(env, d, t, candidates) && BothInstallable(env, d, t, candidates)
    ensures var d' := Replay(d, InstallsPlan(env, d, t, candidates));
      PairProtocol.RollForward(env, d, t, candidates, cleanup)
      == Perform(d', FinishPlan(d', t, cleanup)).After(InstallsPlan(env, d, t, candidates))
  {
    var plan, rest := InstallsPlan(env, d, t, candidates), FinishPlan(d, t, cleanup);
    InstallsPerform(env, d, t, candidates);
    PerformConcat(d, plan, rest);
    Regroup(InstallPlan(env, d, Claude, t, candidates.claude), InstallPlan(env, d, Codex, t, candidates.codex),
            MarkerPlan(d, t), rest);
    assert FinishPlan(Replay(d, plan), t, cleanup) == rest;
  }

  /** The same, as the state a caller that had logged `earlier` before the plan ends in. */
  lemma RollForwardEnds(env: Env, d: Disk, t: Transition, candidates: Pair<Option<Bytes>>, cleanup: bool,
                        earlier: seq<Event>)
    ensures RollForwardGuard(env, d, t, candidates) && BothInstallable(env, d, t, candidates) ==>
      var d' := Replay(d, InstallsPlan(env, d, t, candidates));
      var x := Perform(d', FinishPlan(d', t, cleanup));
      var y := PairProtocol.RollForward(env, d, t, candidates, cleanup);
      && earlier + y.log == earlier + InstallsPlan(env, d, t, candidates) + x.log
      && Replay(d, y.log) == Replay(d', x.log) && (y.Done? <==> x.Done?)
  {
    if RollForwardGuard(env, d, t, candidates) && BothInstallable(env, d, t, candidates) {
      RollForwardSplits(env, d, t, candidates, cleanup);
      var plan := InstallsPlan(env, d, t, candidates);
      var d' := Replay(d, plan);
      Joins(d, plan, Perform(d', FinishPlan(d', t, cleanup)), earlier);
    }
  }

  lemma Joins(d: Disk, plan: seq<Event>, x: Exec<()>, earlier: seq<Event>)
    ensures earlier + x.After(plan).log == earlier + plan + x.log
    ensures Replay(d, x.After(plan).log) == Replay(Replay(d, plan), x.log)
  {
    ReplayConcat(d, plan, x.log);
  }

  /** A candidate that does not match its journaled hash stops the roll-forward before its own write. */
  lemma RollForwardRefuses(env: Env, d: Disk, t: Transition, candidates: Pair<Option<Bytes>>, cleanup: bool)
    ensures RollForwardGuard(env, d, t, candidates) && !BothInstallable(env, d, t, candidates) ==>
            PairProtocol.RollForward(env, d, t, candidates, cleanup) ==
            Stopped(if Installable(env, d, Claude, t, candidates.claude)
                    then InstallPlan(env, d, Claude, t, candidates.claude) else [], StateConflict)
  {
  }

  ghost predicate BothInstallable(env: Env, d: Disk, t: Transition, candidates: Pair<Option<Bytes>>) {
    Installable(env, d, Claude, t, candidates.claude) && Installable(env, d, Codex, t, candidates.codex)
  }
}
