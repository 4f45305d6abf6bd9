/**
 The two halves of a roll-forward plan: the installing writes, and the finishing ones.
 */
module PairPlans {
  import opened Basics
  import opened PairDisk
  import opened PairProtocol

  ghost function InstallsPlan(env: Env, d: Disk, t: Transition, candidates: Pair<Option<Bytes>>): seq<Event> {
    InstallPlan(env, d, Claude, t, candidates.claude)
    + (InstallPlan(env, d, Codex, t, candidates.codex) + MarkerPlan(d, t))
  }

  ghost function FinishPlan(d: Disk, t: Transition, cleanup: bool): seq<Event> {
    CleanPlan(d, Claude, t, cleanup) + (CleanPlan(d, Codex, t, cleanup) + [DropJournal])
  }

  lemma Regroup(a: seq<Event>, b: seq<Event>, c: seq<Event>, rest: seq<Event>)
    ensures (a + (b + c)) + rest == a + (b + (c + rest))
  {
  }

  /** The three installing writes are always possible and touch no transaction. */
  lemma InstallsPerform(env: Env, d: Disk, t: Transition, candidates: Pair<Option<Bytes>>)
    ensures var plan := InstallsPlan(env, d, t, candidates);
      && Perform(d, plan).Done?
      && Replay(d, plan).Pending(Claude) == d.Pending(Claude) && Replay(d, plan).Pending(Codex) == d.Pending(Codex)
  {
    var w1, w2 := InstallPlan(env, d, Claude, t, candidates.claude), InstallPlan(env, d, Codex, t, candidates.codex);
    var w3 := MarkerPlan(d, t);
    var d1 := Stepped(d, w1);
    var d2 := Stepped(d1, w2);
    var d3 := Stepped(d2, w3);
    InstallsOne(d, w1);
    InstallsOne(d1, w2);
    InstallsOne(d2, w3);
    PerformThree(d, w1, d1, w2, d2, w3, d3);
  }

  function Stepped(d: Disk, part: seq<Event>): Disk {
    if part == [] then d else Apply(d, part[0])
  }

  /** A durable or the marker can always be written, and no transaction notices. */
  lemma InstallsOne(d: Disk, part: seq<Event>)
    requires |part| <= 1 && forall e | e in part :: e.PutDurable? || e.PutMarker?
    ensures OneStep(d, part, Stepped(d, part))
    ensures Stepped(d, part).Pending(Claude) == d.Pending(Claude) && Stepped(d, part).Pending(Codex) == d.Pending(Codex)
  {
    if part != [] { assert part[0] in part; }
  }

  /** The finishing writes are possible when each vendor's transaction is the journaled one, or gone. */
  lemma FinishPerforms(d: Disk, t: Transition)
    requires d.Pending(Codex).Keys == {} || d.Pending(Codex).Keys == {t.runs.codex}
    requires d.Pending(Claude).Keys == {} || d.Pending(Claude).Keys == {t.runs.claude}
    ensures Perform(d, FinishPlan(d, t, true)).Done?
  {
    var claude, codex := CleanPlan(d, Claude, t, true), CleanPlan(d, Codex, t, true);
    var d1 := if claude == [] then d else Apply(d, claude[0]);
    var d2 := if codex == [] then d1 else Apply(d1, codex[0]);
    PerformThree(d, claude, d1, codex, d2, [DropJournal], Apply(d2, DropJournal));
  }
}
