/** A resumed log keeps all that was accepted before. */
module RolloutResume {
  import opened Basics
  import opened Splitting
  import opened Rollout
  import opened RolloutLaws

  predicate EndsLine(data: Bytes) {
    data != [] && data[|data| - 1] == NEWLINE
  }

  lemma LinesOfExtension(env: Env, first: Bytes, rest: Bytes)
    requires EndsLine(first)
    ensures Items(env, Lines(first + rest)) == Items(env, Lines(first)) + Items(env, Lines(rest))
  {
    var a := first[..|first| - 1];
    assert first + rest == a + [NEWLINE] + rest && first == a + [NEWLINE] + [];
    SplitConcat(NEWLINE, a, rest);
    SplitConcat(NEWLINE, a, []);
    assert SplitOn(NEWLINE, []) == [[]];
    assert Lines(first) == SplitOn(NEWLINE, a);
    assert Lines(first + rest) == Lines(first) + Lines(rest);
  }

  /** The turns that a log, accepted without being refused first, consists of. */
  predicate Tells(env: Env, thread: string, data: Bytes, turns: seq<Turn>) {
    IsRollout(env, thread, Items(env, Lines(data)), turns)
  }

  /** How the turns must relate to what was accepted before. */
  predicate Advances(turns: seq<Turn>, expected: Option<Expectation>) {
    if expected.None? then |turns| == 1
    else |turns| == |expected.value.turnIds| + 1 && Ids(turns)[..|turns| - 1] == expected.value.turnIds
  }

  function EvidenceOf(env: Env, data: Bytes, turns: seq<Turn>): Evidence
    requires turns != []
  {
    var last := turns[|turns| - 1];
    Evidence(last.id, last.selection, Ids(turns), Witness(|data|, env.sha(data)))
  }

  lemma ConcludesWith(env: Env, data: Bytes, turns: seq<Turn>, expected: Option<Expectation>)
    requires turns != [] && DistinctTurns(turns)
    ensures Conclude(env, data, StateOf(History(turns, Closed)), expected) ==
            if Advances(turns, expected) then Ok(EvidenceOf(env, data, turns))
            else if expected.None? then Err(AmbiguousFirstTurn) else Err(NotOneTurnMore)
  {
    SelectionsKeys(turns);
    var last := turns[|turns| - 1];
    assert last in turns;
  }

  lemma AcceptedTells(env: Env, thread: string, data: Bytes, expected: Option<Expectation>) returns (turns: seq<Turn>)
    requires Parse(env, thread, data, expected).Ok?
    ensures Tells(env, thread, data, turns) && Advances(turns, expected)
    ensures Parse(env, thread, data, expected) == Ok(EvidenceOf(env, data, turns))
  {
    turns := AcceptedIsRollout(env, thread, Items(env, Lines(data)));
    ConcludesWith(env, data, turns, expected);
  }

  /** Which byte strings are accepted, and with which evidence. */
  lemma ParseAcceptsExactly(env: Env, thread: string, data: Bytes, expected: Option<Expectation>, turns: seq<Turn>)
    ensures Refusal(env, data, expected).None? && Tells(env, thread, data, turns) && Advances(turns, expected) ==>
              Parse(env, thread, data, expected) == Ok(EvidenceOf(env, data, turns))
    ensures Parse(env, thread, data, expected).Ok? ==>
              && Refusal(env, data, expected).None?
              && exists told :: Tells(env, thread, data, told) && Advances(told, expected)
  {
    if Refusal(env, data, expected).None? && Tells(env, thread, data, turns) {
      RolloutIsAccepted(env, thread, Items(env, Lines(data)), turns);
      ConcludesWith(env, data, turns, expected);
    }
    if Parse(env, thread, data, expected).Ok? {
      var told := AcceptedTells(env, thread, data, expected);
    }
  }

  function After(e: Evidence): Expectation {
    Expectation(e.turnIds, e.prefix)
  }

  /** The one pair of byte strings whose digests the prefix check compares. */
  predicate NoCollision(env: Env, first: Bytes, second: Bytes) {
    |first| <= |second| && env.sha(second[..|first|]) == env.sha(first) ==> second[..|first|] == first
  }

  /** What the whole log says after its metadata is what its first lines say, then the rest. */
  lemma {:induction false} TurnsLogGrows(env: Env, thread: string, a: seq<Item>, rest: seq<Item>, before: seq<Turn>, after: seq<Turn>)
    requires IsRollout(env, thread, a, before) && IsRollout(env, thread, a + rest, after)
    ensures TurnsLog(after) == TurnsLog(before) + Significant(rest)
  {
    SignificantConcat(a[1..], rest);
    assert a[1..] + rest == (a + rest)[1..];
  }

  /** After its first lines the log has been read as the turns these tell. */
  lemma {:induction false} FirstLinesRead(env: Env, thread: string, a: seq<Item>, rest: seq<Item>, before: seq<Turn>)
    requires IsRollout(env, thread, a, before)
    ensures Reads(env, thread, a + rest, |a|, History(before, Closed))
  {
    RolloutIsAccepted(env, thread, a, before);
    RunDependsOnPrefix(env, thread, a, a + rest, |a|);
  }

  lemma {:induction false} ClosedLog(turns: seq<Turn>)
    ensures Log(History(turns, Closed)) == TurnsLog(turns)
  {
  }

  lemma {:induction false} MoreLinesMoreTurns(env: Env, thread: string, a: seq<Item>, rest: seq<Item>, before: seq<Turn>, after: seq<Turn>)
    requires IsRollout(env, thread, a, before) && IsRollout(env, thread, a + rest, after)
    ensures before <= after
  {
    FirstLinesRead(env, thread, a, rest, before);
    RolloutIsAccepted(env, thread, a + rest, after);
    var next := RunGrows(env, thread, a + rest, |a|, |a + rest|, History(before, Closed));
    assert (a + rest)[|a|..|a + rest|] == rest;
    TurnsLogGrows(env, thread, a, rest, before, after);
    ClosedLog(before);
    ClosedLog(after);
    LogIsInjective(next, History(after, Closed));
  }

  /** A log of more lines tells the turns of its first lines again. */
  lemma LongerLogTellsMore(env: Env, thread: string, first: Bytes, second: Bytes, before: seq<Turn>, after: seq<Turn>)
    requires EndsLine(first) && first <= second
    requires Tells(env, thread, first, before) && Tells(env, thread, second, after)
    ensures before <= after
  {
    assert second == first + second[|first|..];
    LinesOfExtension(env, first, second[|first|..]);
    MoreLinesMoreTurns(env, thread, Items(env, Lines(first)), Items(env, Lines(second[|first|..])), before, after);
  }

  lemma {:induction false} RunDependsOnPrefix(env: Env, thread: string, a: seq<Item>, b: seq<Item>, n: nat)
    requires a <= b && n <= |a|
    ensures Run(env, thread, a, n) == Run(env, thread, b, n)
  {
    if n > 0 {
      RunDependsOnPrefix(env, thread, a, b, n - 1);
    }
  }

  lemma {:induction false} SignificantConcat(a: seq<Item>, b: seq<Item>)
    ensures Significant(a + b) == Significant(a) + Significant(b)
    decreases |b|
  {
    if b == [] {
      assert a + b == a;
    } else {
      assert (a + b)[..|a + b| - 1] == a + b[..|b| - 1];
      SignificantConcat(a, b[..|b| - 1]);
    }
  }

  /** A log tells one series of turns only. */
  lemma TellsOnce(env: Env, thread: string, data: Bytes, a: seq<Turn>, b: seq<Turn>)
    requires Tells(env, thread, data, a) && Tells(env, thread, data, b)
    ensures a == b
  {
    assert Log(History(a, Closed)) == TurnsLog(a) && Log(History(b, Closed)) == TurnsLog(b);
    LogIsInjective(History(a, Closed), History(b, Closed));
  }

  /** An accepted resume begins with the log accepted before. */
  lemma {:induction false} ResumeKeepsBytes(env: Env, thread: string, first: Bytes, second: Bytes, expected: Option<Expectation>)
    requires Parse(env, thread, first, expected).Ok?
    requires Parse(env, thread, first, expected).value.prefix == Witness(|first|, env.sha(first))
    requires Parse(env, thread, second, Some(After(Parse(env, thread, first, expected).value))).Ok?
    requires NoCollision(env, first, second)
    ensures EndsLine(first) && first < second
  {
  }

  lemma OneMore(before: seq<Turn>, after: seq<Turn>)
    requires before <= after && |after| == |before| + 1
    ensures after == before + [after[|before|]] && Ids(after) == Ids(before) + [after[|before|].id]
  {
  }

  /** Resuming only extends: the old log is a byte prefix, old turns are kept, one turn is added. */
  lemma {:induction false} ResumeExtendsHistory(env: Env, thread: string, first: Bytes, second: Bytes,
                             expected: Option<Expectation>, before: seq<Turn>) returns (added: Turn)
    requires Parse(env, thread, first, expected).Ok? && Tells(env, thread, first, before)
    requires Parse(env, thread, second, Some(After(Parse(env, thread, first, expected).value))).Ok?
    requires NoCollision(env, first, second)
    ensures first < second
    ensures Tells(env, thread, second, before + [added])
    ensures var e := Parse(env, thread, second, Some(After(Parse(env, thread, first, expected).value))).value;
      e.turnIds == Ids(before) + [added.id] && e.selection == added.selection
  {
    var told := AcceptedTells(env, thread, first, expected);
    TellsOnce(env, thread, first, told, before);
    ResumeKeepsBytes(env, thread, first, second, expected);
    var after := AcceptedTells(env, thread, second, Some(After(Parse(env, thread, first, expected).value)));
    LongerLogTellsMore(env, thread, first, second, before, after);
    OneMore(before, after);
    added := after[|before|];
  }

  // ---- A whole series of resumes ----

  function Expected(accepted: seq<Evidence>, i: nat): Option<Expectation>
    requires i <= |accepted|
  {
    if i == 0 then None else Some(After(accepted[i - 1]))
  }

  predicate AcceptedAt(env: Env, thread: string, logs: seq<Bytes>, accepted: seq<Evidence>, i: nat)
    requires i < |logs| == |accepted|
  {
    Parse(env, thread, logs[i], Expected(accepted, i)) == Ok(accepted[i])
  }

  /** `logs[0]` is accepted as a first turn and every later log as a resume of the one before. */
  predicate Series(env: Env, thread: string, logs: seq<Bytes>, accepted: seq<Evidence>) {
    |accepted| == |logs| && forall i | 0 <= i < |logs| :: AcceptedAt(env, thread, logs, accepted, i)
  }

  /** Every log up to the `k`th is a prefix of it, and tells its first turns. */
  predicate Kept(env: Env, thread: string, logs: seq<Bytes>, k: nat, turns: seq<Turn>)
    requires k < |logs|
  {
    |turns| == k + 1 && forall j | 0 <= j <= k :: logs[j] <= logs[k] && Tells(env, thread, logs[j], turns[..j + 1])
  }

  lemma {:induction false} EarlierStaysKept(env: Env, thread: string, logs: seq<Bytes>, k: nat, earlier: seq<Turn>, added: Turn, j: nat)
    requires 0 < k < |logs| && Kept(env, thread, logs, k - 1, earlier) && j < k
    ensures logs[j] <= logs[k - 1] && Tells(env, thread, logs[j], (earlier + [added])[..j + 1])
  {
    assert (earlier + [added])[..j + 1] == earlier[..j + 1];
  }

  lemma {:induction false} KeptOnceMore(env: Env, thread: string, logs: seq<Bytes>, k: nat, earlier: seq<Turn>, added: Turn)
    requires 0 < k < |logs| && Kept(env, thread, logs, k - 1, earlier)
    requires logs[k - 1] <= logs[k] && Tells(env, thread, logs[k], earlier + [added])
    ensures Kept(env, thread, logs, k, earlier + [added])
  {
    var turns := earlier + [added];
    assert turns[..k + 1] == turns;
    forall j | 0 <= j < k ensures logs[j] <= logs[k] && Tells(env, thread, logs[j], turns[..j + 1]) {
      EarlierStaysKept(env, thread, logs, k, earlier, added, j);
    }
  }

  lemma {:induction false} OneMoreTurn(env: Env, thread: string, logs: seq<Bytes>, accepted: seq<Evidence>, k: nat, earlier: seq<Turn>)
    returns (added: Turn)
    requires 0 < k < |logs| == |accepted|
    requires AcceptedAt(env, thread, logs, accepted, k - 1) && AcceptedAt(env, thread, logs, accepted, k)
    requires NoCollision(env, logs[k - 1], logs[k]) && Tells(env, thread, logs[k - 1], earlier)
    ensures logs[k - 1] <= logs[k] && Tells(env, thread, logs[k], earlier + [added])
    ensures accepted[k].turnIds == Ids(earlier + [added])
  {
    added := ResumeExtendsHistory(env, thread, logs[k - 1], logs[k], Expected(accepted, k - 1), earlier);
    assert Ids(earlier + [added]) == Ids(earlier) + [added.id];
  }

  lemma {:induction false} NextTurn(env: Env, thread: string, logs: seq<Bytes>, accepted: seq<Evidence>, k: nat, earlier: seq<Turn>)
    returns (turns: seq<Turn>)
    requires Series(env, thread, logs, accepted) && 0 < k < |logs| && Kept(env, thread, logs, k - 1, earlier)
    requires NoCollision(env, logs[k - 1], logs[k])
    ensures Kept(env, thread, logs, k, turns) && accepted[k].turnIds == Ids(turns)
  {
    assert AcceptedAt(env, thread, logs, accepted, k - 1) && AcceptedAt(env, thread, logs, accepted, k);
    assert Tells(env, thread, logs[k - 1], earlier) by {
      assert earlier[..k - 1 + 1] == earlier;
    }
    var added := OneMoreTurn(env, thread, logs, accepted, k, earlier);
    KeptOnceMore(env, thread, logs, k, earlier, added);
    turns := earlier + [added];
  }

  lemma FirstTurn(env: Env, thread: string, logs: seq<Bytes>, accepted: seq<Evidence>) returns (turns: seq<Turn>)
    requires 0 < |logs| == |accepted| && AcceptedAt(env, thread, logs, accepted, 0)
    ensures Kept(env, thread, logs, 0, turns) && accepted[0].turnIds == Ids(turns)
  {
    turns := AcceptedTells(env, thread, logs[0], None);
    assert turns[..1] == turns;
  }

  predicate NoCollisionAt(env: Env, logs: seq<Bytes>, i: nat)
    requires 0 < i < |logs|
  {
    NoCollision(env, logs[i - 1], logs[i])
  }

  /** `k` resumes give `k + 1` turns; every earlier log is a prefix and every earlier turn is kept. */
  lemma {:induction false} SeriesCountsTurns(env: Env, thread: string, logs: seq<Bytes>, accepted: seq<Evidence>, k: nat)
    returns (turns: seq<Turn>)
    requires Series(env, thread, logs, accepted) && k < |logs|
    requires forall i | 0 < i < |logs| :: NoCollisionAt(env, logs, i)
    ensures Kept(env, thread, logs, k, turns) && accepted[k].turnIds == Ids(turns)
  {
    assert AcceptedAt(env, thread, logs, accepted, k);
    if k == 0 {
      turns := FirstTurn(env, thread, logs, accepted);
    } else {
      var earlier := SeriesCountsTurns(env, thread, logs, accepted, k - 1);
      assert NoCollisionAt(env, logs, k);
      turns := NextTurn(env, thread, logs, accepted, k, earlier);
    }
  }
}
