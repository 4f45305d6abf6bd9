/**
 The append-only rollout checker: a loop over the lines of one event log.
 */
module Rollout {
  // Decoding one line (JSON, envelope and field checks) is an oracle; the life of a turn is checked.

  import opened Basics
  import opened Splitting

  type TurnId = string

  datatype Selection = Selection(model: string, effort: string)

  /** One decoded line; `Malformed` covers every check that looks at a single line only. */
  datatype Item =
    | Malformed
    | Aborted
    | Meta(thread: string, session: string, version: string)
    | Started(id: TurnId)
    | Context(id: TurnId, selection: Selection)
    | Completed(id: TurnId)
    | Neutral

  datatype Env = Env(
    decode: Bytes -> Item, sha: Bytes -> Digest, isTurnId: TurnId -> bool, version: string,
    maxBytes: nat, maxEvents: nat, maxLineBytes: nat)

  datatype Witness = Witness(length: nat, digest: Digest)

  datatype Evidence = Evidence(turnId: TurnId, selection: Selection, turnIds: seq<TurnId>, prefix: Witness)

  datatype Reason =
    | InvalidExpectation | TooLarge | NoLineBoundary | PrefixNotPreserved | BadEventCount
    | BadLine | RejectedTransition | MetaNotFirst | AmbiguousMeta | WrongMeta
    | AmbiguousStart | IncompleteTurn | OutsideTurn | ContradictsItself | NonContiguous
    | MetaOmitted | EndsInsideTurn | NoSelection | ListsDisagree | AmbiguousFirstTurn | NotOneTurnMore

  const NEWLINE: byte := 10
  const CARRIAGE_RETURN: byte := 13

  /** `data.split(b"\n")` without the empty piece after the last newline. */
  function Lines(data: Bytes): seq<Bytes> {
    var parts := SplitOn(NEWLINE, data);
    parts[..|parts| - 1]
  }

  function ItemOf(env: Env, line: Bytes): Item {
    var body := if line != [] && line[|line| - 1] == CARRIAGE_RETURN then line[..|line| - 1] else line;
    if CARRIAGE_RETURN in body || body == [] || |body| > env.maxLineBytes then Malformed else env.decode(body)
  }

  function Items(env: Env, lines: seq<Bytes>): seq<Item> {
    seq(|lines|, i requires 0 <= i < |lines| => ItemOf(env, lines[i]))
  }

  datatype State = State(
    selections: map<TurnId, Selection>, distinct: seq<TurnId>, completed: seq<TurnId>, started: set<TurnId>,
    active: Option<TurnId>, contexts: nat, metas: nat)

  const INITIAL := State(map[], [], [], {}, None, 0, 0)

  type Outcome = Result<State, Reason>

  function Step(env: Env, thread: string, s: State, index: nat, item: Item): Outcome {
    if item.Malformed? then Err(BadLine)
    else if index == 0 && !item.Meta? then Err(MetaNotFirst)
    else
      match item
      case Meta(id, session, version) =>
        if s.metas + 1 != 1 || index != 0 then Err(AmbiguousMeta)
        else if id != thread || session != thread || version != env.version then Err(WrongMeta)
        else Ok(s.(metas := s.metas + 1))
      case Aborted => Err(RejectedTransition)
      case Started(id) =>
        if s.active.Some? || id in s.started then Err(AmbiguousStart)
        else Ok(s.(active := Some(id), contexts := 0, started := s.started + {id}))
      case Completed(id) =>
        if s.active != Some(id) || s.contexts < 1 then Err(IncompleteTurn)
        else Ok(s.(completed := s.completed + [id], active := None, contexts := 0))
      case Context(id, selection) => SelectIn(s, id, selection)
      case _ => Ok(s)
  }

  function SelectIn(s: State, id: TurnId, selection: Selection): Outcome {
    if s.active != Some(id) then Err(OutsideTurn)
    else
      var counted := s.(contexts := s.contexts + 1);
      if id in s.selections && s.selections[id] != selection then Err(ContradictsItself)
      else if s.distinct != [] && s.distinct[|s.distinct| - 1] == id then Ok(counted)
      else if id in s.selections then Err(NonContiguous)
      else Ok(counted.(selections := s.selections[id := selection], distinct := s.distinct + [id]))
  }

  /** The state after the first `n` lines. */
  function Run(env: Env, thread: string, items: seq<Item>, n: nat): Outcome
    requires n <= |items|
  {
    if n == 0 then Ok(INITIAL)
    else
      var earlier := Run(env, thread, items, n - 1);
      if earlier.Err? then earlier else Step(env, thread, earlier.value, n - 1, items[n - 1])
  }

  /** The checks after the loop, up to the comparison of both lists of turns. */
  function Close(s: State): Outcome {
    if s.metas != 1 then Err(MetaOmitted)
    else if s.active.Some? then Err(EndsInsideTurn)
    else if s.distinct == [] then Err(NoSelection)
    else if s.distinct != s.completed then Err(ListsDisagree)
    else Ok(s)
  }

  function Scan(env: Env, thread: string, items: seq<Item>): Outcome {
    var r := Run(env, thread, items, |items|);
    if r.Err? then r else Close(r.value)
  }

  /** What a resume must find: the turns accepted before, and the bytes they were read from. */
  datatype Expectation = Expectation(turnIds: seq<TurnId>, prefix: Witness)

  predicate ValidExpectation(env: Env, e: Expectation) {
    && e.turnIds != [] && e.prefix.length > 0
    && (forall i, j | 0 <= i < j < |e.turnIds| :: e.turnIds[i] != e.turnIds[j])
    && forall id | id in e.turnIds :: env.isTurnId(id)
  }

  predicate PrefixPreserved(env: Env, data: Bytes, w: Witness) {
    && 0 < w.length < |data| && data[w.length - 1] == NEWLINE
    && env.sha(data[..w.length]) == w.digest
  }

  /** Everything that is checked before the first line is read. */
  function Refusal(env: Env, data: Bytes, expected: Option<Expectation>): Option<Reason> {
    if expected.Some? && !ValidExpectation(env, expected.value) then Some(InvalidExpectation)
    else if |data| > env.maxBytes then Some(TooLarge)
    else if data == [] || data[|data| - 1] != NEWLINE then Some(NoLineBoundary)
    else if expected.Some? && !PrefixPreserved(env, data, expected.value.prefix) then Some(PrefixNotPreserved)
    else if Lines(data) == [] || |Lines(data)| > env.maxEvents then Some(BadEventCount)
    else None
  }

  function Conclude(env: Env, data: Bytes, s: State, expected: Option<Expectation>): Result<Evidence, Reason> {
    var ids := s.distinct;
    if ids == [] || ids[|ids| - 1] !in s.selections then Err(NoSelection)
    else if expected.None? && |ids| != 1 then Err(AmbiguousFirstTurn)
    else if expected.Some?
            && (|ids| != |expected.value.turnIds| + 1 || ids[..|ids| - 1] != expected.value.turnIds) then
      Err(NotOneTurnMore)
    else
      var last := ids[|ids| - 1];
      Ok(Evidence(last, s.selections[last], ids, Witness(|data|, env.sha(data))))
  }

  function Parse(env: Env, thread: string, data: Bytes, expected: Option<Expectation>): Result<Evidence, Reason> {
    var refusal := Refusal(env, data, expected);
    if refusal.Some? then Err(refusal.value)
    else
      var r := Scan(env, thread, Items(env, Lines(data)));
      if r.Err? then Err(r.error) else Conclude(env, data, r.value, expected)
  }

  // ---- The loop ----

  /** The loop over the lines, with the checks after it up to the comparison of both lists. */
  method ScanLines(env: Env, thread: string, lines: seq<Bytes>) returns (outcome: Outcome)
    ensures outcome == Scan(env, thread, Items(env, lines))
  {
    ghost var items := Items(env, lines);
    var selections: map<TurnId, Selection> := map[];
    var distinct: seq<TurnId>, completed: seq<TurnId>, started: set<TurnId> := [], [], {};
    var active: Option<TurnId> := None;
    var contexts: nat, metas: nat := 0, 0;
    for index := 0 to |lines|
      invariant Run(env, thread, items, index) == Ok(State(selections, distinct, completed, started, active, contexts, metas))
    {
      var item := ItemOf(env, lines[index]);
      RunFails(env, thread, items, index + 1, |lines|);
      ghost var before := State(selections, distinct, completed, started, active, contexts, metas);
      assert Run(env, thread, items, index + 1) == Step(env, thread, before, index, item);
      if item.Malformed? {
        return Err(BadLine);
      }
      if index == 0 && !item.Meta? {
        return Err(MetaNotFirst);
      }
      match item {
        case Meta(id, session, version) =>
          metas := metas + 1;
          if metas != 1 || index != 0 {
            return Err(AmbiguousMeta);
          }
          if id != thread || session != thread || version != env.version {
            return Err(WrongMeta);
          }
        case Aborted =>
          return Err(RejectedTransition);
        case Started(id) =>
          if active.Some? || id in started {
            return Err(AmbiguousStart);
          }
          active, contexts, started := Some(id), 0, started + {id};
        case Completed(id) =>
          if active != Some(id) || contexts < 1 {
            return Err(IncompleteTurn);
          }
          completed, active, contexts := completed + [id], None, 0;
        case Context(id, selection) =>
          if active != Some(id) {
            return Err(OutsideTurn);
          }
          contexts := contexts + 1;
          if id in selections && selections[id] != selection {
            return Err(ContradictsItself);
          }
          if distinct == [] || distinct[|distinct| - 1] != id {
            if id in selections {
              return Err(NonContiguous);
            }
            selections, distinct := selections[id := selection], distinct + [id];
          }
        case _ =>
      }
    }
    return Close(State(selections, distinct, completed, started, active, contexts, metas));
  }

  /** `parse_codex_rollout_selection`. */
  method ParseRolloutSelection(env: Env, thread: string, data: Bytes, expected: Option<Expectation>)
    returns (result: Result<Evidence, Reason>)
    ensures result == Parse(env, thread, data, expected)
  {
    var refusal := Refusal(env, data, expected);
    if refusal.Some? {
      return Err(refusal.value);
    }
    var outcome := ScanLines(env, thread, Lines(data));
    if outcome.Err? {
      return Err(outcome.error);
    }
    return Conclude(env, data, outcome.value, expected);
  }

  /** The first refusal is final. */
  lemma {:induction false} RunFails(env: Env, thread: string, items: seq<Item>, n: nat, m: nat)
    requires n <= m <= |items|
    ensures Run(env, thread, items, n).Err? ==> Run(env, thread, items, m) == Run(env, thread, items, n)
    decreases m
  {
    if n < m {
      RunFails(env, thread, items, n, m - 1);
    }
  }
}
