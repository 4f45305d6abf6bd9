/** Which logs the rollout checker accepts, and what a resumed log must preserve. */
module RolloutLaws {
  import opened Basics
  import opened Splitting
  import opened Rollout

  /** One complete turn: started, selected at least once, always the same way, completed. */
  datatype Turn = Turn(id: TurnId, selection: Selection, contexts: nat)

  datatype Progress =
    | Closed
    | Opened(id: TurnId)
    | Selecting(id: TurnId, selection: Selection, contexts: nat)

  /** What a log says so far: complete turns, then perhaps the beginning of one more. */
  datatype History = History(turns: seq<Turn>, open: Progress)

  function Ids(turns: seq<Turn>): (ids: seq<TurnId>)
    ensures |ids| == |turns|
  {
    seq(|turns|, i requires 0 <= i < |turns| => turns[i].id)
  }

  predicate DistinctTurns(turns: seq<Turn>) {
    && (forall t | t in turns :: t.contexts >= 1)
    && forall i, j | 0 <= i < j < |turns| :: turns[i].id != turns[j].id
  }

  predicate Valid(h: History) {
    && DistinctTurns(h.turns)
    && (h.open.Closed? || h.open.id !in Ids(h.turns))
    && (h.open.Selecting? ==> h.open.contexts >= 1)
  }

  // ---- The lines a history stands for ----

  function Copies(item: Item, n: nat): seq<Item> {
    if n == 0 then [] else Copies(item, n - 1) + [item]
  }

  function TurnLog(t: Turn): seq<Item> {
    [Started(t.id)] + Copies(Context(t.id, t.selection), t.contexts) + [Completed(t.id)]
  }

  function TurnsLog(turns: seq<Turn>): seq<Item> {
    if turns == [] then [] else TurnsLog(turns[..|turns| - 1]) + TurnLog(turns[|turns| - 1])
  }

  function OpenLog(open: Progress): seq<Item> {
    match open
    case Closed => []
    case Opened(id) => [Started(id)]
    case Selecting(id, selection, n) => [Started(id)] + Copies(Context(id, selection), n)
  }

  function Log(h: History): seq<Item> {
    TurnsLog(h.turns) + OpenLog(h.open)
  }

  /** Lines that say nothing about a turn are skipped. */
  function Significant(items: seq<Item>): seq<Item> {
    if items == [] then []
    else
      var init, last := Significant(items[..|items| - 1]), items[|items| - 1];
      if last.Neutral? then init else init + [last]
  }

  // ---- The parser's variables after a history ----

  function Selections(turns: seq<Turn>): map<TurnId, Selection> {
    if turns == [] then map[]
    else Selections(turns[..|turns| - 1])[turns[|turns| - 1].id := turns[|turns| - 1].selection]
  }

  function IdSet(turns: seq<Turn>): set<TurnId> {
    set id | id in Ids(turns)
  }

  function StateOf(h: History): State {
    var ids, chosen := Ids(h.turns), Selections(h.turns);
    match h.open
    case Closed => State(chosen, ids, ids, IdSet(h.turns), None, 0, 1)
    case Opened(id) => State(chosen, ids, ids, IdSet(h.turns) + {id}, Some(id), 0, 1)
    case Selecting(id, selection, n) =>
      State(chosen[id := selection], ids + [id], ids, IdSet(h.turns) + {id}, Some(id), n, 1)
  }

  lemma {:induction false} SelectionsKeys(turns: seq<Turn>)
    ensures Selections(turns).Keys == IdSet(turns)
    ensures DistinctTurns(turns) ==> forall t | t in turns :: t.id in Selections(turns) && Selections(turns)[t.id] == t.selection
  {
    if turns != [] {
      var init, t := turns[..|turns| - 1], turns[|turns| - 1];
      SelectionsKeys(init);
      assert turns == init + [t];
      assert Ids(turns) == Ids(init) + [t.id];
      if DistinctTurns(turns) {
        LastIsNew(turns);
      }
    }
  }

  lemma LastIsNew(turns: seq<Turn>)
    requires turns != [] && DistinctTurns(turns)
    ensures DistinctTurns(turns[..|turns| - 1])
    ensures forall u | u in turns[..|turns| - 1] :: u.id != turns[|turns| - 1].id
  {
    var init, t := turns[..|turns| - 1], turns[|turns| - 1];
    forall u | u in init ensures u.id != t.id {
      var i :| 0 <= i < |init| && init[i] == u;
      assert turns[i] == u && turns[|init|] == t;
    }
  }

  // ---- One line, one step of history ----

  /** The history one significant line earlier. */
  function Undo(h: History): History
    requires Valid(h) && Log(h) != []
  {
    match h.open
    case Selecting(id, selection, n) =>
      if n == 1 then h.(open := Opened(id)) else h.(open := Selecting(id, selection, n - 1))
    case Opened(id) => h.(open := Closed)
    case Closed =>
      var t := h.turns[|h.turns| - 1];
      History(h.turns[..|h.turns| - 1], Selecting(t.id, t.selection, t.contexts))
  }

  function LastItem(h: History): Item
    requires Valid(h) && Log(h) != []
  {
    match h.open
    case Selecting(id, selection, n) => Context(id, selection)
    case Opened(id) => Started(id)
    case Closed => Completed(h.turns[|h.turns| - 1].id)
  }

  lemma UndoIsEarlier(h: History)
    requires Valid(h) && Log(h) != []
    ensures Valid(Undo(h)) && Log(h) == Log(Undo(h)) + [LastItem(h)]
  {
    match h.open
    case Closed =>
      var n := |h.turns| - 1;
      var init, t := h.turns[..n], h.turns[n];
      TurnsApart(init, t, h.turns);
      assert TurnLog(t) == OpenLog(Undo(h).open) + [Completed(t.id)];
      assert Log(h) == TurnsLog(init) + TurnLog(t);
    case Opened(id) =>
    case Selecting(id, selection, n) =>
      SelectedLog(id, selection, n - 1);
  }

  lemma SelectedLog(id: TurnId, selection: Selection, n: nat)
    ensures OpenLog(Selecting(id, selection, n + 1)) ==
            OpenLog(if n == 0 then Opened(id) else Selecting(id, selection, n)) + [Context(id, selection)]
  {
    var item := Context(id, selection);
    assert Copies(item, 0) == [] && Copies(item, n + 1) == Copies(item, n) + [item];
  }

  lemma TurnsApart(init: seq<Turn>, t: Turn, turns: seq<Turn>)
    requires turns == init + [t] && DistinctTurns(turns)
    ensures DistinctTurns(init) && t.contexts >= 1 && t.id !in Ids(init) && Ids(turns) == Ids(init) + [t.id]
  {
    assert turns[|init|] == t;
    forall i | 0 <= i < |init| ensures Ids(init)[i] != t.id && turns[i] == init[i] {
      assert turns[i].id != turns[|init|].id;
    }
    forall u | u in init ensures u in turns {
    }
  }

  function Select(h: History, selection: Selection): History
    requires !h.open.Closed?
  {
    h.(open := Selecting(h.open.id, selection, if h.open.Selecting? then h.open.contexts + 1 else 1))
  }

  function Complete(h: History): History
    requires h.open.Selecting?
  {
    History(h.turns + [Turn(h.open.id, h.open.selection, h.open.contexts)], Closed)
  }

  lemma FirstSelection(env: Env, thread: string, h: History, index: nat, selection: Selection)
    requires Valid(h) && index > 0 && h.open.Opened?
    ensures Step(env, thread, StateOf(h), index, Context(h.open.id, selection)) == Ok(StateOf(Select(h, selection)))
  {
    SelectionsKeys(h.turns);
    var s := StateOf(h);
    if s.distinct != [] {
      assert s.distinct[|s.distinct| - 1] in Ids(h.turns);
    }
  }

  /** A further selection of the open turn is accepted when it repeats the first. */
  lemma StepSelects(env: Env, thread: string, h: History, index: nat, selection: Selection)
    requires Valid(h) && index > 0 && !h.open.Closed?
    requires h.open.Selecting? ==> h.open.selection == selection
    ensures Step(env, thread, StateOf(h), index, Context(h.open.id, selection)) == Ok(StateOf(Select(h, selection)))
  {
    if h.open.Opened? {
      FirstSelection(env, thread, h, index, selection);
    }
  }

  lemma {:induction false} SelectLogs(h: History, selection: Selection)
    requires Valid(h) && !h.open.Closed?
    requires h.open.Selecting? ==> h.open.selection == selection
    ensures Valid(Select(h, selection)) && Log(Select(h, selection)) == Log(h) + [Context(h.open.id, selection)]
  {
    SelectedLog(h.open.id, selection, if h.open.Selecting? then h.open.contexts else 0);
  }

  lemma StepCompletes(env: Env, thread: string, h: History, index: nat)
    requires Valid(h) && index > 0 && h.open.Selecting?
    ensures Step(env, thread, StateOf(h), index, Completed(h.open.id)) == Ok(StateOf(Complete(h)))
    ensures Valid(Complete(h)) && Log(Complete(h)) == Log(h) + [Completed(h.open.id)]
  {
    var turns := Complete(h).turns;
    assert turns[..|turns| - 1] == h.turns;
    assert Ids(turns) == Ids(h.turns) + [h.open.id];
    assert IdSet(turns) == IdSet(h.turns) + {h.open.id};
    forall i | 0 <= i < |h.turns| ensures turns[i].id != h.open.id {
      assert Ids(h.turns)[i] in Ids(h.turns);
    }
  }

  lemma CompleteAfterUndo(h: History)
    requires Valid(h) && Log(h) != [] && h.open.Closed?
    ensures Undo(h).open.Selecting? && Complete(Undo(h)) == h && LastItem(h) == Completed(Undo(h).open.id)
  {
  }

  lemma StepAfterUndo(env: Env, thread: string, h: History, index: nat)
    requires Valid(h) && Log(h) != [] && index > 0
    ensures Step(env, thread, StateOf(Undo(h)), index, LastItem(h)) == Ok(StateOf(h))
  {
    UndoIsEarlier(h);
    match h.open
    case Closed =>
      CompleteAfterUndo(h);
      StepCompletes(env, thread, Undo(h), index);
    case Opened(id) =>
    case Selecting(id, selection, n) =>
      StepSelects(env, thread, Undo(h), index, selection);
  }

  /** The history after one accepted line. */
  function Extend(h: History, item: Item): History
    requires item.Context? ==> !h.open.Closed?
    requires item.Completed? ==> h.open.Selecting?
  {
    match item
    case Started(id) => h.(open := Opened(id))
    case Context(_, selection) => Select(h, selection)
    case Completed(_) => Complete(h)
    case _ => h
  }

  lemma StepExtends(env: Env, thread: string, h: History, index: nat, item: Item)
    requires Valid(h) && index > 0 && Step(env, thread, StateOf(h), index, item).Ok?
    ensures item.Context? ==> !h.open.Closed?
    ensures item.Completed? ==> h.open.Selecting?
    ensures var next := Extend(h, item);
      && Valid(next) && Step(env, thread, StateOf(h), index, item).value == StateOf(next)
      && Log(next) == Log(h) + (if item.Neutral? then [] else [item]) && h.turns <= next.turns
  {
    match item {
      case Context(id, selection) =>
        SelectionsKeys(h.turns);
        StepSelects(env, thread, h, index, selection);
        SelectLogs(h, selection);
      case Completed(id) =>
        StepCompletes(env, thread, h, index);
      case _ =>
    }
  }

  // ---- Whole logs ----

  predicate GoodMeta(env: Env, thread: string, item: Item) {
    item == Meta(thread, thread, env.version)
  }

  const EMPTY := History([], Closed)

  lemma SignificantStep(items: seq<Item>, from: nat, n: nat)
    requires from <= n < |items|
    ensures Significant(items[from..n + 1]) ==
            Significant(items[from..n]) + (if items[n].Neutral? then [] else [items[n]])
  {
    assert items[from..n + 1][..n - from] == items[from..n];
  }

  lemma RunOne(env: Env, thread: string, items: seq<Item>)
    requires items != []
    ensures Run(env, thread, items, 1).Ok? <==> GoodMeta(env, thread, items[0])
    ensures Run(env, thread, items, 1).Ok? ==> Run(env, thread, items, 1) == Ok(StateOf(EMPTY))
  {
    assert Run(env, thread, items, 0) == Ok(INITIAL);
    assert Ids([]) == [] && IdSet([]) == {};
  }

  /** `h` is what the first `n` lines say, and what the parser's variables hold after them. */
  ghost predicate Reads(env: Env, thread: string, items: seq<Item>, n: nat, h: History) {
    n <= |items| && Valid(h) && Run(env, thread, items, n) == Ok(StateOf(h))
  }

  ghost predicate Accepts(env: Env, thread: string, items: seq<Item>, n: nat) {
    n <= |items| && Run(env, thread, items, n).Ok?
  }

  lemma {:induction false} AcceptsEarlier(env: Env, thread: string, items: seq<Item>, n: nat)
    requires n > 0 && Accepts(env, thread, items, n)
    ensures Accepts(env, thread, items, n - 1)
  {
  }

  ghost predicate Grows(h: History, added: seq<Item>, next: History) {
    h.turns <= next.turns && Log(next) == Log(h) + added
  }

  lemma GrowsOn(h: History, a: seq<Item>, m: History, b: seq<Item>, next: History)
    requires Grows(h, a, m) && Grows(m, b, next)
    ensures Grows(h, a + b, next)
  {
    assert Log(h) + a + b == Log(h) + (a + b);
    assert h.turns <= next.turns;
  }

  lemma RunStep(env: Env, thread: string, items: seq<Item>, n: nat, h: History) returns (next: History)
    requires 1 <= n < |items| && Reads(env, thread, items, n, h) && Run(env, thread, items, n + 1).Ok?
    ensures Reads(env, thread, items, n + 1, next)
    ensures Grows(h, if items[n].Neutral? then [] else [items[n]], next)
  {
    StepExtends(env, thread, h, n, items[n]);
    next := Extend(h, items[n]);
    assert Run(env, thread, items, n + 1) == Ok(StateOf(next));
  }

  lemma {:induction false} RunGrowsStep(env: Env, thread: string, items: seq<Item>, n: nat, m: nat, h: History, earlier: History)
    returns (next: History)
    requires 1 <= n <= m < |items| && Accepts(env, thread, items, m + 1)
    requires Reads(env, thread, items, m, earlier) && Grows(h, Significant(items[n..m]), earlier)
    ensures Reads(env, thread, items, m + 1, next) && Grows(h, Significant(items[n..m + 1]), next)
  {
    next := RunStep(env, thread, items, m, earlier);
    SignificantStep(items, n, m);
    GrowsOn(h, Significant(items[n..m]), earlier, if items[m].Neutral? then [] else [items[m]], next);
  }

  lemma {:induction false} GrowsByNothing(h: History, items: seq<Item>, n: nat)
    requires n <= |items|
    ensures Grows(h, Significant(items[n..n]), h)
  {
    assert items[n..n] == [];
  }

  /** Reading further lines only extends the history. */
  lemma {:induction false} RunGrows(env: Env, thread: string, items: seq<Item>, n: nat, m: nat, h: History)
    returns (next: History)
    requires 1 <= n <= m <= |items| && Reads(env, thread, items, n, h) && Accepts(env, thread, items, m)
    ensures Reads(env, thread, items, m, next) && Grows(h, Significant(items[n..m]), next)
    decreases m
  {
    if n == m {
      next := h;
      GrowsByNothing(h, items, n);
    } else {
      AcceptsEarlier(env, thread, items, m);
      var earlier := RunGrows(env, thread, items, n, m - 1, h);
      next := RunGrowsStep(env, thread, items, n, m - 1, h, earlier);
    }
  }

  lemma SameLast(a: seq<Item>, x: Item, b: seq<Item>, y: Item)
    requires a + [x] == b + [y]
    ensures a == b && x == y
  {
    assert (a + [x])[..|a|] == a && (b + [y])[..|b|] == b;
    assert (a + [x])[|a|] == x && (b + [y])[|b|] == y;
  }

  /** A log whose last line matters stands for a history whose last line that is. */
  lemma {:induction false} LastLineUndone(items: seq<Item>, n: nat, h: History)
    requires 1 < n <= |items| && Valid(h) && Significant(items[1..n]) == Log(h) && !items[n - 1].Neutral?
    ensures Log(h) != [] && LastItem(h) == items[n - 1]
    ensures Valid(Undo(h)) && Significant(items[1..n - 1]) == Log(Undo(h))
  {
    SignificantStep(items, 1, n - 1);
    UndoIsEarlier(h);
    SameLast(Significant(items[1..n - 1]), items[n - 1], Log(Undo(h)), LastItem(h));
  }

  lemma {:induction false} LineRuns(env: Env, thread: string, items: seq<Item>, n: nat, earlier: State, next: State)
    requires 1 < n <= |items| && Run(env, thread, items, n - 1) == Ok(earlier)
    requires Step(env, thread, earlier, n - 1, items[n - 1]) == Ok(next)
    ensures Run(env, thread, items, n) == Ok(next)
  {
  }

  lemma {:induction false} FirstLineRuns(env: Env, thread: string, items: seq<Item>, h: History)
    requires 1 <= |items| && GoodMeta(env, thread, items[0]) && Valid(h) && Log(h) == []
    ensures Run(env, thread, items, 1) == Ok(StateOf(h))
  {
    RunOne(env, thread, items);
    NoLinesNoHistory(h);
  }

  /** A log that reads like a valid history leaves the variables of that history behind. */
  lemma {:induction false} HistoryRuns(env: Env, thread: string, items: seq<Item>, n: nat, h: History)
    requires 1 <= n <= |items| && GoodMeta(env, thread, items[0]) && Valid(h)
    requires Significant(items[1..n]) == Log(h)
    ensures Run(env, thread, items, n) == Ok(StateOf(h))
    decreases n
  {
    if n == 1 {
      FirstLineRuns(env, thread, items, h);
    } else if items[n - 1].Neutral? {
      SignificantStep(items, 1, n - 1);
      HistoryRuns(env, thread, items, n - 1, h);
      LineRuns(env, thread, items, n, StateOf(h), StateOf(h));
    } else {
      LastLineUndone(items, n, h);
      HistoryRuns(env, thread, items, n - 1, Undo(h));
      StepAfterUndo(env, thread, h, n - 1);
      LineRuns(env, thread, items, n, StateOf(Undo(h)), StateOf(h));
    }
  }

  /** A log stands for one history only. */
  lemma {:induction false} LogIsInjective(h: History, k: History)
    requires Valid(h) && Valid(k) && Log(h) == Log(k)
    ensures h == k
    decreases |Log(h)|
  {
    if Log(h) == [] {
      NoLinesNoHistory(h);
      NoLinesNoHistory(k);
    } else {
      UndoIsEarlier(h);
      UndoIsEarlier(k);
      SameLast(Log(Undo(h)), LastItem(h), Log(Undo(k)), LastItem(k));
      LogIsInjective(Undo(h), Undo(k));
      Redo(h);
      Redo(k);
    }
  }

  lemma NoLinesNoHistory(h: History)
    requires Valid(h) && Log(h) == []
    ensures h == EMPTY
  {
  }

  lemma Redo(h: History)
    requires Valid(h) && Log(h) != []
    ensures LastItem(h).Context? ==> !Undo(h).open.Closed?
    ensures LastItem(h).Completed? ==> Undo(h).open.Selecting?
    ensures Extend(Undo(h), LastItem(h)) == h
  {
  }

  /** The grammar of accepted logs: metadata, then disjoint complete turns of one selection each. */
  predicate IsRollout(env: Env, thread: string, items: seq<Item>, turns: seq<Turn>) {
    && items != [] && GoodMeta(env, thread, items[0])
    && turns != [] && DistinctTurns(turns) && Significant(items[1..]) == TurnsLog(turns)
  }

  lemma RolloutIsAccepted(env: Env, thread: string, items: seq<Item>, turns: seq<Turn>)
    requires IsRollout(env, thread, items, turns)
    ensures Scan(env, thread, items) == Ok(StateOf(History(turns, Closed)))
  {
    var h := History(turns, Closed);
    assert items[1..|items|] == items[1..];
    assert Log(h) == TurnsLog(turns);
    HistoryRuns(env, thread, items, |items|, h);
    assert Ids(turns) != [];
  }

  /** Every history read so far: used for accepted logs and for the checks that cannot fail. */
  lemma RunHasHistory(env: Env, thread: string, items: seq<Item>, n: nat) returns (h: History)
    requires 1 <= n <= |items| && Run(env, thread, items, n).Ok?
    ensures GoodMeta(env, thread, items[0])
    ensures Valid(h) && Run(env, thread, items, n) == Ok(StateOf(h)) && Log(h) == Significant(items[1..n])
  {
    RunFails(env, thread, items, 1, n);
    RunOne(env, thread, items);
    h := RunGrows(env, thread, items, 1, n, EMPTY);
  }

  lemma AcceptedIsRollout(env: Env, thread: string, items: seq<Item>) returns (turns: seq<Turn>)
    requires items != [] && Scan(env, thread, items).Ok?
    ensures IsRollout(env, thread, items, turns)
    ensures Scan(env, thread, items) == Ok(StateOf(History(turns, Closed)))
  {
    var h := RunHasHistory(env, thread, items, |items|);
    assert h.open.Closed?;
    assert items[1..|items|] == items[1..];
    turns := h.turns;
    assert h == History(turns, Closed) && Log(h) == TurnsLog(turns);
  }

  /** The log is accepted exactly when it is a series of disjoint complete turns. */
  lemma AcceptedIffRollout(env: Env, thread: string, items: seq<Item>)
    requires items != []
    ensures Scan(env, thread, items).Ok? <==> exists turns :: IsRollout(env, thread, items, turns)
  {
    if Scan(env, thread, items).Ok? {
      var turns := AcceptedIsRollout(env, thread, items);
    }
    if turns :| IsRollout(env, thread, items, turns) {
      RolloutIsAccepted(env, thread, items, turns);
    }
  }

  /**
   The lifecycle invariant: at every line the selected turns are the completed turns, then the
   active turn if it has been selected.
   */
  lemma SelectedAreCompletedThenActive(env: Env, thread: string, items: seq<Item>, n: nat)
    requires 1 <= n <= |items| && Run(env, thread, items, n).Ok?
    ensures var s := Run(env, thread, items, n).value;
      && s.distinct == s.completed + (if s.active.Some? && s.contexts > 0 then [s.active.value] else [])
      && s.selections.Keys == set id | id in s.distinct
      && s.started == (set id | id in s.completed) + (if s.active.Some? then {s.active.value} else {})
  {
    var h := RunHasHistory(env, thread, items, n);
    SelectionsKeys(h.turns);
  }

  /** Three of the checks can never fail: the others already imply them. */
  lemma {:induction false} RedundantChecks(env: Env, thread: string, items: seq<Item>, n: nat)
    requires 1 <= n <= |items|
    ensures Run(env, thread, items, n) != Err(NonContiguous)
    ensures Scan(env, thread, items) !in {Err(MetaOmitted), Err(ListsDisagree), Err(NonContiguous)}
    decreases |items| - n, 1
  {
    NeverNonContiguous(env, thread, items, n);
    NeverNonContiguous(env, thread, items, |items|);
    if Run(env, thread, items, |items|).Ok? {
      var h := RunHasHistory(env, thread, items, |items|);
    } else {
      NeverMissesMeta(env, thread, items, |items|);
    }
  }

  lemma EarlierTurnStaysInactive(env: Env, thread: string, h: History, index: nat, item: Item)
    requires Valid(h) && index > 0
    ensures Step(env, thread, StateOf(h), index, item) != Err(NonContiguous)
  {
    SelectionsKeys(h.turns);
  }

  lemma {:induction false} NeverNonContiguous(env: Env, thread: string, items: seq<Item>, n: nat)
    requires n <= |items|
    ensures Run(env, thread, items, n) != Err(NonContiguous)
  {
    if n > 0 {
      NeverNonContiguous(env, thread, items, n - 1);
      if n > 1 && Run(env, thread, items, n - 1).Ok? {
        var h := RunHasHistory(env, thread, items, n - 1);
        EarlierTurnStaysInactive(env, thread, h, n - 1, items[n - 1]);
      }
    }
  }

  lemma {:induction false} NeverMissesMeta(env: Env, thread: string, items: seq<Item>, n: nat)
    requires n <= |items|
    ensures Run(env, thread, items, n) !in {Err(MetaOmitted), Err(ListsDisagree)}
  {
    if n > 0 { NeverMissesMeta(env, thread, items, n - 1); }
  }
}
