/**
 The durable state behind the default credential pair, and the events that change it.

 There are two vendor accounts, one marker that names the hashes of both credentials, and one
 journal.  Each `atomic_write` and each removal is one `Event`; a process that dies has executed a
 prefix of its event log.
 */
module PairDisk {
  import opened Basics

  datatype Vendor = Codex | Claude

  datatype Pair<+T> = Pair(codex: T, claude: T) {
    function At(v: Vendor): T {
      if v == Codex then codex else claude
    }
  }

  type RunId = string

  /** `transaction.json`: missing, unparsable, or the canonical active record. */
  datatype Metadata = NoMetadata | BadMetadata | Active(runId: RunId, baseline: Digest)

  datatype Transaction = Transaction(metadata: Metadata, candidate: Option<Bytes>)

  /** One account root with its durable credential and its `transactions` directory. */
  datatype Account = Account(root: bool, durable: Option<Bytes>, pending: map<RunId, Transaction>)

  /** The journal record: which runs hold the candidates, and the hashes to move from and to. */
  datatype Transition = Transition(runs: Pair<RunId>, before: Pair<Digest>, after: Pair<Digest>)

  datatype MarkerFile = NoMarker | BadMarker | Names(hashes: Pair<Digest>)

  datatype JournalFile = NoJournal | BadJournal | Prepared(transition: Transition)

  datatype Disk = Disk(marker: MarkerFile, journal: JournalFile, accounts: Pair<Account>) {
    function Durable(v: Vendor): Option<Bytes> { accounts.At(v).durable }

    function Pending(v: Vendor): map<RunId, Transaction> { accounts.At(v).pending }

    function WithAccount(v: Vendor, a: Account): Disk {
      if v == Codex then this.(accounts := accounts.(codex := a))
      else this.(accounts := accounts.(claude := a))
    }

    function WithPending(v: Vendor, p: map<RunId, Transaction>): Disk {
      WithAccount(v, accounts.At(v).(pending := p))
    }
  }

  datatype Event =
      /** The evidence barrier was handed these generations.  Nothing durable changes. */
    | Scan(vendor: Vendor, run: RunId, generations: seq<Bytes>)
      /** A vendor status probe ran over the candidate home and left this candidate file. */
    | Probe(vendor: Vendor, run: RunId, left: Option<Bytes>)
    | PutCandidate(vendor: Vendor, run: RunId, bytes: Bytes)
    | PutMetadata(vendor: Vendor, run: RunId, baseline: Digest)
    | PutDurable(vendor: Vendor, bytes: Bytes)
    | PutMarker(hashes: Pair<Digest>)
    | PutJournal(transition: Transition)
    | DropTransaction(vendor: Vendor, run: RunId)
    | DropJournal
      /** A transaction directory is seeded with the durable bytes as its first candidate. */
    | Seed(vendor: Vendor, run: RunId, bytes: Bytes, baseline: Digest)
      /** Anything else may happen below `transactions`: a CLI refresh, a torn seed, a torn removal. */
    | Meddle(vendor: Vendor, pending: map<RunId, Transaction>)

  /** Events below a transaction directory need that directory to exist. */
  predicate Possible(d: Disk, e: Event) {
    match e
    case PutCandidate(v, run, _) => run in d.Pending(v)
    case PutMetadata(v, run, _) => run in d.Pending(v)
    case DropTransaction(v, run) => run in d.Pending(v)
    case _ => true
  }

  function Apply(d: Disk, e: Event): Disk {
    match e
    case Scan(_, _, _) => d
    case Probe(v, run, left) =>
      if run in d.Pending(v)
      then d.WithPending(v, d.Pending(v)[run := d.Pending(v)[run].(candidate := left)]) else d
    case PutCandidate(v, run, bytes) =>
      if run in d.Pending(v)
      then d.WithPending(v, d.Pending(v)[run := d.Pending(v)[run].(candidate := Some(bytes))]) else d
    case PutMetadata(v, run, baseline) =>
      if run in d.Pending(v)
      then d.WithPending(v, d.Pending(v)[run := d.Pending(v)[run].(metadata := Active(run, baseline))]) else d
    case PutDurable(v, bytes) => d.WithAccount(v, d.accounts.At(v).(durable := Some(bytes)))
    case PutMarker(hashes) => d.(marker := Names(hashes))
    case PutJournal(t) => d.(journal := Prepared(t))
    case DropTransaction(v, run) => d.WithPending(v, d.Pending(v) - {run})
    case DropJournal => d.(journal := NoJournal)
    case Seed(v, run, bytes, baseline) =>
      d.WithPending(v, d.Pending(v)[run := Transaction(Active(run, baseline), Some(bytes))])
    case Meddle(v, pending) => d.WithPending(v, pending)
  }

  function Replay(d: Disk, log: seq<Event>): Disk
    decreases |log|
  {
    if log == [] then d else Replay(Apply(d, log[0]), log[1..])
  }

  lemma {:induction false} ReplayConcat(d: Disk, a: seq<Event>, b: seq<Event>)
    ensures Replay(d, a + b) == Replay(Replay(d, a), b)
    decreases |a|
  {
    if a == [] {
      assert a + b == b;
    } else {
      assert (a + b)[1..] == a[1..] + b;
      ReplayConcat(Apply(d, a[0]), a[1..], b);
    }
  }

  lemma ReplayOne(d: Disk, e: Event)
    ensures Replay(d, [e]) == Apply(d, e)
  {
    assert Replay(Apply(d, e), [e][1..]) == Apply(d, e);
  }

  // ---- Logs that obey a rule at every step ----

  ghost predicate Obeys(rule: (Disk, Event) -> bool, d: Disk, log: seq<Event>)
    decreases |log|
  {
    log == [] || (rule(d, log[0]) && Obeys(rule, Apply(d, log[0]), log[1..]))
  }

  lemma {:induction false} ObeysConcat(rule: (Disk, Event) -> bool, d: Disk, a: seq<Event>, b: seq<Event>)
    ensures Obeys(rule, d, a + b) <==> Obeys(rule, d, a) && Obeys(rule, Replay(d, a), b)
    decreases |a|
  {
    if a == [] {
      assert a + b == b;
    } else {
      assert (a + b)[1..] == a[1..] + b;
      ObeysConcat(rule, Apply(d, a[0]), a[1..], b);
    }
  }

  lemma ObeysPrefix(rule: (Disk, Event) -> bool, d: Disk, log: seq<Event>, prefix: seq<Event>)
    requires Obeys(rule, d, log) && prefix <= log
    ensures Obeys(rule, d, prefix)
  {
    assert log == prefix + log[|prefix|..];
    ObeysConcat(rule, d, prefix, log[|prefix|..]);
  }

  lemma ObeysOne(rule: (Disk, Event) -> bool, d: Disk, e: Event)
    requires rule(d, e)
    ensures Obeys(rule, d, [e])
  {
    assert Obeys(rule, Apply(d, e), [e][1..]);
  }

  datatype Reason = StateConflict | RefreshFailure

  /** What one call did to the disk, and whether it returned or raised. */
  datatype Exec<+A> = Done(log: seq<Event>, value: A) | Stopped(log: seq<Event>, reason: Reason) {
    function After(earlier: seq<Event>): Exec<A> {
      this.(log := earlier + log)
    }
  }

  /** Run a planned series of writes; an impossible one raises and leaves the prefix behind. */
  function Perform(d: Disk, plan: seq<Event>): (r: Exec<()>)
    ensures r.log <= plan
    ensures r.Done? ==> r.log == plan
    decreases |plan|
  {
    if plan == [] then Done([], ())
    else if !Possible(d, plan[0]) then Stopped([], StateConflict)
    else Perform(Apply(d, plan[0]), plan[1..]).After([plan[0]])
  }

  lemma PerformCons(d: Disk, e: Event, rest: seq<Event>)
    ensures Perform(d, [e] + rest) ==
            if Possible(d, e) then Perform(Apply(d, e), rest).After([e]) else Stopped([], StateConflict)
  {
    assert ([e] + rest)[1..] == rest;
  }

  lemma AfterTwice<A>(x: Exec<A>, p: seq<Event>, q: seq<Event>)
    ensures x.After(q).After(p) == x.After(p + q)
  {
    assert p + (q + x.log) == p + q + x.log;
  }

  lemma {:induction false} PerformConcat(d: Disk, a: seq<Event>, b: seq<Event>)
    ensures Perform(d, a).Stopped? ==> Perform(d, a + b) == Perform(d, a)
    ensures Perform(d, a).Done? ==> Perform(d, a + b) == Perform(Replay(d, a), b).After(a)
    decreases |a|
  {
    if a == [] {
      assert a + b == b;
      assert [] + Perform(d, b).log == Perform(d, b).log;
    } else {
      assert (a + b)[0] == a[0] && (a + b)[1..] == a[1..] + b;
      if Possible(d, a[0]) {
        PerformConcat(Apply(d, a[0]), a[1..], b);
        AfterTwice(Perform(Replay(d, a), b), [a[0]], a[1..]);
        assert a == [a[0]] + a[1..];
      }
    }
  }

  /** One planned write, or none. */
  predicate OneStep(d: Disk, part: seq<Event>, d': Disk) {
    |part| <= 1 && if part == [] then d' == d else Possible(d, part[0]) && d' == Apply(d, part[0])
  }

  /** One planned write (or none) was made; the rest of the plan continues from the new disk. */
  lemma PerformStep(d: Disk, part: seq<Event>, rest: seq<Event>, d': Disk)
    requires OneStep(d, part, d')
    ensures Replay(d, part) == d' && Perform(d, part + rest) == Perform(d', rest).After(part)
  {
    if part == [] {
      assert part + rest == rest && [] + Perform(d, rest).log == Perform(d, rest).log;
    } else {
      assert part == [part[0]];
      ReplayOne(d, part[0]);
      assert (part + rest)[1..] == rest;
    }
  }

  /** Three single steps in a row. */
  lemma PerformThree(d: Disk, a: seq<Event>, d1: Disk, b: seq<Event>, d2: Disk, c: seq<Event>, d3: Disk)
    requires OneStep(d, a, d1) && OneStep(d1, b, d2) && OneStep(d2, c, d3)
    ensures Perform(d, a + (b + c)).Done? && Replay(d, a + (b + c)) == d3
  {
    PerformStep(d2, c, [], d3);
    assert c + [] == c;
    PerformStep(d1, b, c, d2);
    PerformStep(d, a, b + c, d1);
    ReplayConcat(d1, b, c);
    ReplayConcat(d, a, b + c);
  }
}
