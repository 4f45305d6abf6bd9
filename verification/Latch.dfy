/** The calls of a handle over the retained tree. */
module Latch {
  import opened Basics
  import opened Paths
  import opened Trees
  import opened Materialise
  import opened Withholding

  /** What one open handle remembers. */
  datatype Memory = Memory(withheld: bool, scrubFailed: bool)

  /** One attempt to write the marker; a raising one may or may not have replaced the file already. */
  datatype Attempt = Written | Raised(replaced: bool) {
    predicate Landed() { Written? || replaced }
  }

  /** How the two marker writes go, and after how many removals erasing fails. */
  datatype Faults = Faults(firstMarker: Attempt, secondMarker: Attempt, eraseLimit: Option<nat>)

  datatype Reply = Done | Refused | Failed | Content(data: Bytes) | Scrubbed(collision: bool)

  datatype Call = Call(log: seq<Event>, memory: Memory, reply: Reply)

  /** The latch as a handle sees it; `None` when the marker must not be trusted. */
  function Seen(s: Retained, m: Memory): Option<bool> {
    if m.withheld then Some(true)
    else if s.marker == Unsafe then None
    else Some(s.marker == Latched)
  }

  /** Remember a latch that was read from disk. */
  function Noted(m: Memory, seen: Option<bool>): Memory {
    if seen == Some(true) then m.(withheld := true) else m
  }

  // ---- The calls ----

  /** `read_bytes`: a file longer than `maxBytes` is an error. */
  function Read(s: Retained, m: Memory, at: Components, maxBytes: nat): Call {
    var seen := Seen(s, m);
    if seen.None? then Call([], m, Failed)
    else if seen.value then Call([], Noted(m, seen), Refused)
    else
      var n := Lookup(s.tree, at);
      if n.Some? && n.value.File? && |n.value.payload| <= maxBytes then Call([], m, Content(n.value.payload))
      else Call([], m, Failed)
  }

  predicate Writable(tree: Node, at: Components) {
    at != [] && CanPut(tree, at) && (Lookup(tree, at).None? || Lookup(tree, at).value.File? || Lookup(tree, at).value.Link?)
  }

  function Write(s: Retained, m: Memory, at: Components, data: Bytes): Call {
    var seen := Seen(s, m);
    if seen.None? then Call([], m, Failed)
    else if seen.value then Call([], Noted(m, seen), Done)
    else if Writable(s.tree, at) then Call([PutFile(at, data)], m, Done)
    else Call([], m, Failed)
  }

  function EnsureDirectory(s: Retained, m: Memory, at: Components): Call {
    var seen := Seen(s, m);
    if seen.None? then Call([], m, Failed)
    else if seen.value then Call([], Noted(m, seen), Done)
    else if CanPut(s.tree, at) && (Lookup(s.tree, at).Some? ==> Lookup(s.tree, at).value.Dir?) then
      Call([PutDirectory(at)], m, Done)
    else Call([], m, Failed)
  }

  /** `retained_filesystem`: the tree is handed out after one look at the latch, and `work` is done on it. */
  function UseTree(s: Retained, m: Memory, work: seq<Event>): Call {
    var seen := Seen(s, m);
    if seen.None? then Call([], m, Failed)
    else if seen.value then Call([], Noted(m, seen), Refused)
    else Call(work, m, Done)
  }

  /** What the removals come to before one of them fails. */
  function Erased(tree: Node, f: Faults): seq<Event> {
    var log := EraseLog(tree, []);
    if f.eraseLimit.None? || f.eraseLimit.value >= |log| then log else log[..f.eraseLimit.value]
  }

  /** Erasing may also fail when everything has been removed, before the root is synced. */
  predicate EraseFails(tree: Node, f: Faults) {
    f.eraseLimit.Some? && f.eraseLimit.value <= |EraseLog(tree, [])|
  }

  function MarkerLog(write: Attempt): seq<Event> {
    if write.Landed() then [PutMarker] else []
  }

  /** Marker, then erase, then the marker again if the first write raised. */
  function Withhold(s: Retained, m: Memory, f: Faults): Call {
    var retry := if f.firstMarker.Written? then [] else MarkerLog(f.secondMarker);
    var failed := f.firstMarker.Raised? || EraseFails(s.tree, f);
    Call(MarkerLog(f.firstMarker) + Erased(s.tree, f) + retry,
         Memory(true, m.scrubFailed || failed),
         if failed then Failed else Done)
  }

  /** Whether bytes carry a known secret: as they are, and through their encodings. */
  datatype Detector = Detector(raw: Bytes -> bool, retained: Bytes -> bool)

  /** The scrub's visit: `None` on an unsafe file type; sensitive directories are not entered. */
  function Visit(d: Detector, n: Node, at: Components): Option<bool>
    decreases n, 1, 0
  {
    if n.Dir? then VisitNames(d, n, SortedNames(n.children.Keys), at) else Some(false)
  }

  function VisitEntry(d: Detector, n: Node, at: Components): Option<bool>
    requires at != []
    decreases n, 2, 0
  {
    var sensitive := d.raw(Join(at));
    match n
    case Dir(_, _) => if sensitive then Some(true) else Visit(d, n, at)
    case Link(target) => Some(sensitive || d.raw(target))
    case File(_, payload) => Some(sensitive || d.retained(payload))
    case Special => None
  }

  function VisitNames(d: Detector, n: Node, names: seq<Bytes>, at: Components): Option<bool>
    requires n.Dir? && forall name | name in names :: name in n.children
    decreases n, 0, |names|
  {
    if names == [] then Some(false)
    else
      var first := VisitEntry(d, n.children[names[0]], at + [names[0]]);
      var rest := VisitNames(d, n, names[1..], at);
      if first.None? || rest.None? then None else Some(first.value || rest.value)
  }

  function Scrub(s: Retained, m: Memory, f: Faults, d: Detector): Call {
    if m.scrubFailed then Withhold(s, m, f).(reply := Failed)
    else
      var collision := Visit(d, s.tree, []);
      if collision.None? then Withhold(s, m.(scrubFailed := true), f).(reply := Failed)
      else if !collision.value then Call([], m, Scrubbed(false))
      else
        var w := Withhold(s, m, f);
        if w.reply.Failed? then w else w.(reply := Scrubbed(true))
  }

  // ---- The scrub reports a collision exactly when something matches ----

  /** An entry whose path, link target or content carries a secret. */
  predicate Matches(d: Detector, root: Node, c: Components) {
    && c != [] && Exists(root, c)
    && var n := Lookup(root, c).value;
       d.raw(Join(c)) || (n.Link? && d.raw(n.target)) || (n.File? && d.retained(n.payload))
  }

  /** No directory strictly between `at` and `c` is sensitive, so the scrub gets as far as `c`. */
  predicate Reached(d: Detector, at: Components, c: Components) {
    at < c && forall k | |at| < k < |c| :: !d.raw(Join(c[..k]))
  }

  predicate Flaw(d: Detector, root: Node, at: Components, c: Components) {
    Reached(d, at, c) && Lookup(root, c) == Some(Special)
  }

  predicate Hit(d: Detector, root: Node, at: Components, c: Components) {
    Reached(d, at, c) && Matches(d, root, c)
  }

  /** What visiting everything strictly below `at` must report. */
  ghost predicate ReportsBelow(d: Detector, root: Node, at: Components, r: Option<bool>) {
    && (r.None? <==> exists c :: Flaw(d, root, at, c))
    && (r.Some? ==> (r.value <==> exists c :: Hit(d, root, at, c)))
  }

  /** The same for one entry of the directory at `at` and all below it. */
  ghost predicate ReportsEntry(d: Detector, root: Node, at: Components, name: Bytes, r: Option<bool>) {
    && (r.None? <==> exists c :: at + [name] <= c && Flaw(d, root, at, c))
    && (r.Some? ==> (r.value <==> exists c :: at + [name] <= c && Hit(d, root, at, c)))
  }

  ghost predicate ReportsNames(d: Detector, root: Node, at: Components, names: seq<Bytes>, r: Option<bool>) {
    && (r.None? <==> exists c :: at < c && c[|at|] in names && Flaw(d, root, at, c))
    && (r.Some? ==> (r.value <==> exists c :: at < c && c[|at|] in names && Hit(d, root, at, c)))
  }

  lemma ReachedThrough(d: Detector, at: Components, name: Bytes, c: Components)
    requires at + [name] < c
    ensures Reached(d, at, c) <==> !d.raw(Join(at + [name])) && Reached(d, at + [name], c)
  {
    var here := at + [name];
    assert c[..|here|] == here && at < c;
    if Reached(d, at, c) {
      assert !d.raw(Join(c[..|here|]));
    }
    if !d.raw(Join(here)) && Reached(d, here, c) {
      forall k | |at| < k < |c| ensures !d.raw(Join(c[..k])) {
        if k == |here| { assert c[..k] == here; }
      }
    }
  }

  lemma NothingExistsBelow(root: Node, at: Components, n: Node, c: Components)
    requires Lookup(root, at) == Some(n) && !n.Dir? && at < c
    ensures !Exists(root, c)
  {
    assert c == at + c[|at|..];
    LookupConcat(root, at, c[|at|..]);
  }

  lemma {:induction false} VisitIs(d: Detector, root: Node, n: Node, at: Components)
    requires Lookup(root, at) == Some(n)
    ensures ReportsBelow(d, root, at, Visit(d, n, at))
    decreases n, 1, 0
  {
    if n.Dir? {
      var names := SortedNames(n.children.Keys);
      VisitNamesIs(d, root, n, names, at);
      forall c | at < c && Exists(root, c) ensures c[|at|] in names {
        assert c == at + c[|at|..];
        LookupConcat(root, at, c[|at|..]);
      }
    } else {
      forall c ensures !Flaw(d, root, at, c) && !Hit(d, root, at, c) {
        if at < c { NothingExistsBelow(root, at, n, c); }
      }
    }
  }

  lemma {:induction false} VisitEntryIs(d: Detector, root: Node, n: Node, at: Components, name: Bytes)
    requires Lookup(root, at + [name]) == Some(n)
    ensures ReportsEntry(d, root, at, name, VisitEntry(d, n, at + [name]))
    decreases n, 2, 0
  {
    var here := at + [name];
    var r := VisitEntry(d, n, here);
    assert Reached(d, at, here);
    if n.Dir? {
      VisitIs(d, root, n, here);
      EntryIsSelfOrBelow(d, root, at, name, Visit(d, n, here));
    } else {
      forall c | here <= c && c != here ensures !Flaw(d, root, at, c) && !Hit(d, root, at, c) {
        NothingExistsBelow(root, here, n, c);
      }
      assert Flaw(d, root, at, here) <==> n.Special?;
      assert Hit(d, root, at, here) <==> Matches(d, root, here);
    }
  }

  lemma EntryIsSelfOrBelow(d: Detector, root: Node, at: Components, name: Bytes, below: Option<bool>)
    requires var n := Lookup(root, at + [name]); n.Some? && n.value.Dir?
    requires ReportsBelow(d, root, at + [name], below)
    ensures ReportsEntry(d, root, at, name, if d.raw(Join(at + [name])) then Some(true) else below)
  {
    var here := at + [name];
    assert Reached(d, at, here);
    assert Hit(d, root, at, here) <==> d.raw(Join(here));
    assert !Flaw(d, root, at, here);
    forall c ensures here <= c && Flaw(d, root, at, c) <==> !d.raw(Join(here)) && Flaw(d, root, here, c) {
      if here < c {
        ReachedThrough(d, at, name, c);
      } else if here <= c {
        assert c == here;
      }
    }
    forall c ensures here <= c && Hit(d, root, at, c) <==>
                     (c == here && d.raw(Join(here))) || (!d.raw(Join(here)) && Hit(d, root, here, c)) {
      if here < c {
        ReachedThrough(d, at, name, c);
      } else if here <= c {
        assert c == here;
      }
    }
  }

  lemma {:induction false} VisitNamesIs(d: Detector, root: Node, n: Node, names: seq<Bytes>, at: Components)
    requires n.Dir? && Lookup(root, at) == Some(n) && forall name | name in names :: name in n.children
    ensures ReportsNames(d, root, at, names, VisitNames(d, n, names, at))
    decreases n, 0, |names|
  {
    if names != [] {
      var name, rest := names[0], names[1..];
      LookupConcat(root, at, [name]);
      VisitEntryIs(d, root, n.children[name], at, name);
      VisitNamesIs(d, root, n, rest, at);
      JoinReports(d, root, at, names, VisitEntry(d, n.children[name], at + [name]), VisitNames(d, n, rest, at));
    }
  }

  lemma JoinReports(d: Detector, root: Node, at: Components, names: seq<Bytes>, first: Option<bool>, rest: Option<bool>)
    requires names != [] && ReportsEntry(d, root, at, names[0], first) && ReportsNames(d, root, at, names[1..], rest)
    ensures ReportsNames(d, root, at, names,
                         if first.None? || rest.None? then None else Some(first.value || rest.value))
  {
    assert names == [names[0]] + names[1..];
    forall c ensures at + [names[0]] <= c <==> at < c && c[|at|] == names[0] {
      if at < c && c[|at|] == names[0] { assert c[..|at| + 1] == at + [names[0]]; }
    }
  }

  /** An entry that is not reached lies below a sensitive directory, which is itself a match. */
  lemma {:induction false} UnreachedHasHit(d: Detector, root: Node, c: Components, k: nat)
    requires Matches(d, root, c) && k <= |c|
    requires forall j | 0 < j < k :: !d.raw(Join(c[..j]))
    ensures exists x :: Hit(d, root, [], x)
    decreases |c| - k
  {
    if k == |c| {
      assert Hit(d, root, [], c);
    } else if k > 0 && d.raw(Join(c[..k])) {
      var x := c[..k];
      assert c == x + c[k..];
      LookupConcat(root, x, c[k..]);
      assert forall j | 0 < j < k :: x[..j] == c[..j];
      assert Hit(d, root, [], x);
    } else {
      UnreachedHasHit(d, root, c, k + 1);
    }
  }

  /** A scrub that ends reports a collision exactly when some entry of the tree matches. */
  lemma ScrubFindsMatches(d: Detector, root: Node)
    ensures Visit(d, root, []).None? <==> exists c :: Flaw(d, root, [], c)
    ensures Visit(d, root, []).Some? ==> (Visit(d, root, []).value <==> exists c :: Matches(d, root, c))
  {
    VisitIs(d, root, root, []);
    if c :| Matches(d, root, c) {
      UnreachedHasHit(d, root, c, 0);
    }
    if c :| Hit(d, root, [], c) {
      assert Matches(d, root, c);
    }
  }
}
