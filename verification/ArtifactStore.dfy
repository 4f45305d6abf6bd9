/**
 The handle as an object: its latch, its reentrant lock, and the retained tree it shares.

 Each method is proved to be the call of the same name in `Latch`, so the laws of runs apply to it.
 */
module ArtifactStore {
  import opened Basics
  import opened Sorting
  import opened Paths
  import opened Trees
  import opened Materialise
  import opened Withholding
  import opened Latch

  /** The disk behind every handle: the retained tree, its marker, and the lock file's holder. */
  class SharedRoot {
    var retained: Retained
    var lockHolder: Option<nat>
    ghost var log: seq<Event>

    constructor (retained: Retained)
      ensures this.retained == retained && lockHolder == None && log == []
    {
      this.retained := retained;
      lockHolder := None;
      log := [];
    }

    method Perform(e: Event)
      modifies this`retained, this`log
      ensures retained == Apply(old(retained), e) && log == old(log) + [e]
    {
      retained := match e
        case PutMarker => retained.(marker := Latched)
        case Remove(at) => retained.(tree := Without(retained.tree, at))
        case PutFile(at, data) => retained.(tree := Put(retained.tree, at, File(PRIVATE_FILE_MODE, data)))
        case PutDirectory(at) => retained.(tree := MakeDirs(retained.tree, at));
      log := log + [e];
    }
  }

  class ArtifactStore {
    const root: SharedRoot
    const id: nat
    var contentWithheld: bool
    var secretScrubFailed: bool
    var lockDepth: nat
    var open: bool

    /** Opening reads the marker once under the lock, and fails when it must not be trusted. */
    constructor (root: SharedRoot, id: nat)
      requires root.lockHolder == None
      ensures this.root == root && this.id == id && Valid() && lockDepth == 0
      ensures open <==> root.retained.marker != Unsafe
      ensures Memory() == Latch.Memory(root.retained.marker == Latched, false)
    {
      this.root, this.id := root, id;
      contentWithheld, secretScrubFailed, lockDepth := root.retained.marker == Latched, false, 0;
      open := root.retained.marker != Unsafe;
    }

    function Memory(): Memory
      reads this
    {
      Latch.Memory(contentWithheld, secretScrubFailed)
    }

    /** The lock file is held by this handle exactly while the depth is positive. */
    ghost predicate Valid()
      reads this, root
    {
      lockDepth > 0 <==> root.lockHolder == Some(id)
    }

    /** The state and the memory are those of the call, and its writes have been made in order. */
    twostate predicate Made(call: Call, reply: Reply)
      reads this, root
    {
      && Memory() == call.memory && reply == call.reply
      && root.log == old(root.log) + call.log && root.retained == Replay(old(root.retained), call.log)
    }

    /** `flock` waits until no other handle holds the lock file; only the outermost level takes it. */
    method Acquire() returns (ok: bool)
      requires Valid() && (root.lockHolder == None || root.lockHolder == Some(id))
      modifies this`lockDepth, root`lockHolder
      ensures ok <==> open
      ensures ok ==> Valid() && lockDepth == old(lockDepth) + 1
      ensures !ok ==> lockDepth == old(lockDepth) && root.lockHolder == old(root.lockHolder)
    {
      if !open {
        return false;
      }
      if lockDepth == 0 {
        root.lockHolder := Some(id);
      }
      lockDepth := lockDepth + 1;
      return true;
    }

    /** Only the outermost level gives the lock file back. */
    method Release()
      requires Valid() && lockDepth > 0
      modifies this`lockDepth, root`lockHolder
      ensures Valid() && lockDepth == old(lockDepth) - 1
      ensures root.lockHolder == if lockDepth == 0 then None else Some(id)
    {
      lockDepth := lockDepth - 1;
      if lockDepth == 0 {
        root.lockHolder := None;
      }
    }

    /** Closing is refused while an operation on the retained tree is under way. */
    method Close() returns (ok: bool)
      requires Valid()
      modifies this`open
      ensures Valid() && (ok <==> lockDepth == 0) && open == (old(open) && !ok)
    {
      if lockDepth != 0 {
        return false;
      }
      open := false;
      return true;
    }

    /** `_withholding_latched_unlocked`: a latch once seen is remembered. */
    method WithholdingLatched() returns (seen: Option<bool>)
      modifies this`contentWithheld
      ensures seen == Seen(root.retained, old(Memory()))
      ensures Memory() == Noted(old(Memory()), seen)
    {
      if !contentWithheld {
        if root.retained.marker == Unsafe {
          return None;
        }
        contentWithheld := root.retained.marker == Latched;
      }
      return Some(contentWithheld);
    }

    method ReadBytesUnlocked(at: Components, maxBytes: nat) returns (reply: Reply)
      requires lockDepth > 0
      modifies this`contentWithheld
      ensures Made(Read(old(root.retained), old(Memory()), at, maxBytes), reply)
    {
      var seen := WithholdingLatched();
      if seen.None? {
        return Failed;
      }
      if seen.value {
        return Refused;
      }
      var n := Lookup(root.retained.tree, at);
      if n.Some? && n.value.File? && |n.value.payload| <= maxBytes {
        return Content(n.value.payload);
      }
      return Failed;
    }

    method WriteBytesUnlocked(at: Components, data: Bytes) returns (reply: Reply)
      requires lockDepth > 0
      modifies this`contentWithheld, root`retained, root`log
      ensures Made(Write(old(root.retained), old(Memory()), at, data), reply)
    {
      var seen := WithholdingLatched();
      if seen.None? {
        return Failed;
      }
      if seen.value {
        return Done;
      }
      if !Writable(root.retained.tree, at) {
        return Failed;
      }
      root.Perform(PutFile(at, data));
      return Done;
    }

    method EnsureDirectoryUnlocked(at: Components) returns (reply: Reply)
      requires lockDepth > 0
      modifies this`contentWithheld, root`retained, root`log
      ensures Made(Latch.EnsureDirectory(old(root.retained), old(Memory()), at), reply)
    {
      var seen := WithholdingLatched();
      if seen.None? {
        return Failed;
      }
      if seen.value {
        return Done;
      }
      var there := Lookup(root.retained.tree, at);
      if !CanPut(root.retained.tree, at) || (there.Some? && !there.value.Dir?) {
        return Failed;
      }
      root.Perform(PutDirectory(at));
      return Done;
    }

    /** `_erase_directory`, as far as the removals succeed. */
    method EraseDirectory(f: Faults) returns (ok: bool)
      modifies root`retained, root`log
      ensures ok <==> !EraseFails(old(root.retained.tree), f)
      ensures root.log == old(root.log) + Erased(old(root.retained.tree), f)
      ensures root.retained == Replay(old(root.retained), Erased(old(root.retained.tree), f))
    {
      var list := EraseLog(root.retained.tree, []);
      ghost var s := root.retained;
      var i := 0;
      while i < |list|
        invariant i <= |list| && root.log == old(root.log) + list[..i] && root.retained == Replay(s, list[..i])
        invariant f.eraseLimit.Some? ==> i <= f.eraseLimit.value
      {
        if f.eraseLimit == Some(i) {
          return false;
        }
        ghost var before := root.retained;
        root.Perform(list[i]);
        assert list[..i + 1] == list[..i] + [list[i]];
        ReplayConcat(s, list[..i], [list[i]]);
        assert [list[i]][1..] == [];
        i := i + 1;
      }
      assert list[..|list|] == list;
      return f.eraseLimit != Some(|list|);
    }

    /** `_persist_credential_withheld_marker`. */
    method PersistMarker(write: Attempt)
      modifies this`contentWithheld, root`retained, root`log
      ensures contentWithheld
      ensures root.log == old(root.log) + MarkerLog(write)
      ensures root.retained == Replay(old(root.retained), MarkerLog(write))
    {
      contentWithheld := true;
      if write.Landed() {
        root.Perform(PutMarker);
        assert [PutMarker][1..] == [];
      }
    }

    /** The marker is tried first, and erasing is tried whether or not it could be written. */
    method MarkAndErase(f: Faults) returns (ok: bool)
      modifies this`contentWithheld, this`secretScrubFailed, root`retained, root`log
      ensures var done := MarkerLog(f.firstMarker) + Erased(old(root.retained.tree), f);
        root.log == old(root.log) + done && root.retained == Replay(old(root.retained), done)
      ensures ok <==> f.firstMarker.Written? && !EraseFails(old(root.retained.tree), f)
      ensures contentWithheld && secretScrubFailed == (old(secretScrubFailed) || !ok)
    {
      ghost var s, first, erased := root.retained, MarkerLog(f.firstMarker), Erased(root.retained.tree, f);
      TreeAfterMarker(s, f.firstMarker);
      PersistMarker(f.firstMarker);
      if f.firstMarker.Raised? {
        secretScrubFailed := true;
      }
      assert root.retained.tree == s.tree;
      ok := EraseDirectory(f);
      assert root.retained == Replay(Replay(s, first), erased);
      if !ok {
        secretScrubFailed := true;
      }
      ReplayConcat(s, first, erased);
      ok := ok && f.firstMarker.Written?;
    }

    /** `_withhold_all_content_unlocked`: marker, erase, marker again. */
    method WithholdAllContentUnlocked(f: Faults) returns (reply: Reply)
      requires lockDepth > 0
      modifies this`contentWithheld, this`secretScrubFailed, root`retained, root`log
      ensures Made(Withhold(old(root.retained), old(Memory()), f), reply)
    {
      ghost var s, earlier := root.retained, root.log;
      ghost var done := MarkerLog(f.firstMarker) + Erased(s.tree, f);
      ghost var retry := if f.firstMarker.Written? then [] else MarkerLog(f.secondMarker);
      var ok := MarkAndErase(f);
      if f.firstMarker.Raised? {
        PersistMarker(f.secondMarker);
      }
      ReplayConcat(s, done, retry);
      assert root.log == earlier + (done + retry);
      return if ok then Done else Failed;
    }

    /** The scrub's directory visit, over the names in whatever order they are listed. */
    method VisitDirectory(d: Detector, n: Node, at: Components) returns (found: Option<bool>)
      requires n.Dir?
      ensures found == Visit(d, n, at)
      decreases n
    {
      VisitByNames(d, n, SortedNames(n.children.Keys), at);
      var rest := n.children.Keys;
      var collision := false;
      while rest != {}
        invariant rest <= n.children.Keys
        invariant forall name | name in n.children && name !in rest :: VisitName(d, n, name, at).Some?
        invariant collision <==>
          exists name :: name in n.children && name !in rest && VisitName(d, n, name, at) == Some(true)
      {
        var name :| name in rest;
        rest := rest - {name};
        var here, child := at + [name], n.children[name];
        var sensitive := d.raw(Join(here));
        var hit := sensitive;
        match child {
          case Dir(_, _) =>
            if !sensitive {
              var below := VisitDirectory(d, child, here);
              if below.None? {
                return None;
              }
              hit := below.value;
            }
          case Link(target) => hit := sensitive || d.raw(target);
          case File(_, payload) => hit := sensitive || d.retained(payload);
          case Special => return None;
        }
        assert VisitName(d, n, name, at) == Some(hit);
        collision := collision || hit;
      }
      return Some(collision);
    }

    /** `_scrub_known_secrets_unlocked`: nothing is written unless a secret may have been retained. */
    method ScrubKnownSecretsUnlocked(d: Detector, f: Faults) returns (reply: Reply)
      requires lockDepth > 0 && root.retained.tree.Dir?
      modifies this`contentWithheld, this`secretScrubFailed, root`retained, root`log
      ensures Made(Scrub(old(root.retained), old(Memory()), f, d), reply)
    {
      if secretScrubFailed {
        reply := WithholdAllContentUnlocked(f);
        return Failed;
      }
      var collision := VisitDirectory(d, root.retained.tree, []);
      if collision.None? {
        secretScrubFailed := true;
        reply := WithholdAllContentUnlocked(f);
        return Failed;
      }
      if !collision.value {
        return Scrubbed(false);
      }
      reply := WithholdAllContentUnlocked(f);
      if !reply.Failed? {
        reply := Scrubbed(true);
      }
    }

    // ---- The public calls: each is its unlocked body between taking and giving back the lock ----

    /** `flock` returns once no other handle holds the lock file. */
    predicate LockIsMine()
      reads root
    {
      root.lockHolder == None || root.lockHolder == Some(id)
    }

    /** The lock is as it was; a closed handle has done nothing, an open one has made the call. */
    twostate predicate Answered(call: Call, reply: Reply)
      reads this, root
    {
      && Valid() && lockDepth == old(lockDepth) && root.lockHolder == old(root.lockHolder) && open == old(open)
      && if open then Made(call, reply) else Made(Call([], old(Memory()), Failed), reply)
    }

    method ReadBytes(at: Components, maxBytes: nat) returns (reply: Reply)
      requires Valid() && LockIsMine()
      modifies this`contentWithheld, this`lockDepth, root`lockHolder
      ensures Answered(Read(old(root.retained), old(Memory()), at, maxBytes), reply)
    {
      var ok := Acquire();
      if !ok {
        return Failed;
      }
      reply := ReadBytesUnlocked(at, maxBytes);
      Release();
    }

    method WriteBytes(at: Components, data: Bytes) returns (reply: Reply)
      requires Valid() && LockIsMine()
      modifies this`contentWithheld, this`lockDepth, root`lockHolder, root`retained, root`log
      ensures Answered(Write(old(root.retained), old(Memory()), at, data), reply)
    {
      var ok := Acquire();
      if !ok {
        return Failed;
      }
      reply := WriteBytesUnlocked(at, data);
      Release();
    }

    method EnsureDirectory(at: Components) returns (reply: Reply)
      requires Valid() && LockIsMine()
      modifies this`contentWithheld, this`lockDepth, root`lockHolder, root`retained, root`log
      ensures Answered(Latch.EnsureDirectory(old(root.retained), old(Memory()), at), reply)
    {
      var ok := Acquire();
      if !ok {
        return Failed;
      }
      reply := EnsureDirectoryUnlocked(at);
      Release();
    }

    method WithholdAllContent(f: Faults) returns (reply: Reply)
      requires Valid() && LockIsMine()
      modifies this`contentWithheld, this`lockDepth, root`lockHolder, this`secretScrubFailed, root`retained, root`log
      ensures Answered(Withhold(old(root.retained), old(Memory()), f), reply)
    {
      var ok := Acquire();
      if !ok {
        return Failed;
      }
      reply := WithholdAllContentUnlocked(f);
      Release();
    }

    method ScrubKnownSecrets(d: Detector, f: Faults) returns (reply: Reply)
      requires Valid() && LockIsMine() && root.retained.tree.Dir?
      modifies this`contentWithheld, this`lockDepth, root`lockHolder, this`secretScrubFailed, root`retained, root`log
      ensures Answered(Scrub(old(root.retained), old(Memory()), f, d), reply)
    {
      var ok := Acquire();
      if !ok {
        return Failed;
      }
      reply := ScrubKnownSecretsUnlocked(d, f);
      Release();
    }
  }

  lemma TreeAfterMarker(s: Retained, write: Attempt)
    ensures Replay(s, MarkerLog(write)).tree == s.tree
  {
    assert [PutMarker][1..] == [];
  }

  function VisitName(d: Detector, n: Node, name: Bytes, at: Components): Option<bool>
    requires n.Dir? && name in n.children
  {
    VisitEntry(d, n.children[name], at + [name])
  }

  /** The outcome of a visit does not depend on the order of the names. */
  lemma {:induction false} VisitByNames(d: Detector, n: Node, names: seq<Bytes>, at: Components)
    requires n.Dir? && forall name | name in names :: name in n.children
    ensures var r := VisitNames(d, n, names, at);
      && (r.None? <==> exists name :: name in names && VisitName(d, n, name, at).None?)
      && (r.Some? ==> (r.value <==> exists name :: name in names && VisitName(d, n, name, at) == Some(true)))
    decreases |names|
  {
    if names != [] {
      VisitByNames(d, n, names[1..], at);
      assert VisitName(d, n, names[0], at) == VisitEntry(d, n.children[names[0]], at + [names[0]]);
      assert names == [names[0]] + names[1..];
    }
  }
}
