/**
 Content-addressed blobs over the retained tree, behind the same latch.

 A blob lies under the name of its digest; the digest is a parameter.
 */
module BlobStore {
  import opened Basics
  import opened Trees
  import opened Materialise
  import opened Withholding
  import opened Latch

  datatype Config = Config(prefix: Components, maxBlobBytes: nat, sha: Bytes -> Digest, name: Digest -> Bytes)

  function PathOf(c: Config, digest: Digest): Components {
    c.prefix + [c.name(digest)]
  }

  predicate Missing(c: Config, s: Retained, digest: Digest) {
    Lookup(s.tree, PathOf(c, digest)).None?
  }

  /** An existing blob is compared, a missing one is written, anything else is refused. */
  function PutBlob(c: Config, s: Retained, m: Memory, data: Bytes): Call {
    if |data| > c.maxBlobBytes then Call([], m, Failed)
    else
      var digest := c.sha(data);
      var r := Read(s, m, PathOf(c, digest), c.maxBlobBytes);
      if r.reply.Content? then (if r.reply.data == data then r.(reply := Done) else r.(reply := Failed))
      else if r.reply.Refused? || Seen(s, m).None? || !Missing(c, s, digest) then r.(reply := Failed)
      else Write(s, r.memory, PathOf(c, digest), data)
  }

  function ReadBlob(c: Config, s: Retained, m: Memory, digest: Digest): Call {
    var r := Read(s, m, PathOf(c, digest), c.maxBlobBytes);
    if r.reply.Content? && c.sha(r.reply.data) != digest then r.(reply := Failed) else r
  }

  /** What was put is what is read back, by any handle, whatever other blobs there are. */
  lemma PutThenRead(c: Config, s: Retained, m: Memory, data: Bytes, reader: Memory)
    requires PutBlob(c, s, m, data).reply.Done? && s.marker == Absent && !reader.withheld
    ensures var after := Replay(s, PutBlob(c, s, m, data).log);
      ReadBlob(c, after, reader, c.sha(data)).reply == Content(data)
  {
    var call := PutBlob(c, s, m, data);
    var at := PathOf(c, c.sha(data));
    if call.log != [] {
      assert call.log == [PutFile(at, data)] && call.log[1..] == [];
      PutLookup(s.tree, at, File(PRIVATE_FILE_MODE, data), at);
      assert at[|at|..] == [];
    }
  }

  /** Putting one blob leaves every other one as it was. */
  lemma OtherBlobsStay(c: Config, s: Retained, m: Memory, data: Bytes, digest: Digest)
    requires c.name(c.sha(data)) != c.name(digest)
    ensures Lookup(Replay(s, PutBlob(c, s, m, data).log).tree, PathOf(c, digest)) == Lookup(s.tree, PathOf(c, digest))
  {
    var call := PutBlob(c, s, m, data);
    var at, other := PathOf(c, c.sha(data)), PathOf(c, digest);
    if call.log != [] {
      assert call.log == [PutFile(at, data)] && call.log[1..] == [];
      assert at[|c.prefix|] != other[|c.prefix|];
      PutLookup(s.tree, at, File(PRIVATE_FILE_MODE, data), other);
    }
  }
}
