/** The canonical bytes of a manifest, and that no two manifests share them. */
module Canonical {
  import opened Basics
  import opened Manifests
  import opened Numerals

  // ---- Length-prefixed atoms ----

  const U64_END: nat := 0x1_0000_0000_0000_0000

  predicate Fits(atom: Bytes) {
    |atom| < U64_END
  }

  function LengthPrefix(atom: Bytes): Bytes {
    BigEndian(|atom|, 8) + atom
  }

  function EncodeAtoms(atoms: seq<Bytes>): Bytes {
    if atoms == [] then [] else LengthPrefix(atoms[0]) + EncodeAtoms(atoms[1..])
  }

  lemma {:induction false} EncodeAtomsConcat(a: seq<Bytes>, b: seq<Bytes>)
    ensures EncodeAtoms(a + b) == EncodeAtoms(a) + EncodeAtoms(b)
  {
    if a == [] {
      assert a + b == b;
    } else {
      assert (a + b)[1..] == a[1..] + b;
      EncodeAtomsConcat(a[1..], b);
    }
  }

  lemma LengthPrefixInjective(a: Bytes, x: Bytes, b: Bytes, y: Bytes)
    requires Fits(a) && Fits(b) && LengthPrefix(a) + x == LengthPrefix(b) + y
    ensures a == b && x == y
  {
    var s := LengthPrefix(a) + x;
    CapacityOfWords();
    assert s[..8] == BigEndian(|a|, 8) && s[..8] == BigEndian(|b|, 8);
    BigEndianInjective(|a|, |b|, 8);
    assert s[8..8 + |a|] == a && s[8..8 + |b|] == b;
    assert s[8 + |a|..] == x && s[8 + |b|..] == y;
  }

  /** Atoms are read back one way only. */
  lemma {:induction false} EncodeAtomsInjective(a: seq<Bytes>, b: seq<Bytes>)
    requires (forall x | x in a :: Fits(x)) && (forall x | x in b :: Fits(x)) && EncodeAtoms(a) == EncodeAtoms(b)
    ensures a == b
  {
    if a != [] && b != [] {
      LengthPrefixInjective(a[0], EncodeAtoms(a[1..]), b[0], EncodeAtoms(b[1..]));
      EncodeAtomsInjective(a[1..], b[1..]);
      assert a == [a[0]] + a[1..] && b == [b[0]] + b[1..];
    }
  }

  // ---- Entries and manifests ----

  function Ascii(s: string): (r: Bytes)
    requires forall i | 0 <= i < |s| :: s[i] < 128 as char
    ensures |r| == |s| && forall i | 0 <= i < |s| :: r[i] == s[i] as int
  {
    seq(|s|, i requires 0 <= i < |s| => (s[i] as int) as byte)
  }

  const REGULAR_MODE: nat := 33188
  const EXECUTABLE_MODE: nat := 33261
  const SYMLINK_MODE: nat := 40960

  function ModeOf(id: Identity): nat {
    match id
    case Regular(executable, _, _) => if executable then EXECUTABLE_MODE else REGULAR_MODE
    case Symlink(_, _) => SYMLINK_MODE
  }

  function DigestOf(id: Identity): Digest {
    match id
    case Regular(_, _, blob) => blob
    case Symlink(_, digest) => digest
  }

  predicate ValidDigests(entries: seq<Entry>) {
    forall e | e in entries :: ValidDigest(DigestOf(e.identity))
  }

  /** `_canonical_entry`: always six atoms. */
  function EntryAtoms(e: Entry): (atoms: seq<Bytes>)
    requires ValidDigest(DigestOf(e.identity))
    ensures |atoms| == 6
  {
    [Ascii("entry"), e.path,
     if e.identity.Regular? then Ascii("regular") else Ascii("symlink"),
     Numeral(Octal, ModeOf(e.identity)),
     if e.identity.Regular? then Numeral(Decimal, e.identity.size) else e.identity.target,
     FromHex(DigestOf(e.identity))]
  }

  lemma KindsDiffer()
    ensures Ascii("regular") != Ascii("symlink")
  {
    assert Ascii("regular")[0] == 'r' as int && Ascii("symlink")[0] == 's' as int;
  }

  lemma SameMode(a: Identity, b: Identity)
    requires Numeral(Octal, ModeOf(a)) == Numeral(Octal, ModeOf(b))
    ensures ModeOf(a) == ModeOf(b)
  {
    NumeralInjective(Octal, ModeOf(a), ModeOf(b));
  }

  lemma SameIdentity(a: Identity, b: Identity)
    requires a.Regular? == b.Regular? && ModeOf(a) == ModeOf(b) && DigestOf(a) == DigestOf(b)
    requires if a.Regular? then a.size == b.size else a.target == b.target
    ensures a == b
  {
  }

  lemma {:induction false} EntryAtomsInjective(a: Entry, b: Entry)
    requires ValidDigest(DigestOf(a.identity)) && ValidDigest(DigestOf(b.identity))
    requires EntryAtoms(a) == EntryAtoms(b)
    ensures a == b
  {
    var x, y := EntryAtoms(a), EntryAtoms(b);
    assert x[1] == y[1] && x[2] == y[2] && x[3] == y[3] && x[4] == y[4] && x[5] == y[5];
    KindsDiffer();
    SameMode(a.identity, b.identity);
    FromHexInjective(DigestOf(a.identity), DigestOf(b.identity));
    if a.identity.Regular? {
      NumeralInjective(Decimal, a.identity.size, b.identity.size);
    }
    SameIdentity(a.identity, b.identity);
  }

  function AllEntryAtoms(entries: seq<Entry>): (atoms: seq<Bytes>)
    requires ValidDigests(entries)
    ensures |atoms| == 6 * |entries|
  {
    if entries == [] then [] else EntryAtoms(entries[0]) + AllEntryAtoms(entries[1..])
  }

  const SUBJECT_SCHEMA_VERSION: nat := 1

  function HeaderAtoms(entries: seq<Entry>): seq<Bytes> {
    [Ascii("agent-loop/subject-manifest"), Numeral(Decimal, SUBJECT_SCHEMA_VERSION), Numeral(Decimal, |entries|)]
  }

  function ManifestAtoms(entries: seq<Entry>): seq<Bytes>
    requires ValidDigests(entries)
  {
    HeaderAtoms(entries) + AllEntryAtoms(entries)
  }

  /** The header, then each entry on its own; `None` when a value is too long for its prefix. */
  function CanonicalBytes(entries: seq<Entry>): Option<Bytes>
    requires ValidDigests(entries)
  {
    if forall atom | atom in ManifestAtoms(entries) :: Fits(atom)
    then Some(EncodeAtoms(HeaderAtoms(entries)) + EntriesBytes(entries)) else None
  }

  function EntriesBytes(entries: seq<Entry>): Bytes
    requires ValidDigests(entries)
  {
    if entries == [] then [] else EncodeAtoms(EntryAtoms(entries[0])) + EntriesBytes(entries[1..])
  }

  lemma {:induction false} EntriesBytesAreAtoms(entries: seq<Entry>)
    requires ValidDigests(entries)
    ensures EntriesBytes(entries) == EncodeAtoms(AllEntryAtoms(entries))
  {
    if entries != [] {
      EntriesBytesAreAtoms(entries[1..]);
      EncodeAtomsConcat(EntryAtoms(entries[0]), AllEntryAtoms(entries[1..]));
    }
  }

  lemma {:induction false} AllEntryAtomsInjective(a: seq<Entry>, b: seq<Entry>)
    requires ValidDigests(a) && ValidDigests(b) && AllEntryAtoms(a) == AllEntryAtoms(b)
    ensures a == b
  {
    if a != [] && b != [] {
      var x, y := AllEntryAtoms(a), AllEntryAtoms(b);
      assert x[..6] == EntryAtoms(a[0]) && y[..6] == EntryAtoms(b[0]);
      assert x[6..] == AllEntryAtoms(a[1..]) && y[6..] == AllEntryAtoms(b[1..]);
      EntryAtomsInjective(a[0], b[0]);
      AllEntryAtomsInjective(a[1..], b[1..]);
      assert a == [a[0]] + a[1..] && b == [b[0]] + b[1..];
    }
  }

  /** Equal canonical bytes mean equal manifests. */
  lemma CanonicalIsInjective(a: seq<Entry>, b: seq<Entry>)
    requires ValidDigests(a) && ValidDigests(b)
    requires CanonicalBytes(a).Some? && CanonicalBytes(a) == CanonicalBytes(b)
    ensures a == b
  {
    EntriesBytesAreAtoms(a);
    EntriesBytesAreAtoms(b);
    EncodeAtomsConcat(HeaderAtoms(a), AllEntryAtoms(a));
    EncodeAtomsConcat(HeaderAtoms(b), AllEntryAtoms(b));
    EncodeAtomsInjective(ManifestAtoms(a), ManifestAtoms(b));
    assert ManifestAtoms(a)[3..] == AllEntryAtoms(a) && ManifestAtoms(b)[3..] == AllEntryAtoms(b);
    AllEntryAtomsInjective(a, b);
  }

  function Fingerprint(sha: Bytes -> Digest, entries: seq<Entry>): Option<Digest>
    requires ValidDigests(entries)
  {
    var c := CanonicalBytes(entries);
    if c.None? then None else Some(sha(c.value))
  }

  /** Where the digest does not collide, a fingerprint identifies one manifest. */
  lemma {:induction false} FingerprintIdentifies(sha: Bytes -> Digest, a: seq<Entry>, b: seq<Entry>)
    requires ValidDigests(a) && ValidDigests(b) && CanonicalBytes(a).Some? && CanonicalBytes(b).Some?
    requires sha(CanonicalBytes(a).value) == sha(CanonicalBytes(b).value)
             ==> CanonicalBytes(a).value == CanonicalBytes(b).value
    ensures Fingerprint(sha, a) == Fingerprint(sha, b) <==> a == b
  {
    if CanonicalBytes(a) == CanonicalBytes(b) {
      CanonicalIsInjective(a, b);
    }
  }
}
