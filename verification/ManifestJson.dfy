/** The JSON object form of a manifest, and back. */
module ManifestJson {
  import opened Basics
  import opened Paths
  import opened Manifests
  import opened Numerals
  import opened Canonical
  import opened PathText
  import Subject

  /** The keys that the manifest format names, and all others. */
  datatype Key =
    | PathB64 | PathDisplay | KindKey | ModeKey | SizeKey | BlobSha256 | TargetB64 | TargetSha256
    | SchemaVersion | FingerprintKey | EntriesKey | Other(name: string)

  datatype Json =
    | Null
    | Bool(b: bool)
    | Number(n: int)
    | Fraction(r: real)
    | Text(s: string)
    | Array(items: seq<Json>)
    | Object(fields: map<Key, Json>)

  const REGULAR_KIND := "regular"
  const SYMLINK_KIND := "symlink"

  lemma KindsAreTwo()
    ensures REGULAR_KIND != SYMLINK_KIND
  {
    assert REGULAR_KIND[0] == 'r' && SYMLINK_KIND[0] == 's';
  }

  const REGULAR_TEXT := "100644"
  const EXECUTABLE_TEXT := "100755"
  const SYMLINK_TEXT := "120000"

  /** `f"{mode:06o}"` for the modes an entry can have. */
  function ModeText(mode: nat): string {
    if mode == REGULAR_MODE then REGULAR_TEXT
    else if mode == EXECUTABLE_MODE then EXECUTABLE_TEXT
    else SYMLINK_TEXT
  }

  lemma ModeTextsDiffer()
    ensures REGULAR_TEXT != EXECUTABLE_TEXT && REGULAR_TEXT != SYMLINK_TEXT && EXECUTABLE_TEXT != SYMLINK_TEXT
  {
    assert REGULAR_TEXT[3] == '6' && EXECUTABLE_TEXT[3] == '7' && SYMLINK_TEXT[3] == '0';
  }

  lemma OctalStep(q: nat, r: nat)
    requires q > 0 && r < 8
    ensures Numeral(Octal, 8 * q + r) == Numeral(Octal, q) + [ZERO + r]
  {
    assert Octal.Quotient(8 * q + r) == q && Octal.Remainder(8 * q + r) == r;
  }

  lemma OctalDigit(r: nat)
    requires r < 8
    ensures Numeral(Octal, r) == [ZERO + r]
  {
  }

  lemma SixDigits(a: nat, b: nat, c: nat, d: nat, e: nat, f: nat)
    requires 0 < a < 8 && b < 8 && c < 8 && d < 8 && e < 8 && f < 8
    ensures Numeral(Octal, 8 * (8 * (8 * (8 * (8 * a + b) + c) + d) + e) + f)
            == [ZERO + a, ZERO + b, ZERO + c, ZERO + d, ZERO + e, ZERO + f]
  {
    OctalDigit(a);
    OctalStep(a, b);
    OctalStep(8 * a + b, c);
    OctalStep(8 * (8 * a + b) + c, d);
    OctalStep(8 * (8 * (8 * a + b) + c) + d, e);
    OctalStep(8 * (8 * (8 * (8 * a + b) + c) + d) + e, f);
  }

  /** The text holds the octal digits of the mode, most significant first. */
  predicate WritesOctal(mode: nat, text: string) {
    |text| == |Numeral(Octal, mode)| && forall i | 0 <= i < |text| :: text[i] as int == Numeral(Octal, mode)[i]
  }

  lemma Spells(mode: nat, text: string, d: seq<nat>)
    requires |text| == |d| == 6 && d[0] > 0
    requires forall i | 0 <= i < 6 :: d[i] < 8 && text[i] == '0' + d[i] as char
    requires mode == 8 * (8 * (8 * (8 * (8 * d[0] + d[1]) + d[2]) + d[3]) + d[4]) + d[5]
    ensures WritesOctal(mode, text)
  {
    SixDigits(d[0], d[1], d[2], d[3], d[4], d[5]);
  }

  /** The six characters of every mode are its octal digits. */
  lemma {:induction false} ModeTextIsOctal(identity: Identity)
    ensures WritesOctal(ModeOf(identity), ModeText(ModeOf(identity)))
  {
    match identity
    case Regular(executable, _, _) =>
      if executable {
        Spells(EXECUTABLE_MODE, EXECUTABLE_TEXT, [1, 0, 0, 7, 5, 5]);
      } else {
        Spells(REGULAR_MODE, REGULAR_TEXT, [1, 0, 0, 6, 4, 4]);
      }
    case Symlink(_, _) =>
      Spells(SYMLINK_MODE, SYMLINK_TEXT, [1, 2, 0, 0, 0, 0]);
  }

  // ---- Lists ----

  function WriteEach<V, E>(write: E -> V, entries: seq<E>): seq<V> {
    if entries == [] then [] else [write(entries[0])] + WriteEach(write, entries[1..])
  }

  /** Reads every item; `None` as soon as one is refused. */
  function ReadEach<V, E>(read: V -> Option<E>, items: seq<V>): Option<seq<E>> {
    if items == [] then Some([])
    else
      var first, rest := read(items[0]), ReadEach(read, items[1..]);
      if first.None? || rest.None? then None else Some([first.value] + rest.value)
  }

  lemma {:induction false} EachIsSpelled<V(!new), E(!new)>(read: V -> Option<E>, write: E -> V, good: E -> bool,
                                                           items: seq<V>, entries: seq<E>)
    requires forall v, e :: read(v) == Some(e) <==> good(e) && v == write(e)
    ensures ReadEach(read, items) == Some(entries) <==>
            (forall e | e in entries :: good(e)) && items == WriteEach(write, entries)
    decreases |items|
  {
    if items != [] && entries != [] {
      EachIsSpelled(read, write, good, items[1..], entries[1..]);
      assert entries == [entries[0]] + entries[1..] && items == [items[0]] + items[1..];
    }
  }

  // ---- Encoding ----

  /** `_entry_to_json`. */
  function EntryToJson(e: Entry): Json {
    var common := map[PathB64 := Text(Encode(e.path)), PathDisplay := Text(Display(e.path)),
                      ModeKey := Text(ModeText(ModeOf(e.identity)))];
    match e.identity
    case Regular(_, size, blob) =>
      Object(common[KindKey := Text(REGULAR_KIND)][SizeKey := Number(size)][BlobSha256 := Text(blob)])
    case Symlink(target, digest) =>
      Object(common[KindKey := Text(SYMLINK_KIND)][TargetB64 := Text(Encode(target))][TargetSha256 := Text(digest)])
  }

  function EntriesToJson(entries: seq<Entry>): seq<Json> {
    WriteEach(EntryToJson, entries)
  }

  /** `to_json_obj`, for a manifest with the given fingerprint. */
  function ToJson(entries: seq<Entry>, fingerprint: Digest): Json {
    Object(map[SchemaVersion := Number(SUBJECT_SCHEMA_VERSION), FingerprintKey := Text(fingerprint),
               EntriesKey := Array(EntriesToJson(entries))])
  }

  // ---- Decoding ----

  const REGULAR_KEYS: set<Key> := {PathB64, PathDisplay, KindKey, ModeKey, SizeKey, BlobSha256}
  const SYMLINK_KEYS: set<Key> := {PathB64, PathDisplay, KindKey, ModeKey, TargetB64, TargetSha256}

  /** Which mode a text names, if it is the canonical spelling of one of the three. */
  function ModeNamed(text: string): Option<nat> {
    if text == REGULAR_TEXT then Some(REGULAR_MODE)
    else if text == EXECUTABLE_TEXT then Some(EXECUTABLE_MODE)
    else if text == SYMLINK_TEXT then Some(SYMLINK_MODE)
    else None
  }

  predicate IsText(fields: map<Key, Json>, key: Key) {
    key in fields && fields[key].Text?
  }

  /** The parts every entry has: its path, spelled canonically and displayed consistently, and its mode. */
  function CommonFromJson(f: map<Key, Json>): Option<(Bytes, nat)> {
    if !IsText(f, PathB64) || !IsText(f, PathDisplay) || !IsText(f, ModeKey) then None
    else
      var path := PathFromB64(f[PathB64].s);
      if path.None? || f[PathDisplay].s != Display(path.value) then None
      else
        var mode := ModeNamed(f[ModeKey].s);
        if mode.None? then None else Some((path.value, mode.value))
  }

  /** `_entry_from_json`, with the checks of `ManifestEntry`. */
  function EntryFromJson(sha: Bytes -> Digest, v: Json): Option<Entry> {
    if !v.Object? || !IsText(v.fields, KindKey) then None
    else if v.fields[KindKey].s == REGULAR_KIND && v.fields.Keys == REGULAR_KEYS then RegularFromJson(sha, v.fields)
    else if v.fields[KindKey].s == SYMLINK_KIND && v.fields.Keys == SYMLINK_KEYS then SymlinkFromJson(sha, v.fields)
    else None
  }

  function RegularFromJson(sha: Bytes -> Digest, f: map<Key, Json>): Option<Entry>
    requires f.Keys == REGULAR_KEYS
  {
    var common := CommonFromJson(f);
    if common.None? || !f[SizeKey].Number? || !f[BlobSha256].Text? then None
    else
      var (path, mode) := common.value;
      if (mode != REGULAR_MODE && mode != EXECUTABLE_MODE) || f[SizeKey].n < 0 then None
      else Accepted(sha, Entry(path, Regular(mode == EXECUTABLE_MODE, f[SizeKey].n, f[BlobSha256].s)))
  }

  function SymlinkFromJson(sha: Bytes -> Digest, f: map<Key, Json>): Option<Entry>
    requires f.Keys == SYMLINK_KEYS
  {
    var common := CommonFromJson(f);
    if common.None? || !f[TargetB64].Text? || !f[TargetSha256].Text? then None
    else
      var (path, mode) := common.value;
      var target := PathFromB64(f[TargetB64].s);
      if mode != SYMLINK_MODE || target.None? then None
      else Accepted(sha, Entry(path, Symlink(target.value, f[TargetSha256].s)))
  }

  /** An entry as its constructor accepts it, digests included. */
  predicate GoodEntry(sha: Bytes -> Digest, e: Entry) {
    Subject.ValidEntry(sha, e) && ValidDigest(DigestOf(e.identity))
  }

  function Accepted(sha: Bytes -> Digest, e: Entry): Option<Entry> {
    if GoodEntry(sha, e) then Some(e) else None
  }

  function EntriesFromJson(sha: Bytes -> Digest, items: seq<Json>): Option<seq<Entry>> {
    ReadEach((v: Json) => EntryFromJson(sha, v), items)
  }

  /** `from_json_obj`. */
  function FromJson(sha: Bytes -> Digest, v: Json, limits: Limits): Option<seq<Entry>> {
    if !v.Object? || v.fields.Keys != {SchemaVersion, FingerprintKey, EntriesKey} then None
    else if v.fields[SchemaVersion] != Number(SUBJECT_SCHEMA_VERSION) || !v.fields[EntriesKey].Array? then None
    else
      var entries := EntriesFromJson(sha, v.fields[EntriesKey].items);
      if entries.None? || !ValidManifest(entries.value) || !WithinLimits(entries.value, limits) then None
      else
        EntriesAreGood(sha, v.fields[EntriesKey].items);
        var fingerprint := Fingerprint(sha, entries.value);
        if fingerprint.None? || v.fields[FingerprintKey] != Text(fingerprint.value) then None else entries
  }

  lemma EntriesAreGood(sha: Bytes -> Digest, items: seq<Json>)
    requires EntriesFromJson(sha, items).Some?
    ensures forall e | e in EntriesFromJson(sha, items).value :: GoodEntry(sha, e)
    ensures ValidDigests(EntriesFromJson(sha, items).value)
  {
    EntriesAreSpelled(sha, items, EntriesFromJson(sha, items).value);
  }

  // ---- The bijection ----

  /** The three modes have three spellings. */
  lemma ModesAreNamed(mode: nat, text: string)
    ensures ModeNamed(text) == Some(mode) <==>
            text == ModeText(mode) && (mode == REGULAR_MODE || mode == EXECUTABLE_MODE || mode == SYMLINK_MODE)
  {
    ModeTextsDiffer();
  }

  lemma {:induction false} CommonIsSpelled(f: map<Key, Json>, path: Bytes, mode: nat)
    ensures CommonFromJson(f) == Some((path, mode)) <==>
            && PathB64 in f && f[PathB64] == Text(Encode(path))
            && PathDisplay in f && f[PathDisplay] == Text(Display(path))
            && ModeKey in f && f[ModeKey] == Text(ModeText(mode))
            && (mode == REGULAR_MODE || mode == EXECUTABLE_MODE || mode == SYMLINK_MODE)
  {
    if IsText(f, PathB64) {
      SpelledOneWay(f[PathB64].s, path);
    }
    if IsText(f, ModeKey) {
      ModesAreNamed(mode, f[ModeKey].s);
    }
    DecodeEncode(path);
  }

  /** The encoding of an entry, field by field. */
  predicate CommonFields(f: map<Key, Json>, e: Entry) {
    && PathB64 in f && f[PathB64] == Text(Encode(e.path))
    && PathDisplay in f && f[PathDisplay] == Text(Display(e.path))
    && ModeKey in f && f[ModeKey] == Text(ModeText(ModeOf(e.identity)))
  }

  lemma SameFields(f: map<Key, Json>, g: map<Key, Json>)
    requires f.Keys == g.Keys
    ensures f == g <==> forall k | k in f :: f[k] == g[k]
  {
  }

  lemma {:induction false} RegularFields(f: map<Key, Json>, e: Entry)
    requires f.Keys == REGULAR_KEYS && e.identity.Regular?
    ensures Object(f) == EntryToJson(e) <==>
            && CommonFields(f, e) && f[KindKey] == Text(REGULAR_KIND)
            && f[SizeKey] == Number(e.identity.size) && f[BlobSha256] == Text(e.identity.blob)
  {
    var g := EntryToJson(e).fields;
    assert g.Keys == REGULAR_KEYS;
    assert f == g <==> forall k | k in REGULAR_KEYS :: f[k] == g[k];
  }

  lemma {:induction false} SymlinkFields(f: map<Key, Json>, e: Entry)
    requires f.Keys == SYMLINK_KEYS && e.identity.Symlink?
    ensures Object(f) == EntryToJson(e) <==>
            && CommonFields(f, e) && f[KindKey] == Text(SYMLINK_KIND)
            && f[TargetB64] == Text(Encode(e.identity.target)) && f[TargetSha256] == Text(e.identity.targetDigest)
  {
    var g := EntryToJson(e).fields;
    assert g.Keys == SYMLINK_KEYS;
    SameFields(f, g);
    assert CommonFields(g, e);
  }

  lemma {:induction false} RegularIsSpelled(sha: Bytes -> Digest, f: map<Key, Json>, e: Entry)
    requires f.Keys == REGULAR_KEYS && f[KindKey] == Text(REGULAR_KIND)
    ensures RegularFromJson(sha, f) == Some(e) <==> GoodEntry(sha, e) && e.identity.Regular? && Object(f) == EntryToJson(e)
  {
    if e.identity.Regular? {
      CommonIsSpelled(f, e.path, ModeOf(e.identity));
      RegularFields(f, e);
    }
    var common := CommonFromJson(f);
    if common.Some? {
      CommonIsSpelled(f, common.value.0, common.value.1);
    }
  }

  lemma {:induction false} SymlinkIsSpelled(sha: Bytes -> Digest, f: map<Key, Json>, e: Entry)
    requires f.Keys == SYMLINK_KEYS && f[KindKey] == Text(SYMLINK_KIND)
    ensures SymlinkFromJson(sha, f) == Some(e) <==> GoodEntry(sha, e) && e.identity.Symlink? && Object(f) == EntryToJson(e)
  {
    if e.identity.Symlink? {
      CommonIsSpelled(f, e.path, SYMLINK_MODE);
      SymlinkFields(f, e);
      if f[TargetB64].Text? { SpelledOneWay(f[TargetB64].s, e.identity.target); }
    }
    var common := CommonFromJson(f);
    if common.Some? {
      CommonIsSpelled(f, common.value.0, common.value.1);
    }
    DecodeEncode(if e.identity.Symlink? then e.identity.target else []);
  }

  /** An object is accepted as an entry exactly when it is the encoding of that entry. */
  lemma EntryIsSpelled(sha: Bytes -> Digest, v: Json, e: Entry)
    ensures EntryFromJson(sha, v) == Some(e) <==> GoodEntry(sha, e) && v == EntryToJson(e)
  {
    KindsAreTwo();
    if v.Object? && IsText(v.fields, KindKey) {
      if v.fields[KindKey].s == REGULAR_KIND && v.fields.Keys == REGULAR_KEYS {
        RegularIsSpelled(sha, v.fields, e);
      }
      if v.fields[KindKey].s == SYMLINK_KIND && v.fields.Keys == SYMLINK_KEYS {
        SymlinkIsSpelled(sha, v.fields, e);
      }
    }
    EncodedKeys(e);
  }

  lemma EncodedKeys(e: Entry)
    ensures EntryToJson(e).Object?
    ensures EntryToJson(e).fields.Keys == if e.identity.Regular? then REGULAR_KEYS else SYMLINK_KEYS
    ensures KindKey in EntryToJson(e).fields
    ensures EntryToJson(e).fields[KindKey] == Text(if e.identity.Regular? then REGULAR_KIND else SYMLINK_KIND)
  {
  }

  lemma EntriesAreSpelled(sha: Bytes -> Digest, items: seq<Json>, entries: seq<Entry>)
    ensures EntriesFromJson(sha, items) == Some(entries) <==>
            (forall e | e in entries :: GoodEntry(sha, e)) && items == EntriesToJson(entries)
  {
    var read, good := (v: Json) => EntryFromJson(sha, v), (e: Entry) => GoodEntry(sha, e);
    forall v, e ensures read(v) == Some(e) <==> good(e) && v == EntryToJson(e) {
      EntryIsSpelled(sha, v, e);
    }
    EachIsSpelled(read, EntryToJson, good, items, entries);
  }

  /** A manifest that may be written out: valid, within limits, and short enough to be hashed. */
  predicate Writable(sha: Bytes -> Digest, entries: seq<Entry>, limits: Limits) {
    && ValidManifest(entries) && WithinLimits(entries, limits)
    && (forall e | e in entries :: GoodEntry(sha, e))
    && ValidDigests(entries) && Fingerprint(sha, entries).Some?
  }

  const MANIFEST_KEYS: set<Key> := {SchemaVersion, FingerprintKey, EntriesKey}

  lemma ManifestFields(f: map<Key, Json>, entries: seq<Entry>, fingerprint: Digest)
    requires f.Keys == MANIFEST_KEYS
    ensures Object(f) == ToJson(entries, fingerprint) <==>
            && f[SchemaVersion] == Number(SUBJECT_SCHEMA_VERSION) && f[FingerprintKey] == Text(fingerprint)
            && f[EntriesKey] == Array(EntriesToJson(entries))
  {
    var g := ToJson(entries, fingerprint).fields;
    assert g.Keys == MANIFEST_KEYS;
    assert f == g <==> forall k | k in MANIFEST_KEYS :: f[k] == g[k];
  }

  lemma {:induction false} DecodedIsSpelled(sha: Bytes -> Digest, v: Json, limits: Limits, entries: seq<Entry>)
    requires FromJson(sha, v, limits) == Some(entries)
    ensures Writable(sha, entries, limits) && v == ToJson(entries, Fingerprint(sha, entries).value)
  {
    EntriesAreSpelled(sha, v.fields[EntriesKey].items, entries);
    EntriesAreGood(sha, v.fields[EntriesKey].items);
    ManifestFields(v.fields, entries, Fingerprint(sha, entries).value);
  }

  lemma {:induction false} SpelledIsDecoded(sha: Bytes -> Digest, limits: Limits, entries: seq<Entry>)
    requires Writable(sha, entries, limits)
    ensures FromJson(sha, ToJson(entries, Fingerprint(sha, entries).value), limits) == Some(entries)
  {
    var v := ToJson(entries, Fingerprint(sha, entries).value);
    assert v.fields.Keys == MANIFEST_KEYS;
    EntriesAreSpelled(sha, v.fields[EntriesKey].items, entries);
  }

  /** An object is accepted exactly when it is the encoding of the manifest that it is decoded to. */
  lemma {:induction false} JsonIsBijective(sha: Bytes -> Digest, v: Json, limits: Limits, entries: seq<Entry>)
    ensures FromJson(sha, v, limits) == Some(entries) <==>
            Writable(sha, entries, limits) && v == ToJson(entries, Fingerprint(sha, entries).value)
  {
    if FromJson(sha, v, limits) == Some(entries) {
      DecodedIsSpelled(sha, v, limits, entries);
    } else if Writable(sha, entries, limits) {
      SpelledIsDecoded(sha, limits, entries);
    }
  }
}
