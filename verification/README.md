# agent-loop: models and proofs

agent-loop supervises a coding agent: it keeps the agent's credentials, freezes the files it works
on as *subjects*, checks what the agent reports about itself, and withholds evidence that might
contain a secret.  This project models the parts of it that must stay right across crashes,
retries and hostile input, and proves what they promise.

**The default credential pair** (`Pair*.dfy`).  Two vendor files and a marker that names the hashes
of both must move together without an atomic multi-file write.  A call is the log of its durable
writes, scans and probes, and a crash leaves any prefix of it.  `PairDisk` has the disk and its
events, `PairProtocol` the calls, `PairSafety` the safety of all runs, `PairRecovery`,
`PairProgress` and `PairRuns` the crash invariant and the way back from it, `PairSessions` what a live
session may do over a journal, `PairReturns` when a recovery returns, `PairStranded` what no recovery
will touch, `PairEvidence` the rule that everything is scanned before it is installed, `PairStatus` the status report,
`PairEnrollment` bootstrap and repair, `PairStore` the imperative roll-forward.
Vendor parsers, login probes, evidence barriers and SHA-256 are parameters; a probe may rewrite
the candidate.

**Subjects** (`Paths`, `Manifests`, `Diff*`, `Policy`, `Glob`, `Reconcile`, `Numerals`, `Canonical`,
`PathText`, `ManifestJson`, `Trees`, `Scanning`, `Materialise`, `RoundTrip`, `Subject`).  A file tree
as a sorted manifest: encodings, exact diff, policy reconciliation, and the way to a tree and back.

**Rollouts** (`Rollout`, `RolloutLaws`, `RolloutResume`).  The checker folded over an append-only
event log, and the prefix witness that ties one acceptance to the next.

**Withholding** (`Withholding`, `Latch`, `LatchRuns`, `ArtifactStore`, `BlobStore`).  A one-way durable
latch and a recursive erase, shared by many handles and cut short by crashes.

**Closures and Git framing** (`Closure*`, `CatFile`, `LsTree`).  Explicit-stack walks against recursive
definitions, and length- or NUL-framed parsers against printers.

`Basics`, `Splitting` and `Sorting` are shared.  Where the code is imperative, a method with its loop
or its fields is proved equal to a function, and the laws are lemmas about that function.

Six results are findings about the code rather than confirmations.  Each states exactly when the code
does what one would expect, and all but the last come with an input for which it does not:

- a call on top of a journal can make that journal unrecoverable: `PairSessions.CallKeepsIffItHeeds`,
  `PairStranded.SecondReconcileLosesTheJournal`;
- finalisation can strand a transaction: `PairStranded.FinalizeStrands`, `PairStranded.FinalizeStrandsARun`;
- a withholding can erase without a mark: `LatchRuns.MarkedIffFirstMarker`, `LatchRuns.HalfErasedAndUnmarked`;
- a valid manifest may not be materialised: `Subject.MaterialisesIffDirectoriesFit`,
  `Subject.NestedLinkIsNotMaterialised`;
- a materialised tree may not scan: `RoundTrip.MaterialiseThenScan`, `RoundTrip.LongLinkIsNotScanned`;
- three checks of the rollout checker never fire: `RolloutLaws.RedundantChecks`.

`dafny verify dfyconfig.toml` checks the whole project.

## Model

| member | source | states |
|---|---|---|
| `PairSafety.RunsNeverMix` | src/agent_loop/credentials.py:1982-2427 | From a committed pair, after any run of recover, reconcile, finalise, open and outside interference below `transactions`, each cut short after any number of its writes, the disk is still in the journaled order, and the pairs it may settle on are the first one and those that some process journaled. Seeding and removal need not be atomic. |
| `PairSafety.CompletedRecoveryIsWhole` | src/agent_loop/credentials.py:2204-2427 | Crash atomicity: after any such run, a recovery that returns has removed the journal, and marker and both durable files name one whole pair, either the first one or a journaled one. |
| `PairSafety.CompletedRecoveryKeepsBytes` | src/agent_loop/credentials.py:2204-2427 | The same for the bytes, without hash collisions: both durable files are the first ones, or both are those that one journal write was for. |
| `PairSafety.DisciplineKeepsSafe` | src/agent_loop/credentials.py:1982-2201 | One write that obeys the order journal, Claude, Codex, marker, journal removal keeps the disk safe, and only a journal write adds a pair to those it may settle on. |
| `PairSafety.RecoverDisciplined` | src/agent_loop/credentials.py:2204-2427 | Every write of a recovery obeys that order, from any safe disk, and a recovery that returns leaves a committed pair. |
| `PairSafety.ReconcileDisciplined` | src/agent_loop/credentials.py:2718-2873 | Every write of a reconciliation obeys that order; one that reports a change leaves marker, durables and the session baseline on the same pair. |
| `PairSafety.RollForwardDisciplined` | src/agent_loop/credentials.py:2072-2201 | The roll-forward alone: from a journaled disk whose durables are each old or new, it writes Codex only after Claude and the marker only after both, even when it stops half-way. |
| `PairRecovery.RollForwardFinishes` | src/agent_loop/credentials.py:2072-2201 | From every disk that a crash of the protocol can leave, all roll-forward guards pass, every planned write is possible, and the journal is gone at the end with the marker on the new pair. |
| `PairRecovery.KeepsSound` | src/agent_loop/credentials.py:1982-2201 | The crash invariant: while the journal is there, marker and durables are each old or new, Codex is new only after Claude, the marker only after both, and a transaction is missing only once the marker is new. Every disciplined write keeps it. |
| `PairProgress.JournalRecoveryKeeps` | src/agent_loop/credentials.py:2243-2293 | Journal recovery from such a disk returns exactly when the evidence barriers admit the journaled candidates; if they refuse, nothing has changed; if it returns, no transaction is left. |
| `PairProgress.RecoveryConverges` | src/agent_loop/credentials.py:2204-2293 | Progress and confluence: journal recovery makes exactly as many writes as a measure of the disk says remain; a crash after any of them leaves a disk nearer by the writes made, and recovering from there ends on the very disk that the uninterrupted recovery ends on. |
| `PairProgress.OneStepNearer` | src/agent_loop/credentials.py:2130-2201 | Each single write of journal recovery lowers that measure by one and does not change where the recovery will end. |
| `PairSessions.CallKeepsIffItHeeds` | src/agent_loop/credentials.py:2718-2873 | From a disk with the crash invariant, any call of any session (acquire, refresh, reconcile, finalise), whole or cut short after any number of its events, over a journal or not, leaves a disk with the invariant if and only if what was done of it heeds the journal: a refresh or a probe leaves the journaled candidate, and finalisation drops nothing unless the journaled pair is in place already. |
| `PairSessions.UnheededJournalIsLost` | src/agent_loop/runtime_adapters.py:1331-1341 | A finding: after a call, whole or cut short, that does not heed the journal every recovery stops, whatever barriers and logins it is given, and changes nothing. |
| `PairSessions.SoundThroughoutIffHeedful` | src/agent_loop/workflow.py:3133-3145 | A run of calls, each cut short anywhere and with the session going on afterwards, has the crash invariant after every call if and only if every call of it heeds the journal it finds. |
| `PairSessions.RunsStaySound` | src/agent_loop/credentials.py:1982-2427 | Where every call heeds the journal it finds, the one disk that the whole run of events leads to has the crash invariant. |
| `PairReturns.RecoveryReturns` | src/agent_loop/credentials.py:2204-2427 | From every disk with the crash invariant the whole recovery returns if and only if: with a journal, the barriers admit the journaled candidates; without one, every leftover candidate is valid and admitted, and either both are the durable ones, or both sides belong to one run and each changed side is confirmed by its probe or replaced by a strictly newer valid login, with the outcome admitted too. |
| `PairReturns.UnchangedLeftoversReturn` | src/agent_loop/credentials.py:2317-2360 | Leftovers equal to their durables, of one vendor or both, never stop a recovery that is given no barriers. |
| `PairReturns.EveryCrashIsRecoverable` | src/agent_loop/credentials.py:2204-2427 | Wherever a heedful run is cut short, also between two seeds or two removals or inside finalisation, the next recovery returns exactly under those conditions; if it returns nothing is pending, and recovering again, with any ambient logins, returns and writes nothing. |
| `PairRuns.RecoverKeeps` | src/agent_loop/credentials.py:2204-2427 | A recovery that returns, from any sound disk, leaves a settled pair with no transaction of either vendor. |
| `PairRuns.ReconcileKeeps` | src/agent_loop/credentials.py:2718-2873 | A reconciliation keeps the crash invariant at every write and, when it returns, leaves each candidate on its new baseline. |
| `PairRuns.CommitKeeps` | src/agent_loop/credentials.py:2833-2873 | Journaling a pair of valid candidates of open transactions always rolls forward to the end. |
| `PairStranded.FinalizeStrands` | src/agent_loop/credentials.py:2913-2915 | A finding: finalisation drops the Codex transaction before it looks at Claude's. From an open pair it leaves a transaction that no recovery will touch exactly when the Codex candidate is the durable one, fits the history and the session baseline, and the Claude candidate is not the durable one (or the other way round, were the session to take an open Codex transaction for completed). |
| `PairStranded.StrandedStaysStranded` | src/agent_loop/credentials.py:2317-2360 | Every recovery refuses such a stranded transaction, and changes nothing. |
| `PairStranded.FinalizeStrandsARun` | src/agent_loop/credentials.py:2876-2919 | Such an input: acquire a settled pair, reconcile with nothing changed, let the Claude login refresh itself, finalise with the session that the reconciliation returned. |
| `PairStranded.FinalizeGoesOn` | src/agent_loop/credentials.py:1212-1213 | Finalising again passes over what the session has removed: nothing is left after a finalisation that returned, Claude's part alone after one that stopped there. |
| `PairStranded.UnheededJournalNeedsReview` | src/agent_loop/credentials.py:3650-3709 | After a call that does not heed its journal, status asks for a repair, and repair refuses because of the journal. |
| `PairStranded.SecondReconcileLosesTheJournal` | src/agent_loop/runtime_adapters.py:1331-1341 | Such an input: a reconciliation fails right after its journal write, the session goes on, reconciles again, and the probe of that second reconciliation rewrites the Claude candidate. |
| `PairEvidence.RecoverScansFirst` | src/agent_loop/credentials.py:2204-2427 | Scan before install: every generation that a recovery writes to a durable file was handed to that vendor's evidence barrier earlier in the same log, and before any journal the recovery wrote. |
| `PairEvidence.ReconcileScansFirst` | src/agent_loop/credentials.py:2773-2871 | The same for reconciliation. |
| `PairEvidence.PrepareScans` | src/agent_loop/credentials.py:1839-1973 | The candidate that a pending-transaction check returns was scanned by it, also when a probe or a newer ambient login replaced it. |
| `PairEvidence.JournalCandidateScans` | src/agent_loop/credentials.py:2007-2069 | A journaled candidate is scanned before it is returned. |
| `PairStatus.StatusMatchesJournalRecovery` | src/agent_loop/credentials.py:3650-3709 | On any disk with a journal, roots missing or not, status says `recovery_pending` exactly when every journal-candidate and roll-forward guard would pass without barriers. |
| `PairStatus.ReadyMeansIdle` | src/agent_loop/credentials.py:3602-3720 | On any disk, roots missing or not, status says `ready` exactly when pair recovery would return without a single write, scan or probe. |
| `PairStatus.SoundJournalIsReported` | src/agent_loop/credentials.py:3650-3709 | No journal that the protocol can leave behind is ever reported as needing repair. |
| `PairEnrollment.RepairIsExceptionAtomic` | src/agent_loop/credentials.py:3942-4023 | A repair that fails, before or at any of its three writes, and whether or not the failing write took effect, leaves durables, marker and account roots as they were. |
| `PairEnrollment.BootstrapIsExceptionAtomic` | src/agent_loop/credentials.py:3432-3541 | The same for the bootstrap, which succeeds only on a wholly absent pair. |
| `PairEnrollment.RepairInstalls` | src/agent_loop/credentials.py:3942-4007 | A repair that returns leaves the source pair committed, and status says `ready`. |
| `PairEnrollment.RepairCrashIsNeverMixed` | src/agent_loop/credentials.py:3942-4023 | From any disk, with any sources and any failing write: a hard crash at any step of a repair or of its rollback is reported `ready` only if the marker names both files and is the old marker or the new pair's. |
| `PairEnrollment.RepairCrashKeepsBytes` | src/agent_loop/credentials.py:3942-4023 | The same for the files themselves: without hash collisions a `ready` crash has both new files, or the old marker and, if that named the old files, both of these. |
| `PairEnrollment.BootstrapCrashIsNeverMixed` | src/agent_loop/credentials.py:3432-3541 | A hard crash at any step of a bootstrap or of its rollback is reported `ready` only with the new pair; a pair that is not wholly absent is not written to. |
| `PairEnrollment.BootstrapCrashIsNotReady` | src/agent_loop/credentials.py:3504-3521 | A hard crash of a bootstrap before its marker write is never reported `ready`. |
| `PairStore.Store.RollForward` | src/agent_loop/credentials.py:2072-2201 | The imperative roll-forward, write by write, makes exactly the writes of its specification from every disk, stops where it stops, and leaves the same disk. |
| `PairStore.Store.InstallPair` | src/agent_loop/credentials.py:2130-2172 | Its first half: Claude, then Codex, then the marker, each only if needed, and a non-matching Codex candidate noticed only after the Claude write. |
| `PairStore.Store.Finish` | src/agent_loop/credentials.py:2174-2201 | Its second half: both transactions removed or re-based, Claude's first, then the journal removed; a missing directory stops it with the earlier writes made. |
| `PairStore.Store.CheckBound` | src/agent_loop/credentials.py:2084-2147 | The guards before the first write, as one condition on marker, durables and candidates. |
| `PairStore.AuthGenerationHistory.Append` | src/agent_loop/credentials.py:346-362 | The reply tells a new value from one already held and from a refusal; the history stays free of duplicates and within its count and byte bounds; a refused append changes nothing; the running total is the sum of the sizes. |
| `PairStore.HistoryHoldsEachOnce` | src/agent_loop/credentials.py:346-362 | Remembering a series of values is refused exactly when its distinct values exceed the count or the byte bound; otherwise the history holds exactly those, each once. |
| `PairStore.HistoryOnlyGrows` | src/agent_loop/credentials.py:346-362 | What is held after a series is held in the same places after any longer one. |
| `PairDisk.Perform` | src/agent_loop/credentials.py:2156-2201 | A series of writes that stops has made a prefix of the plan, one that ends has made all of it. |
| `Diff.DeltaIsExact` | src/agent_loop/manifests.py:413-471 | The three dictionary and list passes, sorted, list exactly the changes of the declarative delta (modify, rename by rank within one identity, delete, create), each once, in strictly rising order of their anchors. |
| `Diff.UnsortedAnchorsDiffer` | src/agent_loop/manifests.py:413-426 | The sort anchors of all changes are pairwise distinct, so the sort order is strict. |
| `Diff.PartnerIsPaired` | src/agent_loop/manifests.py:448-463 | The loop that consumes the queue of added entries pairs exactly the entries of equal rank within their identity. |
| `DiffLoops.DiffManifests` | src/agent_loop/manifests.py:429-471 | The loops over dictionaries, queues and sets compute that delta. |
| `DiffLoops.PairRenames` | src/agent_loop/manifests.py:454-465 | The rename loop with its queues computes the rank pairing, the unpaired deletions and the set of new paths. |
| `DiffLaws.DiffIsEditScript` | src/agent_loop/manifests.py:429-471 | Applying the delta to the base table never fails and yields exactly the candidate table. |
| `DiffLaws.DiffIsEmptyIffEqual` | src/agent_loop/manifests.py:429-471 | The delta is empty exactly when the manifests are equal. |
| `DiffLaws.SwappedDelta` | src/agent_loop/manifests.py:429-471 | Swapping the arguments mirrors every change. |
| `DiffLaws.DiffUndoes` | src/agent_loop/manifests.py:429-471 | Applying the delta and then the swapped delta leads back to the base. |
| `DiffLaws.TouchedIffDifferent` | src/agent_loop/manifests.py:429-471 | Some change touches a path exactly when its entries differ. |
| `DiffLaws.TouchedOnce` | src/agent_loop/manifests.py:429-471 | No path is touched by two changes. |
| `DiffLaws.RenamesAreMaximum` | src/agent_loop/manifests.py:448-463 | Within each identity the number of renames is the smaller of the two counts, a maximum matching. |
| `DiffLaws.NoRenameIsMissed` | src/agent_loop/manifests.py:448-470 | No identity is both deleted and created. |
| `Manifests.ByPathIsInjective` | src/agent_loop/manifests.py:194-220 | A sorted manifest is determined by its lookup table. |
| `Reconcile.ReconcileCandidate` | src/agent_loop/manifests.py:474-529 | The loops and filters compute the specified outcome, including the first protected paths listed on refusal, and return a valid manifest. |
| `Reconcile.RefusedIffProtectedDiffers` | src/agent_loop/manifests.py:485-498 | Refusal for protection happens exactly when some protected path has a different entry. |
| `Reconcile.ReconciledIffProtected` | src/agent_loop/manifests.py:474-529 | A candidate within the limits is reconciled exactly when every protected path is unchanged. |
| `Reconcile.ProtectedIsUnchanged` | src/agent_loop/manifests.py:474-529 | On success every protected path is the same in base, candidate and authoritative manifest. |
| `Reconcile.NothingIsLost` | src/agent_loop/manifests.py:500-529 | Every changed path shows up: a semantic one in a semantic change, an opaque one in a semantic or opaque change, a discard-only one in the discarded changes. |
| `Reconcile.DeltaSplits` | src/agent_loop/manifests.py:505-529 | Every change of the authoritative delta falls into exactly one of semantic, opaque and discard-only deletion, and these hold nothing else. |
| `Reconcile.NoneProtected` | src/agent_loop/manifests.py:505-529 | No change of the authoritative delta touches a protected path. |
| `Reconcile.ReconcileIsIdempotent` | src/agent_loop/manifests.py:474-529 | Reconciling the authoritative manifest again succeeds and returns it with the same delta and classes. |
| `Reconcile.ClassifiedByPaths` | src/agent_loop/models.py:460-471 | A change is protected if any path is, discard-only or opaque only if every path is, and semantic otherwise. |
| `Policy.GitIsAComponent` | src/agent_loop/models.py:440-450 | The four byte tests find exactly the paths with a `.git` component, at any depth. |
| `Glob.MatchFrom` | src/agent_loop/models.py:352-373 | The indexed matcher, with its run-skipping loop, early return and backtracking, decides exactly the recursive relation, and ends because the pattern index grows. |
| `Glob.PathMatches` | src/agent_loop/models.py:345-375 | The whole matcher decides the relation on the components of path and pattern. |
| `Glob.MatchIsCover` | src/agent_loop/models.py:345-375 | A path matches exactly when it can be cut into consecutive pieces, one per pattern component, where `**` takes any number of components and anything else takes one. |
| `Glob.RunsCollapse` | src/agent_loop/models.py:356-360 | Skipping a run of `**` components does not change what is matched. |
| `Canonical.CanonicalIsInjective` | src/agent_loop/manifests.py:262-268 | Equal canonical bytes mean equal manifests. |
| `Canonical.FingerprintIdentifies` | src/agent_loop/manifests.py:262-272 | Where the digest does not collide on the two encodings, equal fingerprints mean equal manifests. |
| `Canonical.EncodeAtomsInjective` | src/agent_loop/manifests.py:33-42 | Length-prefixed atoms are read back one way only. |
| `Canonical.EntryAtomsInjective` | src/agent_loop/manifests.py:45-62 | The six atoms of an entry determine it: mode and size numerals and the raw digest included. |
| `ManifestJson.JsonIsBijective` | src/agent_loop/manifests.py:274-319 | An object is accepted, with a given manifest as its result, exactly when the manifest is valid and within limits and the object is its encoding, fingerprint included. |
| `ManifestJson.EntryIsSpelled` | src/agent_loop/manifests.py:65-160 | The same for one entry: exact key set, kind, canonical base64, matching display text, six-digit mode, recomputed target digest. |
| `ManifestJson.ModeTextIsOctal` | src/agent_loop/manifests.py:65-88 | The mode text of every entry is the six octal digits of its mode. |
| `PathText.SpelledOneWay` | src/agent_loop/models.py:42-62 | Exactly one base64 text is accepted for each path, the one that encoding writes (section 4 of RFC 4648). |
| `PathText.DecodeEncode` | src/agent_loop/models.py:42-48 | Decoding an encoding gives the bytes back, for every length and padding. |
| `PathText.DisplayPath` | src/agent_loop/models.py:65-84 | The loop computes the escaped display form. |
| `PathText.DisplayIsInjective` | src/agent_loop/models.py:65-84 | Two paths with the same display form are equal. |
| `Materialise.ValidateRecords` | src/agent_loop/filesystem.py:829-863 | The loop with its running sets and totals accepts exactly the record sets that are valid one by one, distinct, within the byte budget, free of path-parent conflicts and within `max_files` together with their parents; and it returns them sorted. |
| `Materialise.ConfinedRoot.MaterializeRecords` | src/agent_loop/filesystem.py:866-933 | Nothing is written unless all checks pass and the root is empty; then the tree is the one the sorted records describe. |
| `Materialise.ConfinedRoot.WriteRecord` | src/agent_loop/filesystem.py:884-916 | One record adds the directories missing above it and its own file or link. |
| `Materialise.BuiltHolds` | src/agent_loop/filesystem.py:884-916 | From an empty root, records none of which lies at or above another build a tree with exactly those leaves, exactly the directories above them, and nothing else. |
| `Materialise.PlaceLookup` | src/agent_loop/filesystem.py:884-916 | Placing one record adds it and its parents and changes no other entry. |
| `Scanning.Scanner.ScanDirectory` | src/agent_loop/filesystem.py:688-806 | The recursive scan visits the entries in byte order, a directory before what is below it, with both budgets running, and stops exactly where the specification does. |
| `Scanning.ScanRecords` | src/agent_loop/filesystem.py:809-826 | The whole scan computes the sorted records of the tree or refuses it. |
| `Scanning.ScanListIsTotalled` | src/agent_loop/filesystem.py:671-685 | Running budgets refuse exactly when the totals are too large: the order of visiting does not matter. |
| `RoundTrip.MaterialiseThenScan` | src/agent_loop/filesystem.py:809-974 | On an empty root any accepted record set scans back to exactly the sorted records within the same budgets, if and only if no symlink target exceeds `max_file_bytes`; otherwise the scan refuses. |
| `RoundTrip.LongLinkIsNotScanned` | src/agent_loop/filesystem.py:688-806 | An input for the other half: one symlink whose target exceeds `max_file_bytes` is accepted and written, and the scan refuses what was written. |
| `RoundTrip.WalkCounts` | src/agent_loop/filesystem.py:857-862 | The scan counts as many namespace entries as the writer counted paths and parents. |
| `Subject.CheckAncestors` | src/agent_loop/manifests.py:214-220 | The loop with its set of earlier paths computes the one-pass check. |
| `Subject.OnePassFindsAll` | src/agent_loop/manifests.py:209-220 | Over sorted, unique paths the one-pass ancestor check accepts exactly the path sets that the set-based check accepts. |
| `Subject.ResolveManifest` | src/agent_loop/filesystem.py:955-974 | Resolving stops at the first blob whose size or digest does not match its entry. |
| `Subject.ManifestSurvives` | src/agent_loop/filesystem.py:936-974 | Resolve, materialise, scan, rebuild: the result is the original manifest, exactly when no symlink target exceeds the file limit. |
| `Subject.MaterialisesIffDirectoriesFit` | src/agent_loop/filesystem.py:857-862 | A finding: a manifest that is valid and within limits can be materialised exactly when its entries together with their parent directories stay within `max_files`, which the manifest's own limit does not count. |
| `Subject.NestedLinkIsNotMaterialised` | src/agent_loop/filesystem.py:857-862 | Such an input: one nested symlink under a limit of one file is a valid manifest within its limits, and is not materialised. |
| `Subject.BuildManifestFromScan` | src/agent_loop/manifests.py:331-378 | The loops of the rebuild, with their running totals, compute the manifest of the records or refuse them. |
| `Rollout.ParseRolloutSelection` | src/agent_loop/codex_client.py:1034-1240 | The whole checker computes its specification. |
| `Rollout.ScanLines` | src/agent_loop/codex_client.py:1095-1219 | The loop with its six variables is the fold of one step per line, and the first refusal is final. |
| `RolloutLaws.AcceptedIffRollout` | src/agent_loop/codex_client.py:1095-1219 | A log is accepted exactly when it is one good session line followed, neutral lines aside, by disjoint complete turns, each with at least one selection line and a constant selection. |
| `RolloutLaws.SelectedAreCompletedThenActive` | src/agent_loop/codex_client.py:1095-1209 | At every event the selected turns are the completed turns followed by the active turn if it has been selected; started turns are those and the active one. |
| `RolloutLaws.RedundantChecks` | src/agent_loop/codex_client.py:1204-1219 | A finding: the checks for non-contiguous selections, omitted session metadata and disagreeing lists can never fire. |
| `RolloutLaws.LogIsInjective` | src/agent_loop/codex_client.py:1095-1219 | A log tells one history of turns only. |
| `RolloutResume.ParseAcceptsExactly` | src/agent_loop/codex_client.py:1034-1240 | Which byte strings are accepted under a given expectation, and with which evidence, in both directions. |
| `RolloutResume.ResumeExtendsHistory` | src/agent_loop/codex_client.py:1081-1240 | If a log is accepted and a later one is accepted as its resume, then, unless the two compared prefixes collide, the first is a proper byte prefix, every earlier turn keeps its id, model and effort, and exactly one turn is added. |
| `RolloutResume.SeriesCountsTurns` | src/agent_loop/codex_client.py:1220-1240 | In a series of `k` resumes the last log tells `k + 1` turns, every earlier log is a prefix of it, and every earlier turn is kept. |
| `LatchRuns.LatchNeverClears` | src/agent_loop/artifacts.py:258-261 | Once the marker is there, no run of opens, closes and calls through any handles, nor any work on a tree handed out, cut short anywhere, clears it, adds anything to the tree or returns content. |
| `LatchRuns.RunMarksFirst` | src/agent_loop/artifacts.py:587-644 | In every run, whatever else is done and whatever work is done on a tree that was handed out: a withholding or scrubbing turn has the marker in place at every crash point after its first removal if and only if the marker was there before, its own first marker write takes effect, or it removes nothing; and then the marker stays to the end of the run. |
| `LatchRuns.MarkedIffFirstMarker` | src/agent_loop/artifacts.py:592-624 | A finding: from any state, one withholding keeps "erased means marked" at every crash point exactly when the marker is there already, its first marker write takes effect (even if it then raises), or it removes nothing. |
| `LatchRuns.HalfErasedAndUnmarked` | src/agent_loop/artifacts.py:592-624 | Such an input: two files, both marker writes and the second removal fail; one file is gone, nothing says so, and a new handle reads the other. |
| `LatchRuns.WithholdCompletes` | src/agent_loop/artifacts.py:587-644 | A withholding without faults ends marked and with an empty tree, whatever an earlier one left. |
| `LatchRuns.WithholdLeavesLatch` | src/agent_loop/artifacts.py:626-636 | From any state and even when erasing fails, the latch is left behind exactly when it was there or one of the two marker writes takes effect. |
| `LatchRuns.ReopenedIsWithheld` | src/agent_loop/artifacts.py:172-260 | Once a withholding or scrubbing turn of a run has removed something after its first marker write took effect, a handle opened after the run refuses to read. |
| `LatchRuns.TakingKeepsLeaves` | src/agent_loop/artifacts.py:459-485 | While a tree is being erased, every file and link that is still there is unchanged. |
| `Withholding.EraseEmpties` | src/agent_loop/artifacts.py:459-485 | The recursive erase is possible step by step, each directory empty when it is removed, and ends with an empty tree. |
| `Latch.ScrubFindsMatches` | src/agent_loop/artifacts.py:516-556 | A scrub that ends reports a collision exactly when some path, link target or content of the tree matches, although it does not look below sensitive directories; it ends unless it reaches an unsafe file type. |
| `ArtifactStore.ArtifactStore.Acquire` | src/agent_loop/artifacts.py:330-341 | Only the outermost level takes the lock file; a closed handle is refused. |
| `ArtifactStore.ArtifactStore.Release` | src/agent_loop/artifacts.py:343-352 | Only the outermost level gives it back. |
| `ArtifactStore.ArtifactStore.ReadBytes` | src/agent_loop/artifacts.py:733-743 | Refused once the latch is seen, an error for a file longer than `max_bytes`; the lock is as it was afterwards. |
| `ArtifactStore.ArtifactStore.WriteBytes` | src/agent_loop/artifacts.py:695-707 | Silently dropped once the latch is seen, one whole-file write otherwise. |
| `ArtifactStore.ArtifactStore.EnsureDirectory` | src/agent_loop/artifacts.py:685-693 | Dropped once the latch is seen, otherwise the missing directories are made. |
| `ArtifactStore.ArtifactStore.WithholdAllContent` | src/agent_loop/artifacts.py:578-644 | Marker, erase, marker again, with the flags and the reply for every combination of failing steps, a marker write that raises after taking effect and an erase that fails after its last removal included. |
| `ArtifactStore.ArtifactStore.ScrubKnownSecrets` | src/agent_loop/artifacts.py:487-576 | Nothing is written unless a secret may have been retained; a failed scrub is remembered and forces withholding. |
| `ArtifactStore.ArtifactStore.VisitDirectory` | src/agent_loop/artifacts.py:518-556 | The recursive visit computes the specified report, whatever order the names come in. |
| `ArtifactStore.ArtifactStore.Close` | src/agent_loop/artifacts.py:646-671 | Closing is refused while an operation on the retained tree is under way. |
| `BlobStore.PutThenRead` | src/agent_loop/artifacts.py:782-812 | What was put is read back under its digest, by any handle that is not withheld. |
| `BlobStore.OtherBlobsStay` | src/agent_loop/artifacts.py:782-802 | Putting one blob leaves every other one as it was. |
| `CatFile.ParseCatFileBatch` | src/agent_loop/git_source.py:815-874 | The loop with its moving position fills the dictionary of exactly the frames of the specification, or refuses. |
| `CatFile.ReadFrame` | src/agent_loop/git_source.py:824-868 | One turn of the loop finds header, payload and end of the frame at its position. |
| `CatFile.AcceptedIffRendered` | src/agent_loop/git_source.py:815-874 | The batch is accepted exactly when it is the rendering of frames that answer the requested ids in order, every byte consumed. |
| `CatFile.FrameReadsBack` | src/agent_loop/git_source.py:824-868 | A rendered frame is read back whatever bytes its payload holds and whatever follows it. |
| `CatFile.PrintedReadsBack` | src/agent_loop/git_source.py:815-874 | Printing any blobs within bounds and parsing the stream returns exactly those blobs. |
| `CatFile.ParseIntReadsNumeral` | src/agent_loop/git_source.py:849-856 | The size field that Git prints is read as the number it stands for. |
| `LsTree.ParseLsTree` | src/agent_loop/git_source.py:737-812 | The loop with its set of paths computes the listing or refuses it. |
| `LsTree.ListingIffRendered` | src/agent_loop/git_source.py:737-812 | A listing is accepted, with given entries, exactly when it is the NUL-framed rendering of acceptable entries with distinct paths, also when paths hold tabs or newlines. |
| `LsTree.RecordIsRendered` | src/agent_loop/git_source.py:751-811 | The same for one record. |
| `ClosureWalk.WalkClosure` | src/agent_loop/provenance.py:187-282 | From a directory or from one regular file, the hashing walk with its explicit stack ends, accepts exactly the acceptable closures of the recursive definition, and lists exactly its lines with its entry and byte counts. |
| `ClosureWalk.Walk` | src/agent_loop/provenance.py:188-270 | The stack loop alone, with the sum of lines listed and directories waiting as its invariant. |
| `ClosureWalk.VisitAddsEntry` | src/agent_loop/provenance.py:211-270 | Visiting one name adds exactly its share of the closure, or shows the closure unacceptable. |
| `ClosureCopy.CopyClosure` | src/agent_loop/provenance.py:424-557 | From a directory or one regular file, the copy succeeds exactly when the root is within the bounds and its counts are those expected by the caller, and leaves in the destination exactly the visible entries with their modes and contents. |
| `ClosureCopy.FinishedIsCopy` | src/agent_loop/provenance.py:473-549 | When the stack is empty the destination, written in place, is the visible tree. |
| `ClosureLaws.HashedCanBeCopied` | src/agent_loop/provenance.py:135-557 | A closure that was hashed, of a file or of a directory, can be copied within the same bounds when the hashed counts are what the copy expects. |
| `ClosureLaws.CopyHasSameClosure` | src/agent_loop/provenance.py:135-557 | Hashing a copy of a quiescent tree lists the same lines with the same counts. |
| `ClosureLaws.CopyHasSamePreimage` | src/agent_loop/provenance.py:280-295 | Whatever order the two walks listed their lines in, original and copy are hashed to the same byte stream. |
| `ClosureLaws.NormalisingIsIdempotent` | src/agent_loop/provenance.py:560-576 | Normalising modes twice is normalising them once. |
| `ClosureLaws.NormalisedKeeps` | src/agent_loop/provenance.py:560-576 | Names, contents and the executable distinction survive normalisation, at every path. |
| `ClosureStream.StreamIsInjective` | src/agent_loop/provenance.py:285-292 | Equal record streams mean equal record lists: the kind byte decides whether a digest follows. |
| `ClosureStream.PreimageIdentifies` | src/agent_loop/provenance.py:150-154 | Two closures are hashed from the same bytes exactly when they are of one kind and hold the same lines equally often. |

## Left out

- PairSessions.RunsStaySound: takes the seeding and the removal of a transaction directory as one step each, where the code writes `transaction.json` last and removes with `rmtree`; `PairSafety.RunsNeverMix` does not need this.
- PairReturns.EveryCrashIsRecoverable: takes both as one step too, for the same reason.
- `retained_filesystem` (`src/agent_loop/artifacts.py:354-389`) as a method of the handle: it is a call of `LatchRuns` that makes arbitrary events on the tree.
- Which of two faults a closure walk reports first.
- PairEnrollment.RepairIsExceptionAtomic: assumes that the rollback itself does not fail.
- PairEnrollment.RepairCrashIsNeverMixed: takes the removal of a new account root in a rollback (`_remove_relative_tree`) as one step, `RemoveRoot`; a crash half-way through that removal is not modelled, there or in `PairEnrollment.BootstrapCrashIsNeverMixed`.
- Rollout.ParseRolloutSelection: decoding one line (JSON, identifiers, timestamps, forbidden markers) is an oracle that yields one item, so the order of two refusals within one line is not modelled.
- Glob.MatchFrom: `fnmatch` inside one component is a parameter, and the memo table of `functools.cache` is left out because it does not change the result.
- The `busy` status and all waiting for locks: profile and account locks are held for the length of a call.
- Recovery of the standalone, non-default credential transactions, which reject a baseline mismatch (`src/agent_loop/credentials.py:923-927`).
- The contents of the disposable probe home of an ambient login: only its result and what it hands to the barrier are modelled.
- Credential generations are integers here; the vendor parsers compare tuples.
- The bytes of marker, journal and metadata files: they are values with one spelling each.
- File modes, owners, extended attributes, inode identity checks, fsync and timestamps, except the modes that manifests and closures record.
- JSON and TOML text: JSON objects are values whose keys are the format's names or others.
- Glob patterns are not validated, and the default pattern lists are parameters of the policy.
- Special files appearing during a scan, and failing system calls, in the tree modules.
- The text of an error, in all modules.
- The secret detectors: whether bytes carry a known secret is a predicate on raw and on retained bytes.
- The thread lock inside one handle; handles are processes that hold the lock file one at a time.
- Process supervision, sandboxes, preflight, managed policy, command line, prompts, configuration, receipts and the state table: validators and plumbing with local properties only.
