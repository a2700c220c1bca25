# CIRISPersist, verified

A Dafny model of the parts of CIRISPersist whose correctness spans several
functions or a whole run, with proofs of what they keep.

- **Ingest, journal and queue.** A batch is parsed, verified, refused on named
  grounds, scrubbed on a copy, signed per component, decomposed, scope-gated,
  minted and inserted (`IngestModel`, `IngestPipeline`, `IngestProperties`). An
  outage journal hands out sequence numbers and replays in order (`Journal`). A
  single persister drains a bounded channel over both, as a step machine in which
  producers submit at any time, every write may fail, and the process may crash
  between any two steps and start again (`Persister`, `PersisterProofs`,
  `PersisterTheorems`, `PersisterReplay`).
- **The encrypted key/value store.** Blinded, sealed rows against a plain map, the
  write-once verifier row, and the opener that chooses a root key (`EncryptedKv`,
  `EncryptedKvProofs`).
- **Build-cache units.** Sealing, pruning and repairing a cargo target directory, and
  the time bound for units without a manifest (`CacheUnits`, `CacheProofs`).
- **One manifest, two SQL dialects.** The trace-summary select list as SQLite and as
  Postgres, given meaning under SQL's NULL rules (`SummarySql`).
- **Mutation scopes.** Line ranges and the diff built from them (`ScopeRanges`), the
  filterset tokenizer and parser (`FilterParser`, `FilterProofs`, `FilterMatchers`),
  and the derived feature matrix (`FeatureMatrix`).
- **The audit log.** Per-tenant hash chains, their append and their verification
  (`AuditChain`).

`Common` holds options, results, JSON values, names in order and list lemmas.

Code that works by changing things is modelled by methods and classes proved against
specification functions; the theorems are about those functions. Cryptography is
symbolic: hashes, MACs, signatures and seals are datatype constructors, hence
injective, and opening succeeds exactly under the sealing key and nonce. What the code
calls but does not define (the scrubber, directory reads, the clock, the hardware
keyring, nonces, regular-expression compilation, text rendering in SQL engines) is a
parameter, so a theorem holds for all of its answers, and for the faults that are modelled;
"Left out" names those that are not.

`dafny verify dfyconfig.toml` verifies the project.

## Where the code and its documentation part

The model follows the code. Each difference is a lemma named here.

- A replay halts on every handler error, so a journaled batch that later attempts refuse
  blocks the journal for good, although the persister's comment says such a batch is
  dropped (src/queue.rs:301-304 against src/queue.rs:358-362):
  `PersisterReplay.RefusedHeadBlocks`, with a run that gets there in
  `PersisterReplay.OutageBlocksJournal`, what brings a node to it in
  `PersisterReplay.LateTombstoneBlocks`, and the exact condition in
  `PersisterReplay.CanDrainIff`.
- A batch reported as lost may have its event rows stored already:
  `PersisterReplay.LostMayHaveLanded`. `PersisterTheorems.ExactIffNoStrayStep` names the
  steps that do it; without one the store equals the persisted batches.
- The LLM-call insert has no conflict clause (src/store/sqlite.rs:1463-1490), so a replayed
  batch that succeeds and is not purged, after a failed purge or a crash, has its LLM rows
  stored twice while its event rows stay as they are: `PersisterReplay.UnpurgedRepeats`.
  Without such a step they are stored once: `PersisterTheorems.LlmRowsOnce`.
- The per-component signature is made over the stored batch and not over the scrubbed
  copy (src/ingest.rs:807-809), so a row's "original" content hash always equals the hash
  of the payload beside it: `IngestProperties.RowsVerifyAlone`.
- A directory fault while reading a PQC key is a verification error, which is not
  retried, where the same fault on the classical key is a store error, which is
  (src/ingest.rs:1421-1642): `IngestProperties.BatchRetriesIff`.
- The module text of the audit log gives the first entry a zero `prev_hash` and every entry
  the hash of its own content. The append also admits a bridge from another log; a time
  finer than a microsecond, of which the row keeps the microseconds while its hash covers
  all of it (src/audit/sqlite.rs:300-302 and 385, with the warning at
  src/audit/verify.rs:82-88); and a year outside 0 to 9999, whose timestamp text cannot be
  read back. Then verification reports a break, a hash mismatch, or an error:
  `AuditChain.OpeningIsAdmitted`, `AuditChain.BuiltLogBreaksWhere`, with the exact
  condition in `AuditChain.BuiltLogVerifiesIff`.
- Verification of an audit log does not report entries missing at either end of a range:
  `AuditChain.VerifiesIffStretch`, `AuditChain.TruncationPasses`.
- The summary contract says the dialects cannot differ; they do on integers past 32 bits
  (`SummarySql.IntegerFieldsIff`) and, for text maxima, under a Postgres collation that is
  not bytewise (`SummarySql.TextAgreesIff`).
- A manifest line is a file name, so a name with a line break in it is not protected:
  `CacheProofs.SealProtectsIff`. The bound for units without a manifest misses a lost file
  only if that file is newer than the cutoff (`CacheProofs.MayMissIff`), which two prune
  cycles can bring about (`CacheProofs.TwoCyclesLoseAFile`) and calm cycles cannot
  (`CacheProofs.RunUnitsSurviveCycles`). A cycle keeps lost files older than surviving ones
  exactly when it is calm (`CacheProofs.SoundIffCalm`), and cycles are calm in which nothing
  enters that is older than the cutoff the tree shows (`CacheProofs.QuietCyclesAreCalm`).
- The claim that a new feature cannot be forgotten needs the plan's names not to collide:
  `FeatureMatrix.CoverageIff`. The repository's own plan meets it.

## Model

| member | source | states |
|---|---|---|
| Journal.NumbersAreDistinct | src/journal.rs:85-107 | In every interleaving of reservations, commits, failures and purges, the numbers one process draws are distinct. |
| Journal.NoAppendOverwrites | src/journal.rs:65-107 | With commits in reservation order, over any failed commits, purges, crashes and reopens, the stored counter stays above every key ever stored and no commit lands on a key used before. |
| Journal.SwappedCommitsLoseAnEntry | src/journal.rs:85-107 | Two appends whose commits swap, then a reopen: the next append replaces a queued batch, so the ordering is needed. |
| Journal.ReopenSafeIff | src/journal.rs:38-83 | A file can take any number of appends after a reopen without losing an entry exactly when its counter is above its keys. |
| Journal.JournalFile.Open | src/journal.rs:38-83 | Opening reads the file back unchanged and resumes at its counter, or at 1. |
| Journal.JournalFile.Append | src/journal.rs:85-107 | The entry and the counter land together or not at all, and the number is spent either way; where the counter is above the keys the entry goes last in replay order and it stays so. |
| Journal.JournalFile.Replay | src/journal.rs:119-146 | Whatever the file holds, replay calls the handler in key order, purges exactly the completed prefix, leaves exactly the suffix from the failing entry, and terminates. |
| Journal.JournalFile.Purge | src/journal.rs:149-165 | A purge removes its entry and nothing else, or nothing. |
| Journal.JournalFile.PendingCount | src/journal.rs:168-180 | The count is the number of entries replay would meet. |
| IngestPipeline.VerifyTraces | src/ingest.rs:714-737 | Every trace is verified in order and the first failure is the batch's error. |
| IngestPipeline.RefuseNamedTraces | src/ingest.rs:566-643 | The memo of the node's role never changes a verdict: the outcome is that of judging each trace afresh. |
| IngestPipeline.ComputePreScrubHashes | src/ingest.rs:1162-1181 | One hash per component in document order across the batch, or the first error. |
| IngestPipeline.SignScrubEnvelopes | src/ingest.rs:1304-1361 | One envelope per component in the same flat order, each signed over that component's own hash; the only failure is the signer's. |
| IngestPipeline.DecomposeTrace | src/store/decompose.rs:51-220 | The loop that fills both row lists yields the decomposition, or its first error. |
| IngestPipeline.WriterAdmission | src/ingest.rs:1381-1419 | The per-batch cache answers as resolving the writer afresh does. |
| IngestPipeline.GateStampedRow | src/ingest.rs:894-977 | Self-target resolution and the roster gate, through the cache, decide as without it. |
| IngestPipeline.StampTrace | src/ingest.rs:826-993 | Each row takes the next envelope: the index never runs out and advances by the trace's component count. |
| IngestPipeline.AssembleTraces | src/ingest.rs:811-1013 | Over all traces the shared envelope index ends at the number of envelopes. |
| IngestPipeline.PrepareMethod | src/ingest.rs:694-1013 | The steps before the first write, in the code's order, with the code's errors. |
| IngestPipeline.MintAttestations | src/ingest.rs:1022-1067 | Each attestation is minted unless its id exists or the mint is refused, and the two counts are the mints that landed and those that did not. |
| IngestPipeline.Backend.InsertTraceEventsBatch | src/ingest.rs:1069-1081 | One transaction: all rows keyed and first write kept, with exact inserted and conflicted counts, or nothing. |
| IngestPipeline.ReceiveAndPersistWith | src/ingest.rs:694-1081 | Any error that is not a store error leaves events, LLM rows and attestations unchanged; otherwise the tables are the specified ones and the summary accounts for every row. |
| IngestProperties.AdmittedIff | src/ingest.rs:694-1013 | A batch is admitted exactly when it parses, scrubber and signer give what they must, and every trace verifies (in Full mode), clears the named grounds, can be read and hashed, may be written under its scope, and has a scrubbed copy that can be attested. |
| IngestProperties.RowsFollowComponents | src/ingest.rs:826-860 | At the flat index of component j of trace i stands that component's payload, hash and signature, under the key, signer and scope of that trace and with the attempt index the component carries; there are as many rows as components. |
| IngestProperties.IndicesSeparateKeys | src/store/decompose.rs:107-130 | Components with different attempt indices are stored under different keys. |
| IngestProperties.LlmRowsFollowCalls | src/store/decompose.rs:209-260 | The LLM rows of a success are, trace by trace and in order, those of the components that ship a call, with the call's columns and the component's in place of a parent it does not name. |
| IngestProperties.DecomposesIff | src/store/decompose.rs:51-220 | A trace decomposes exactly when each component carries a readable attempt index and, if an LLM call, a readable summary that names its parents where the version demands it. |
| IngestProperties.AttemptIndexErrors | src/schema/trace.rs:69-100 | Which error a missing, negative, too large or mistyped attempt index gives (one past 64 bits is mistyped), and which versions read an absent one as 0. |
| IngestProperties.RowsVerifyAlone | src/ingest.rs:407-433 | Every stored signature verifies against a preimage rebuilt from that row's own columns and payload. |
| IngestProperties.RowsInScope | src/ingest.rs:894-977 | Read off the directory: a self row targets the identity of the signer or the signer; a family row a family of the writer's principal; a community or affiliations row one of its communities. |
| IngestProperties.GateDecides | src/federation/admission.rs:1875-1905 | Scope by scope: exactly which rows the gate passes, what it makes of them, and what each other row is refused for. |
| IngestProperties.OutsiderRefusesBatch | src/ingest.rs:894-977 | A row for a roster its writer is not on refuses the whole batch. |
| IngestProperties.CallerTargetsDoNotCount | src/ingest.rs:894-930 | Batches that differ only in the targets callers wrote on self rows are stored alike. |
| IngestProperties.RecordIgnoresScrubber | src/ingest.rs:755-781 | Two successful attempts at one batch store the same payloads under the same keys, whatever scrubber, directory or mode they met. |
| IngestProperties.AttestationsIgnoreRecord | src/ingest.rs:994-1009 | Attestations depend on the scrubbed copy alone. |
| IngestProperties.AttestationsProject | src/ingest.rs:54-65 | Attestation i of a success names scrubbed trace i, its agent, signer and run kind; up to a mebibyte it holds the trace and projects to its decomposition, past that it holds its hash, length and component count and projects to nothing. |
| IngestProperties.FullModeVerifies | src/ingest.rs:714-737 | Success in Full mode means every trace verified under directory keys, and the reported count says so. |
| IngestProperties.VerifyFailsWith | src/ingest.rs:1421-1642 | For each error, exactly when verifying a trace ends in it. |
| IngestProperties.NamedRefusalsHold | src/ingest.rs:566-643 | No success holds a mock trace on a canonical node or a tombstoned trace of a non-person. |
| IngestProperties.RefuseTraceMeans | src/ingest.rs:566-643 | For each outcome, exactly when a trace is refused on named grounds or passes, a trace's own run kind going before its profile's. |
| IngestProperties.TreatmentMatchesLabel | src/ingest.rs:782-803 | No success stores a full-traces label without a named-entity pass. |
| IngestProperties.BatchRetriesIff | src/ingest.rs:1421-1642 | A batch whose i-th trace is the first not to verify is retried exactly when that trace's classical key read faulted; a fault on its PQC key read refuses the batch. |
| IngestProperties.CallMints | src/ingest.rs:1022-1067 | A call keeps every attestation, adds one for every trace whose mint landed, and adds none that is not of its batch. |
| IngestProperties.ReinsertIsNoop | src/ingest.rs:1069-1081 | Inserting a batch already stored changes nothing. |
| IngestProperties.InsertRowsKeys | src/ingest.rs:1069-1081 | Inserting adds exactly the rows' keys and touches no stored row. |
| PersisterProofs.RunInv | src/queue.rs:248-370 | The whole-system invariant (bookkeeping, order, store contents, stage of the batch in hand) holds in every reachable state. |
| PersisterTheorems.Conservation | src/queue.rs:89-100 | In every reachable state each accepted batch is in exactly one place, and the channel never exceeds its depth. |
| PersisterTheorems.GracefulShutdown | src/queue.rs:311-369 | Without a crash, an exited persister leaves every batch persisted, journaled, refused or reported lost. |
| PersisterTheorems.JournaledIsKept | src/queue.rs:336-356 | Over every run a batch once journaled is journaled or persisted ever after, never lost and never refused. |
| PersisterTheorems.PersistedIsStored | src/queue.rs:336-345 | In every reachable state, drained or not, a persisted batch has all its event keys and LLM rows stored. |
| PersisterTheorems.ExactlyOnce | src/queue.rs:275-356 | Once nothing is queued, in hand or journaled, the stored event keys are exactly those of the batches that count, each once, however many failures, crashes and restarts came before. |
| PersisterTheorems.StraysFollowSteps | src/queue.rs:336-356 | A state holds a lost batch with stored events exactly when its run lost a batch, to a crash or a failed append, after its events committed. |
| PersisterTheorems.ExactIffNoStrayStep | src/queue.rs:336-356 | Once drained, the batches with stored events are the persisted ones exactly when the run took no such step, and then the stored keys are the persisted batches' keys. |
| PersisterTheorems.LlmRowsOnce | src/queue.rs:275-308 | Over every run in which no successful replay goes unpurged, the LLM table is the rows of the persisted batches and of the one being purged, each batch's once. |
| PersisterTheorems.RejectedLeftNothing | src/queue.rs:357-363 | Of a batch dropped as non-retriable no table holds anything: every stored event key and attestation is another batch's, and the LLM table is other batches' rows. |
| PersisterTheorems.RefusedForCause | src/queue.rs:346-363 | Over every run, a refused batch met, at an attempt of that run, an error that is not the store's. |
| PersisterTheorems.RefusalLeavesNoTrace | src/queue.rs:346-363 | From a batch's taking to its refusal no table and no journal entry changes. |
| PersisterTheorems.WriteOnce | src/ingest.rs:1069-1081 | No later step of any run changes or removes a stored event row or attestation. |
| PersisterTheorems.OneAttestationPerTrace | src/ingest.rs:72-81 | Over every run of a node, stored attestations whose envelopes name one trace are one attestation. |
| PersisterTheorems.NodeIsFaithful | src/ingest.rs:694-1081 | A node's attempts at one batch store the same event keys and LLM rows, whatever they meet. |
| PersisterTheorems.StoredRowsSound | src/ingest.rs:894-977 | Over every run of a node each stored row comes from an attempt made in that run at an accepted batch, carries a component of that batch, verifies from its own columns, and is in the scope its writer was admitted to at that attempt. |
| PersisterTheorems.StoredSignaturesBind | src/ingest.rs:407-433 | Two stored rows with one signature agree on content and on every signed statement, whichever attempts stored them. |
| PersisterReplay.JournalIsFifo | src/queue.rs:275-308 | From every reachable state, an append goes last in the journal, a purge takes the first entry, no other step moves one, and a replay round hands over the first. |
| PersisterReplay.ChannelIsFifo | src/queue.rs:87-100 | A submission goes last in the channel if there is room and is refused if not, a take hands over the first batch, and a crash takes all. |
| PersisterReplay.StoreErrorJournals | src/queue.rs:346-356 | A queued batch that meets a store error goes to the end of the journal, or is lost if the append fails; nothing else changes. |
| PersisterReplay.OtherErrorDrops | src/queue.rs:357-363 | Any other error drops a queued batch and writes nothing. |
| PersisterReplay.ReplayedErrorHalts | src/queue.rs:301-308 | Any error leaves a replayed batch journaled and ends the replay. |
| PersisterReplay.ReplayEndsIff | src/queue.rs:275-308 | A replay begins at a start and only there, and ends, short of a crash, exactly when nothing is left or a read, an attempt, a write or a purge fails. |
| PersisterReplay.ShutdownFinishes | src/queue.rs:311-369 | With its senders closed, an idle persister has a run without a crash that works through its channel and exits. |
| PersisterReplay.ClosedAcceptsNothing | src/queue.rs:311-369 | Nothing is accepted between a close of the senders and the next start. |
| PersisterReplay.RefusedEntryStays | src/queue.rs:275-308 | A journaled batch that no attempt from now on admits is never purged, whatever earlier attempts did. |
| PersisterReplay.RefusedHeadBlocks | src/queue.rs:296-308 | Such an entry at the head keeps every entry behind it journaled, whatever the node does. |
| PersisterReplay.OutageBlocksJournal | src/queue.rs:296-308 | A run from a fresh node to such a journal: a batch admitted once, journaled in an outage and refused from then on keeps back for good one that every attempt would admit. |
| PersisterReplay.LateTombstoneBlocks | src/ingest.rs:566-643 | On any node: a batch admitted at the first attempt and journaled in an outage, a trace of which has a purge notice at every later one and a known signer who is no person, blocks the journal. |
| PersisterReplay.SmallNodeBlocks | src/queue.rs:296-308 | A concrete node to which this happens. |
| PersisterReplay.StepsMakeTheCall | src/queue.rs:336-363 | The machine's steps, taken without a crash between them, leave the tables as one handler call does, settle the batch and go on as its result says. |
| PersisterReplay.CanDrainIff | src/queue.rs:275-308 | A stopped node has a run that empties its journal exactly when its journaled batches, oldest first, are admitted by later and later attempts. |
| PersisterReplay.SettledDrainsIff | src/queue.rs:275-308 | Once later attempts agree with the next one, that is exactly when the next attempt would admit every journaled batch. |
| PersisterReplay.UnpurgedRepeats | src/journal.rs:119-146 | After a failed purge, or a crash before it, a batch that replayed is replayed again, the event table does not change, and its LLM rows are stored again. |
| PersisterReplay.LostMayHaveLanded | src/queue.rs:336-356 | From every idle state with an admissible batch queued, a run ends with that batch lost and its event rows stored. |
| EncryptedKv.XChaChaKvStore.VerifyPassphrase | src/encrypted_kv.rs:669-727 | Reports a read that fails, writes the verifier on the first open only, and otherwise decides by opening it. |
| EncryptedKv.XChaChaKvStore.Get | src/encrypted_kv.rs:777-818 | Refuses bad namespaces, reports a read that fails and an absent row, and refuses a corrupt one. |
| EncryptedKv.XChaChaKvStore.Put | src/encrypted_kv.rs:820-864 | Seals value and key under the namespace's key and replaces the row, or changes nothing. |
| EncryptedKv.XChaChaKvStore.Delete | src/encrypted_kv.rs:866-886 | Removes exactly the addressed row, or nothing. |
| EncryptedKv.XChaChaKvStore.Scan | src/encrypted_kv.rs:888-944 | Reports a read that fails, and otherwise opens and filters the namespace's rows in the order they come, stopping at the first failure. |
| EncryptedKv.KvFile.OpenMlsStateFromRow | src/encrypted_kv.rs:519-603 | The opener's new rows, its questions to the hardware and its result. |
| EncryptedKvProofs.SlotInjective | src/encrypted_kv.rs:415-429 | The pair of blinds names one namespace and key. |
| EncryptedKvProofs.KeyBlindCollides | src/encrypted_kv.rs:420-429 | The key blind alone collides across any split of the same bytes, and the pair does not. |
| EncryptedKvProofs.KeysSeparate | src/encrypted_kv.rs:383-414 | Root, blinding and sealing keys differ, and each passphrase and namespace seals under a key of its own. |
| EncryptedKvProofs.ReadsAreAuthentic | src/encrypted_kv.rs:777-818 | Whatever the rows hold, a value read is one sealed under the namespace's key at that slot, and any other row is refused. |
| EncryptedKvProofs.ScanFailsIff | src/encrypted_kv.rs:888-944 | A scan fails exactly when it has to open something not sealed under the namespace's key. |
| EncryptedKvProofs.ScanIsListing | src/encrypted_kv.rs:888-944 | Scan returns exactly the pairs of the namespace whose key has the prefix, each once. |
| EncryptedKvProofs.SealedTableIsAMap | src/encrypted_kv.rs:747-945 | Every sequence of gets, puts, deletes, scans and reopens, by any passphrase, is answered as a plain map answers it; only the empty and the verifier namespace are refused. |
| EncryptedKvProofs.NewStoreIsAMap | src/encrypted_kv.rs:636-727 | So is every sequence after a first open, which succeeds and starts from the empty map. |
| EncryptedKvProofs.OpeningIsCautious | src/encrypted_kv.rs:519-603 | One opening asks the hardware at most once and never to create; a refusal changes no row; a success adds at most the verifier. |
| EncryptedKvProofs.SoftwareKeyFirst | src/encrypted_kv.rs:549-598 | Under a software row hardware is asked exactly when the store was read, is in use and refuses the software key. |
| EncryptedKvProofs.SoftwareRowOpens | src/encrypted_kv.rs:549-562 | A software row opens a new file, or one keyed by it, under the key derived from the decoded content master, and asks no hardware. |
| EncryptedKvProofs.HardwareKeyOpens | src/encrypted_kv.rs:530-597 | A hardware row opens its file under the hardware key, and so does a software row whose file refuses the derived one. |
| EncryptedKvProofs.UnusableRowsRefused | src/encrypted_kv.rs:975-1002 | What each row that yields no key is refused for, with file and hardware untouched. |
| EncryptedKvProofs.CustodyIsHonest | src/encrypted_kv.rs:519-603 | The reported custody names the root of the key that opened the store, and is Hardware exactly when the hardware was asked. |
| EncryptedKvProofs.RefusalsNameTheirCause | src/encrypted_kv.rs:241-280 | Exactly when an opening reports unavailable hardware custody and exactly when it reports a wrong passphrase, whichever connections and reads fail. |
| EncryptedKvProofs.VerifierWrittenOnce | src/encrypted_kv.rs:612-727 | Over any history from any rows, a verifier once present never changes, at most one is written, and no opening asks the hardware twice or to create a seed. |
| EncryptedKvProofs.OneKeyForLife | src/encrypted_kv.rs:519-727 | From an empty file, through any openings and operations, one key is fixed by the first success, no other opens the file, and its contents are the plain map the operations describe. |
| CacheUnits.CacheDir.Seal | scripts/ci_cache_units.py:106-127 | Every unit gets a manifest listing its files in order, each regular file under its `out/` is dated now, nothing else changes, and both counts are right. |
| CacheUnits.ManifestByName | scripts/ci_cache_units.py:106-111 | A file is left out of the listing exactly when its name, whatever its directory, is the manifest's. |
| CacheUnits.CacheDir.OldestMtime | scripts/ci_cache_units.py:130-141 | The least modification time of any file walked, or none. |
| CacheUnits.CacheDir.UnverifiedVerdict | scripts/ci_cache_units.py:144-158 | A unit without a manifest is kept exactly when its reference time is past the cutoff by more than the bound. |
| CacheUnits.CacheDir.Broken | scripts/ci_cache_units.py:161-167 | A manifest fails exactly when a listed path does not exist. |
| CacheUnits.CacheDir.Repair | scripts/ci_cache_units.py:170-199 | Each unit is judged on the tree as it stood; kept units keep every file and their fingerprint, of the others nothing is left, nothing else changes, and the three counts are right. |
| CacheProofs.SealPruneRepair | scripts/ci_cache_units.py:106-199 | After seal, any deletion of files and a strict repair, a remaining unit holds exactly its sealed files and a removed one leaves neither file nor fingerprint. |
| CacheProofs.KeptIffWhole | scripts/ci_cache_units.py:161-167 | After any pruning a manifest passes exactly when every listed file is there and resolves. |
| CacheProofs.SealProtectsIff | scripts/ci_cache_units.py:114-127 | A manifest protects its unit from every pruning exactly when no listed name has a line break, or the unit fails even unpruned. |
| CacheProofs.KeptRunLostNothing | scripts/ci_cache_units.py:32-58 | A dated run unit that the bound keeps lost nothing, when every lost file is no newer than every survivor. |
| CacheProofs.KeptCompileLostNothing | scripts/ci_cache_units.py:43-44 | The same for a compile unit, dated by its newest file. |
| CacheProofs.MayMissIff | scripts/ci_cache_units.py:32-42 | A file of a given time can be missing from some dated run unit that the bound keeps exactly when it is newer than the cutoff. |
| CacheProofs.SoundIffCalm | scripts/ci_cache_units.py:52-58 | One more prune cycle leaves every lost file no newer than every survivor exactly when nothing enters to stay that is older than a file still missing. |
| CacheProofs.RunUnitsSurviveCycles | scripts/ci_cache_units.py:32-58 | After any number of calm cycles and a repair, a dated run unit left in the tree without a manifest is whole. |
| CacheProofs.NothingOlderIsCalm | scripts/ci_cache_units.py:52-58 | A cycle in which nothing older than the last cutoff enters is calm. |
| CacheProofs.QuietCyclesAreCalm | scripts/ci_cache_units.py:52-58 | Over any number of cycles: if in each nothing is lost yet or nothing older than the cutoff then shown enters, every cycle is calm. |
| CacheProofs.TwoCyclesLoseAFile | scripts/ci_cache_units.py:52-58 | Two cycles after which the bound keeps a unit that lost a file. |
| SummarySql.SameMeaning | src/trace_summary_contract.rs:262-307 | The SQLite and the Postgres item of a field have the same value over every group of well-typed rows, up to 1 and 0 for true and false. |
| SummarySql.ColumnMeansItsFold | src/trace_summary_contract.rs:32-48 | Said without either dialect: a column is the mean, the greatest text or integer, the conjunction or the disjunction of the values that contribute, and NULL when none does. |
| SummarySql.SameFragment | src/trace_summary_contract.rs:262-307 | The two select lists agree column by column, one column per field under the field's alias. |
| SummarySql.IntegerFieldsIff | src/trace_summary_contract.rs:294-294 | Postgres answers an integer field exactly when every contributing integer fits 32 bits. |
| SummarySql.WideIntegersAreReals | src/trace_summary_contract.rs:262-285 | Past 64 bits SQLite answers an integer field with a float. |
| SummarySql.TextAgreesIff | src/trace_summary_contract.rs:293-293 | Text maxima agree for all groups exactly when the Postgres collation is bytewise. |
| SummarySql.GateIsTier | src/trace_summary_contract.rs:250-256 | A row passes the gate exactly when it has the event type and reaches the field's tier. |
| SummarySql.RefusedRowsDoNotCount | src/trace_summary_contract.rs:250-307 | A row the gate refuses can be removed without changing any column of either dialect. |
| ScopeRanges.Merge | scripts/mutants_matrix.py:270-276 | The same lines, whatever the ranges; proper ranges come out proper and apart. |
| ScopeRanges.Subtract | scripts/mutants_matrix.py:279-292 | Exactly the span's lines outside every hole, for all ranges, inverted ones too. |
| ScopeRanges.ScopeRangesOf | scripts/mutants_matrix.py:295-307 | A scope's lines are its spans' lines minus test-only lines, file by file. |
| ScopeRanges.FileHunk | scripts/mutants_matrix.py:320-330 | The hunk's counts are its body's, its new side is the file, and it adds exactly the lines in scope. |
| ScopeRanges.LinesJoin | scripts/mutants_matrix.py:320-322 | The lines joined by newlines are the text, but for one that ends it, and no line holds one. |
| ScopeRanges.ScopeDiff | scripts/mutants_matrix.py:310-331 | One such hunk for each file the scope names and for no other, the files in order. |
| ScopeRanges.Resolve | scripts/mutants_matrix.py:345-351 | From entries to the diff: a line is added exactly when the file has it, a span of an entry has it, and no test-only range has it; for proper entries a mutant inside its file is in scope exactly when its span has an added line. |
| ScopeRanges.FiltersAgreeIff | scripts/mutants_matrix.py:334-342 | The span filter and the line filter agree on every span exactly when no range is harmfully inverted. |
| ScopeRanges.MutantsMatchTheDiff | scripts/mutants_matrix.py:310-342 | A mutant inside the file is in scope exactly when its span touches an added line. |
| ScopeRanges.WholeFileCoversFile | scripts/mutants_matrix.py:302-303 | A whole-file entry covers every line of the file outside test-only ranges. |
| FilterParser.Tokens | scripts/mutants_scopes_check.py:63-113 | The index loops compute the token list, or refuse. |
| FilterParser.ScanArgument | scripts/mutants_scopes_check.py:88-103 | The argument loop finds the closing parenthesis of the specification. |
| FilterParser.TokensArePaired | scripts/mutants_scopes_check.py:104-108 | A matcher token stands behind every predicate token. |
| FilterParser.BlanksDoNotCount | scripts/mutants_scopes_check.py:69-71 | White space between tokens does not count. |
| FilterParser.MatchersMean | scripts/mutants_scopes_check.py:116-137 | The kind and value of a matcher by its first character, and what is refused. |
| FilterParser.NextestMatchers | scripts/mutants_scopes_check.py:46-51 | Three predicates take no matcher and every other one needs one. |
| FilterParser.Parser.ReadExpr | scripts/mutants_scopes_check.py:150-155 | The loop over terms reads what the grammar function reads and appends its leaves. |
| FilterParser.Parser.ReadTerm | scripts/mutants_scopes_check.py:157-177 | The recursive term reader reads what the grammar function reads. |
| FilterParser.ParseFilter | scripts/mutants_scopes_check.py:140-184 | The whole reader answers as its specification does. |
| FilterProofs.AcceptsIffDerivable | scripts/mutants_scopes_check.py:140-184 | A token list is accepted exactly when the grammar derives it, with that derivation's leaves in order. |
| FilterProofs.DerivationIsUnique | scripts/mutants_scopes_check.py:140-184 | The grammar is unambiguous. |
| FilterProofs.PrintThenParse | scripts/mutants_scopes_check.py:63-184 | The printed form of any expression parses back to its leaves. |
| FilterProofs.NextestIsRegular | scripts/mutants_scopes_check.py:46-50 | The filterset vocabulary meets what printing needs. |
| FilterMatchers.RegexIsScannable | scripts/mutants_scopes_check.py:88-103 | A regex with parentheses and escapes stands in a predicate as itself. |
| FilterMatchers.BalancedIsScannable | scripts/mutants_scopes_check.py:88-103 | So does any tight matcher whose parentheses balance. |
| FilterMatchers.AcceptedTextReprints | scripts/mutants_scopes_check.py:63-184 | Any accepted text has a printed form with the same tokens and leaves. |
| FeatureMatrix.Closure | scripts/ci_feature_matrix.py:157-168 | The least set around the seeds that is closed under the feature graph; it ends on cyclic graphs. |
| FeatureMatrix.BuildLegs | scripts/ci_feature_matrix.py:171-184 | The dictionary the loops fill, later names replacing earlier ones. |
| FeatureMatrix.LegsHold | scripts/ci_feature_matrix.py:171-184 | Which legs there are, and exactly which features each holds; every leg holds the base. |
| FeatureMatrix.CoverageProblems | scripts/ci_feature_matrix.py:268-278 | The coverage step names exactly the declared features that nothing covers and nothing holds out. |
| FeatureMatrix.CoverageIff | scripts/ci_feature_matrix.py:171-192 | The coverage step cannot fire for any manifest exactly when no rider or leg name replaces a leg that a feature depends on. |
| FeatureMatrix.RepositoryPlanCovers | scripts/ci_feature_matrix.py:70-119 | With the repository's constants it cannot fire, whatever features are declared. |
| AuditChain.LeafIsTheClaims | src/audit/merkle_leaf.rs:71-83 | Leaf bytes depend on what the entry says and not on its row id, stored hash or signature, and hash to the entry hash. |
| AuditChain.StoredGenuineIff | src/audit/sqlite.rs:300-302 | A genuine entry is genuine as the row that holds it exactly when it was given at whole microseconds. |
| AuditChain.FourDigitYears | src/audit/sqlite.rs:289-302 | The years a stored timestamp can be read back from, as days of the Gregorian calendar from the epoch. |
| AuditChain.AdmitsIff | src/audit/sqlite.rs:350-447 | The append admits exactly the proper entries, hash and signature over their own content, that are their tenant's first or follow its greatest by number and hash. |
| AuditChain.AuditLog.RecordEntry | src/audit/sqlite.rs:350-494 | The append's checks in order, its refusals and failures without effect, the row it writes with the time cut, and a failing hook after the row is there. |
| AuditChain.RunKeepsLinked | src/audit/mod.rs:9-30 | After any run of appends by any tenants the rows are those of the entries given, which are genuine and linked in every chain, and none is ever replaced. |
| AuditChain.ChainsAreContiguous | src/audit/mod.rs:9-30 | Each tenant's sequence numbers are 1..n, whatever other tenants did and whatever times were given. |
| AuditChain.AuditLog.VerifyChain | src/audit/sqlite.rs:595-770 | The range selected, the number walked and the first break, or an error for a read that fails or a row that cannot be read. |
| AuditChain.BreaksName | src/audit/sqlite.rs:662-760 | For each reason, exactly when a break reports it, from the entry and the one before it. |
| AuditChain.VerifiesIffStretch | src/audit/types.rs:100-144 | A range of any rows verifies exactly when it holds nothing or one contiguous, readable, genuine, linked stretch. |
| AuditChain.OpeningIsAdmitted | src/audit/sqlite.rs:350-447 | A genuine first entry is admitted whatever its `prev_hash` and time; verification then fails on a year without a four-digit form, breaks at a bridge, breaks at a time finer than a microsecond, and passes otherwise. |
| AuditChain.BuiltLogVerifiesIff | src/audit/sqlite.rs:595-770 | A log that appends built verifies over a range exactly when the range does not start it with a bridge and every entry in it was given at whole microseconds of a four-digit year. |
| AuditChain.BuiltLogBreaksWhere | src/audit/sqlite.rs:662-760 | Otherwise verification ends at the first entry at fault, with the reason its year, its place as a bridge or its time gives. |
| AuditChain.TruncationPasses | src/audit/sqlite.rs:595-770 | Cutting the newest entries off leaves a log that verifies with a smaller count. |
| AuditChain.SameTailSameChain | src/audit/mod.rs:9-30 | Two fully verified chains that end in one hash agree on every entry but for signatures. |

## Left out

- The persister's task is a step machine and not a method, because producers and crashes come between its steps; `submit_with_timeout`, `shutdown_with_timeout`, the sidecar, signal handlers, logging and metrics are not part of the model.
- A directory is fixed within one attempt, so two reads of one key in one attempt agree; IngestPipeline.RefuseNamedTraces and IngestPipeline.WriterAdmission rest on that. It may change in every way between attempts.
- Journal.JournalFile.PendingCount: a failing read of the journal is not modelled, here and at opening; a replay may stop at any entry.
- Sequence numbers and counters are unbounded; 64-bit wrap-around is not modelled.
- The post-insert extract update of ingest is best-effort and not modelled.
- Hash, signature, HKDF, HMAC and AEAD internals, JSON canonicalisation (section 3.2 of RFC 8785) and Merkle hashing (section 2.1 of RFC 6962) are not modelled.
- Parsing, canonical bytes and hybrid signature verification are parameters of the pipeline.
- PersisterTheorems.ExactlyOnce: speaks of event keys; LLM rows are not exactly-once in the code, as PersisterReplay.UnpurgedRepeats shows.
- PersisterReplay.CanDrainIff: says that a run exists which drains; it makes no fairness claim about the environment.
- EncryptedKv.KvFile.OpenMlsStateFromRow: HKDF faults and the descriptors in messages are not modelled; a cipher fault is a missing nonce, and one flag per root stands for opening the file, creating its table and reading it.
- CacheUnits.CacheDir.Seal: the order in which units are visited is not stated; a manifest that is itself a link, and links from one unit into another that repair removes, are not modelled.
- ScopeRanges.ScopeDiff: the text of the header lines is not stated; the scanners that find spans and test-only items in Rust text are parameters.
- FilterParser.Tokens: letters, digits and white space are the ASCII ones; error messages are one refusal.
- SummarySql.SameMeaning: averages are over the reals, without floating-point rounding; the SQL text itself is a syntax tree.
- FeatureMatrix.CoverageProblems: the other steps of the gate, which read the workflow file, are not modelled.
- AuditChain.AuditLog.RecordEntry: only the SQLite backend is modelled, without leap seconds, and the transparency hook is a success flag, so what it projects is not modelled.
- Federation admission, consent, secrets, graph and telemetry planes, and the wheel packaging scripts are not part of the model.
