# grith audit core: a verified model

This project models the audit core of grith and proves what it is for:

- the tamper-evident record chain: canonical encoding, record hash, appends, verification (full,
  incremental, cached), legacy backfill, repair, prefix deletes and concurrent connections;
- retention: streaming a prefix into cold files, proving each frame, deleting only then, and
  recovering a lost archive boundary from the cold files;
- the analytics projection: the tail cursor, dirty days, rebuilds, epochs, projection pruning and the
  upload of day snapshots to a server;
- the day accumulator behind the projection, its snapshots and its Parquet day archive;
- two dynamic programs of the command line: the line diff and the edit distance.

Code that updates state step by step is a class or a method with loops (`AuditStorage`,
`BatchedArchiver`, `AnalyticsProjection`, `DayAccumulator`, `DaySnapshot`, the canonical `Builder`, the
diff and distance tables). Each method is proved against a function over values, and the theorems are
about those functions: for every input, every run or every reachable state.

How the parts are read:

- A table is a sequence of rows; a query is a filter and a stable sort. A transaction is one step.
- A record hash is a function of the record's content, its sequence and its predecessor's hash. The
  chain theorems hold for any such function; the evidence theorems are for the real one, over a
  SHA-256 that is collision-free and a timestamp rendering that is exact; where version-1 records are
  involved, over digests in hexadecimal too. `RecordHash.FaithfulLibExists` shows that the hypotheses can be
  met together.
- Strings are UTF-8 bytes, one character per byte. Doubles are bit patterns. Audit timestamps are
  nanosecond counts and event times microsecond counts; the text order of stored timestamps is read as
  time order. SQL and Rust integers are unbounded, except where the code checks a range.
- A cold file is a sequence of frames, a frame a sequence of records, and an append of a frame happens
  completely or not at all.
- The adapter from records to events is a parameter of the projection. Row digests and checksums stand
  for what they cover.

## Model

| member | source | states |
|---|---|---|
| Canonical.DecodeInverts | crates/grith-audit/src/types.rs:588-652 | Round trip: whatever the values contain, a decoder gets every entry back from the bytes, so no content forges a boundary and absent differs from empty. |
| Canonical.EncodeInjective | crates/grith-audit/src/types.rs:588-652 | Under one domain, equal bytes come from equal lists of entries. |
| Canonical.Builder.PutText | crates/grith-audit/src/types.rs:611-618 | Writing a text value leaves the bytes of the entry list extended by exactly that entry. |
| Canonical.Builder.PutAbsent | crates/grith-audit/src/types.rs:622-625 | The same for an explicitly absent value. |
| Canonical.Builder.PutOptText | crates/grith-audit/src/types.rs:627-632 | The same for an optional value, by its presence. |
| Canonical.Builder.Finish | crates/grith-audit/src/types.rs:649-651 | The finished text is the encoding of the entries put. |
| HashBuilder.PutHead | crates/grith-audit/src/types.rs:933-947 | The eleven leading fields reach the encoder in their frozen order. |
| HashBuilder.PutFilterResults | crates/grith-audit/src/types.rs:949-959 | The loop emits every filter result, in order, with its six fields. |
| HashBuilder.PutScores | crates/grith-audit/src/types.rs:961-972 | However the map yields its keys, the score section is the one of the sorted keys. |
| HashBuilder.BuildV2 | crates/grith-audit/src/types.rs:933-1020 | Emitted field by field, the version-2 form is exactly its list of entries. |
| HashBuilder.BuildV3 | crates/grith-audit/src/types.rs:1029-1125 | The version-3 form is the version-2 digest followed by the analytics envelope. |
| HashBuilder.ComputeRecordHash | crates/grith-audit/src/types.rs:884-1126 | The dispatch on the record's version computes the record hash: the digest of the version-1 join of nine fields (what it covers is `VersionOne.HashV1CoversNine`), or of the version-2 or version-3 form; an unknown version gives a marker. |
| RecordHash.KeyOrderIsIrrelevant | crates/grith-audit/src/types.rs:963-967 | A score map has one encoding whatever its iteration order. |
| RecordHash.PreimageV2Injective | crates/grith-audit/src/types.rs:933-1021 | The version-2 bytes determine every covered field: the record without its stored hash and its analytics envelope. |
| RecordHash.PreimageV3Injective | crates/grith-audit/src/types.rs:1029-1126 | The version-3 bytes determine the whole record but its stored hash. |
| RecordHash.PreimageDeterminesVersion | crates/grith-audit/src/types.rs:884-915 | The version-1, 2 and 3 pre-images never coincide once one of them is version 2 or 3. |
| RecordHash.HashDeterminesEvidence | crates/grith-audit/src/types.rs:884-1126 | Equal hashes, one of a version-2 or 3 record and one of a supported record, mean equal versions and equal evidence. |
| RecordHash.PreimageV1Determines | crates/grith-audit/src/types.rs:900-915 | The version-1 form, a pipe join, still determines the id and the predecessor of a record whose predecessor holds no bar. |
| VersionOne.SplitsIntoNine | crates/grith-audit/src/types.rs:900-915 | Where no field holds a bar, cutting the version-1 pre-image at its bars gives back the nine texts in their frozen order: id, time, session, plugin, call type, arguments hash, score, verdict, predecessor. |
| VersionOne.EveryFieldCounts | crates/grith-audit/src/types.rs:900-915 | With or without bars, records that agree on all the other covered fields have equal pre-images only if they agree on the remaining one too. |
| VersionOne.HashV1Reacts | crates/grith-audit/src/types.rs:900-915 | So the version-1 hash tells apart any two records that differ in one covered field, the verdict included. |
| VersionOne.HashV1CoversNine | crates/grith-audit/src/types.rs:900-915 | Without bars two version-1 records have one hash exactly when they agree on all nine fields; nothing else is covered. |
| RecordHash.FaithfulLibExists | crates/grith-audit/src/types.rs:582-586 | The hypotheses on hashing and rendering, hexadecimal digests included, can be met together. |
| Agreement.AgreeBackwards | crates/grith-audit/src/storage.rs:1767-1901 | Two linked chains that end in one hash agree row by row as far back as both reach, whatever their anchors. |
| TamperEvidence.TamperEvident | crates/grith-audit/src/storage.rs:1767-1901 | Two lists of hashed rows that verify Valid from one anchor and end in one record hash have the same length and agree in every covered field and in the stored enum text. |
| TamperEvidence.TamperEvidentStores | crates/grith-audit/src/storage.rs:1665-1683 | Two databases that verify Valid behind one anchor and whose heads carry one hash hold the same chained rows. |
| TamperEvidence.SupportedIsLinkSensitive | crates/grith-audit/src/types.rs:900-915 | The hash of every supported version, version 1 included, tells two predecessors apart as they are written. |
| EditDetection.EditIsReported | crates/grith-audit/src/storage.rs:1767-1901 | On a database that verifies as Valid, an update of one row's content that changes its hash makes full verification name exactly that row and blame its record hash. |
| EditDetection.FieldEditExposed | crates/grith-audit/src/types.rs:900-915 | An edit of any one covered field of a version-1 record changes its hash. |
| EditDetection.EvidenceEditExposed | crates/grith-audit/src/types.rs:933-1126 | So does any edit of the evidence of a version-2 or version-3 record, its version included. |
| EditDetection.FlippedVerdictIsReported | crates/grith-audit/src/storage.rs:1848-1901 | A stored verdict flipped in the typed and the raw column is reported at its row, by its hash, whatever the record's version. |
| EditDetection.IncrementalNoticesIff | crates/grith-audit/src/storage.rs:1915-1978 | Incremental verification notices such an edit exactly when the row lies above the checkpoint. |
| Chain.WalkMeaning | crates/grith-audit/src/storage.rs:1767-1901 | The walk answers Valid exactly on linked rows, with their count; otherwise it names the first row that does not follow, with the first check (sequence, predecessor, hash, enum columns) that row fails. |
| Storage.WalkRows | crates/grith-audit/src/storage.rs:1767-1901 | The loop carrying expected sequence, predecessor and count computes that walk. |
| Storage.AuditStorage.InsertRecord | crates/grith-audit/src/storage.rs:1034-1075 | A quarantined or duplicate insert changes nothing; any other chains the record behind the head at a free sequence and clears the cached verdict. |
| Storage.AuditStorage.InsertBatch | crates/grith-audit/src/storage.rs:1078-1122 | A batch is stored whole, chained behind the head, or not at all. |
| Storage.AuditStorage.BackfillChainForLegacyRows | crates/grith-audit/src/storage.rs:1519-1563 | Every row without a sequence is chained behind the head, oldest first, and their number is returned. |
| Storage.AuditStorage.RepairChain | crates/grith-audit/src/storage.rs:1570-1657 | Both passes together leave the repaired table, forget the checkpoint when something changed, and count the rows whose hash changed. |
| Storage.AuditStorage.ResolveVerificationAnchor | crates/grith-audit/src/storage.rs:593-635 | Genesis, the stored boundary when it really precedes the first row, or the reason why neither holds. |
| Storage.AuditStorage.VerifyChain | crates/grith-audit/src/storage.rs:1665-1683 | The full verdict from the resolved anchor. |
| Storage.AuditStorage.IncrementalVerifyChain | crates/grith-audit/src/storage.rs:1915-1978 | The verdict from the checkpoint, which moves to the head only on a Valid answer. |
| Storage.AuditStorage.CachedVerifyChain | crates/grith-audit/src/storage.rs:1983-1994 | The cached verdict, or a fresh incremental one that is then cached. |
| Verdicts.AppendMeans | crates/grith-audit/src/storage.rs:1034-1122 | An accepted batch leaves the rows in place and adds one unsynced row for each record, in order, at the next sequences, each naming the hash of the row before it. |
| Verdicts.AnchorMeans | crates/grith-audit/src/storage.rs:593-635 | By the row with the lowest sequence: at 1 no anchor is needed; otherwise a boundary is accepted exactly at the position and hash that row names, and what is missing is reported with its fields. |
| Verdicts.CheckpointMeans | crates/grith-audit/src/storage.rs:1915-1978 | Incremental verification writes nothing but the checkpoint: at the head after a Valid answer, where it was after any other. |
| Verdicts.CachedAnswerStays | crates/grith-audit/src/storage.rs:1983-1994 | A cached verdict is given again whatever has become of the table. |
| Storage.AuditStorage.DeletePrefix | crates/grith-audit/src/storage.rs:2084-2173 | The hash at the bound is read, then one transaction removes the rows up to it, publishes that hash as the boundary and never moves the checkpoint back; the count is the number of deleted rows. |
| Anchoring.GroundedVerifies | crates/grith-audit/src/storage.rs:593-635 | A store whose segment starts at genesis or right behind its boundary verifies with every row counted, unless a legacy row lies beside a chain from genesis. |
| Anchoring.AppendGrounded | crates/grith-audit/src/storage.rs:903-920 | Appending behind the head keeps such a store such a store and extends the segment by exactly the batch. |
| Anchoring.PruneGrounded | crates/grith-audit/src/storage.rs:2084-2173 | So does any prefix delete, an emptying one included; a bound outside the segment does nothing. |
| Backfill.BackfillGrounded | crates/grith-audit/src/storage.rs:1519-1563 | So does a backfill of rows with clean enum columns, after which no legacy row is left and the segment has grown by all of them. |
| Backfill.BackfillAscends | crates/grith-audit/src/storage.rs:1519-1563 | Behind the old segment come exactly the rows that had no sequence, by time and then id, changed in nothing but their chain columns. |
| Backfill.LegacyIsReported | crates/grith-audit/src/storage.rs:1790-1809 | Beside a chain from genesis the oldest row without a sequence is what full verification reports. |
| Runs.RunsAgree | crates/grith-audit/src/storage.rs:1915-1994 | Over every run of appends of any records, verifications, backfills of rows with clean enum columns, losses of checkpoint or cache, prunes that leave a row, and repairs (behind an archive boundary: of rows whose hash covers their predecessor), incremental and cached verification answer what full verification would; without legacy rows that is Empty or Valid with the head sequence as count. |
| Runs.RunsAgreeFromTheStart | crates/grith-audit/src/storage.rs:1915-1994 | So it is in every state such a run reaches from a database no chained row was ever written to. |
| Runs.RecordRunsAgree | crates/grith-audit/src/storage.rs:1915-1994 | With the record hash itself, over databases that mix records of all three versions, rows from before the chain and backfilled ones: the same for every such run, repairs without any further condition. |
| Runs.UpgradedDatabase | crates/grith-audit/src/storage.rs:1519-1563 | A database from before the chain, once backfilled, stays that way through every such run: the verdicts agree and are Valid with the head sequence as count. |
| Runs.PruneMovesForward | crates/grith-audit/src/storage.rs:2130-2160 | On any store, a prune neither loses the checkpoint nor moves it back: an immediate corollary of what the delete leaves. |
| Runs.EmptyingPruneDiverges | crates/grith-audit/src/storage.rs:903-920 | After a prune that empties the segment at head m and a batch behind it, incremental and full verification agree exactly when the batch is empty, has m records, or carries the checkpoint's hash at position m. |
| Writers.EventSafe | crates/grith-audit/src/storage.rs:1078-1122 | One step of one connection keeps the database sound and changes it only as its committed transaction says. |
| Writers.InterleavingsAreSerial | crates/grith-audit/src/storage.rs:1034-1122 | Any interleaving of writers, one backfill at a time and one prefix delete at a time, each of which reads before it takes the lock, leaves what its commits would leave one after the other; without legacy rows the chain verifies as Empty, or as Valid with the head as count. |
| Writers.SerialFromTheStart | crates/grith-audit/src/storage.rs:1034-1122 | So it is for idle connections to a database no chained row was ever written to. |
| Writers.StaleBackfillIff | crates/grith-audit/src/storage.rs:1519-1563 | On any grounded store whose rows are all chained, whatever its boundary, a backfill whose rows another one has chained meanwhile leaves the verdict unchanged exactly when none of the rows it read is stored any more. |
| Writers.TwoBackfillsBreakTheChain | crates/grith-audit/src/storage.rs:1519-1563 | Two backfills that both read one legacy row and commit in turn leave a chain that starts at sequence 2 and is reported unanchored. |
| Writers.StaleDeleteIff | crates/grith-audit/src/storage.rs:2084-2173 | A delete that commits with a hash read earlier leaves a chain whose anchor fits exactly when the chain still carries that hash at the bound or nothing is left above it; otherwise verification reports an anchor mismatch. |
| Writers.TwoDeletesBreakTheAnchor | crates/grith-audit/src/storage.rs:2091-2117 | Two deletes that read their bounds before the farther one commits: the nearer one then publishes a boundary in front of rows that are gone. |
| Repair.RepairValidIff | crates/grith-audit/src/storage.rs:1570-1657 | A repaired table of positive sequences verifies as Valid over all its chained rows exactly when every row the repair left alone already stored its final sequence and predecessor, no legacy row is left and no enum column is off. |
| GapRepair.RepairMends | crates/grith-audit/src/storage.rs:1570-1657 | Rows whose stored hash is their own and covers their position come out as a valid chain 1..n, whatever gaps, forks and predecessors they had. |
| GapRepair.RepairMendsRecords | crates/grith-audit/src/storage.rs:1570-1657 | So do version-2 and version-3 records. |
| GapRepair.GapClosesIff | crates/grith-audit/src/storage.rs:1602-1611 | Over rows linked by their hashes but not numbered 1..n, the repair yields a valid chain exactly when the hash of the first row out of place covers its sequence. |
| GapRepair.RecordGapClosesIff | crates/grith-audit/src/storage.rs:1602-1611 | With the record hash itself, over records of all versions: exactly when that row is of version 2 or 3. |
| GapRepair.GapStays | crates/grith-audit/src/storage.rs:1602-1611 | Two rows at sequences 1 and 3 whose hashes do not cover the sequence: the repair changes nothing, counts nothing, and verification finds the gap before and after. |
| GapRepair.RecordGapStays | crates/grith-audit/src/storage.rs:1602-1611 | Any two version-1 records of different ids are such rows. |
| RepairPasses.RunRepair | crates/grith-audit/src/storage.rs:1588-1635 | The loop of the first pass writes, under negative placeholders, exactly the rows whose hash differs, and counts them. |
| RepairPasses.FirstPassDistinct | crates/grith-audit/src/storage.rs:1588-1635 | From distinct sequences, no state of the first pass holds a sequence twice, legacy rows beside the chain included. |
| RepairPasses.SecondPassDistinct | crates/grith-audit/src/storage.rs:1636-1657 | While the signs flip row by row no sequence is held twice either, when the rows left alone already hold their final sequence. |
| RepairOutcome.RepairMeans | crates/grith-audit/src/storage.rs:1570-1657 | Row by row: a row outside the chain stays; a row of the chain stays if it stores the hash it gets at its position and is rewritten there otherwise; the checkpoint goes exactly when a hash changed. |
| RepairOutcome.CountMeans | crates/grith-audit/src/storage.rs:1570-1657 | The count a repair returns is the number of positions whose hash it changed. |
| RepairOutcome.SoundChainStays | crates/grith-audit/src/storage.rs:1570-1657 | A valid chain from genesis comes out as it went in, with its checkpoint and nothing counted. |
| ColdFiles.FlushesSort | crates/grith-audit/src/retention.rs:223-283 | Everything pushed lands, in order, in the file of its own date. |
| ColdFiles.FlushesBounded | crates/grith-audit/src/retention.rs:245-260 | No frame is empty and none exceeds the batch size. |
| ColdFiles.FlushesFull | crates/grith-audit/src/retention.rs:245-260 | A frame is followed by another of its date only when it holds 2,000 records. |
| Retention.BatchedArchiver.Push | crates/grith-audit/src/retention.rs:245-260 | Pushing a record and then the rest gives the outcome the buffered whole would, with the date set and the files to match. |
| Retention.BatchedArchiver.Flush | crates/grith-audit/src/retention.rs:261-279 | A flush appends and proves the buffered frame, or reports the first failure and nothing later. |
| Retention.BatchedArchiver.Finish | crates/grith-audit/src/retention.rs:280-286 | Finishing leaves the files of the whole outcome, or its error. |
| Retention.ProveArchivedFrame | crates/grith-audit/src/retention.rs:301-353 | The frame is accepted exactly when it holds every expected record with its own recomputed hash. |
| Retention.BoundIsSafe | crates/grith-audit/src/retention.rs:75-150 | A pass never reaches past the newest row that is old enough nor, when sync is respected, past an unsynced row. |
| Retention.BoundIsGreatest | crates/grith-audit/src/retention.rs:75-150 | And it goes as far as it may: every sequence with an old enough row at or above it and, when sync is respected, no unsynced row up to it is within the bound, so a pass has nothing to prune exactly when there is no such sequence. |
| Retention.PruneAndArchive | crates/grith-audit/src/retention.rs:49-207 | One pass streams the prefix (the streaming read looks up its bound first, crates/grith-audit/src/storage.rs:2042-2071), archives, proves and only then deletes; every early exit leaves the table as it was. |
| RetentionRuns.CompletedPass | crates/grith-audit/src/retention.rs:181-207 | A completed pass found a row at its bound, adds to each date's file exactly that date's records of the prefix in chain order and deletes exactly the prefix. |
| RetentionRuns.FailedPass | crates/grith-audit/src/retention.rs:181-207 | A pass that does not complete deletes nothing: an immediate corollary of the order of its steps. |
| RetentionRuns.HealthyPassCompletes | crates/grith-audit/src/retention.rs:181-353 | On a linked chain, with every append written and no crash, a pass over a chained row that is old enough (and, when sync is respected, has no unsynced row up to it) and whose bound is covered completes: the bound is stored, the proofs of its own frames never fail, and everything up to a bound at or above the row is gone. |
| RetentionRuns.NothingIsLost | crates/grith-audit/src/retention.rs:49-207 | With cold storage on, after any run of appends, sync marks, verifications and passes that crash between any two steps, every record ever appended is active or in a proven frame of its date's file. |
| RetentionRuns.NothingIsLostFromTheStart | crates/grith-audit/src/retention.rs:49-207 | So it is from the first append on. |
| PassMeaning.ProvesIff | crates/grith-audit/src/retention.rs:301-353 | A frame is accepted exactly when, for every expected record, its last line with that id stores the expected hash and its own content and place give that hash. |
| PassMeaning.PassFiles | crates/grith-audit/src/retention.rs:181-283 | Every row a completed pass deletes is in a file of its own UTC day, in a frame that vouches for it, and the pass reports as many files as its records have days. |
| PassMeaning.OnlySeenLeave | crates/grith-audit/src/retention.rs:92-150 | Over any run in which every pass respects the sync state, whatever crashes, a record that has left the table was acknowledged by the server before. |
| PassMeaning.OnlySeenLeaveFromTheStart | crates/grith-audit/src/retention.rs:92-150 | So it is from an empty database on. |
| BoundaryRecovery.FirstInternalBreak | crates/grith-audit/src/retention.rs:577-599 | The loop finds the first record, in sequence order, that does not follow the one before it. |
| BoundaryRecovery.ResolveBoundaryFromArchives | crates/grith-audit/src/retention.rs:442-545 | The search, newest file first, computes the resolution; what the archives must hold for each outcome is `ArchiveVerdicts.ResolvedIff` and `ArchiveVerdicts.NewestDecides`. |
| ArchiveVerdicts.NoBreakIff | crates/grith-audit/src/retention.rs:577-599 | A file passes the check exactly when every line with a sequence stores the hash its own content gives and, wherever two sequences follow each other, the later line names the hash of the earlier. |
| ArchiveVerdicts.ResolvedIff | crates/grith-audit/src/retention.rs:442-545 | A boundary is resolved exactly when, in the newest file with a line at the sequence in front of the segment, the first such line stores the hash the segment names, every line with a sequence carries its own hash and the links hold; no tampered archive is ever adopted. |
| ArchiveVerdicts.NewestDecides | crates/grith-audit/src/retention.rs:442-545 | What that file decides otherwise: no stored hash is unresolved, a wrong hash or a broken link is a tampered archive, a sound file with another hash a mismatch, each with its fields. |
| ArchiveVerdicts.NothingToResolve | crates/grith-audit/src/retention.rs:442-455 | A segment from sequence 1 needs no boundary; without any archived predecessor the search is unresolved. |
| BoundaryRecovery.ResolvedAnchors | crates/grith-audit/src/retention.rs:442-545 | Whatever the archives hold, a resolved boundary anchors the segment it was resolved for. |
| RecoveryRuns.RecoversBoundary | crates/grith-audit/src/retention.rs:442-545 | The boundary recovered from the archives is the lost one, duplicate frames of crashed passes included. |
| RecoveryRuns.LostBoundaryRecovered | crates/grith-audit/src/retention.rs:442-545 | So it is in every state of every run whose passes leave a row: sequence and hash come back exactly. |
| RecoveryRuns.RecoveredFromTheStart | crates/grith-audit/src/retention.rs:442-545 | So it is in every such run from a database no chained row was ever written to. |
| Normalize.CanonicalMeans | crates/grith-analytics/src/normalize.rs:69-100 | The canonical list of filter ids is sorted without duplicates, and exactly the canonical lists are left alone. |
| Normalize.NormalFilterIds | crates/grith-analytics/src/normalize.rs:69-84 | Exactly the bounded lower-kebab-case names are their own normal form. |
| EventRules.NormalisesIff | crates/grith-analytics/src/normalize.rs:69-83 | A text normalises to a name exactly when the name is in kebab case and the text is that name in any case, with underscores for hyphens and white space around it. |
| Events.CheckContributions | crates/grith-analytics/src/accumulator.rs:276-296 | The loop with its running previous id finds the first contribution that is out of range, not evaluated, repeated or out of order. |
| Events.ValidMeans | crates/grith-analytics/src/accumulator.rs:249-326 | What validation guarantees to the counters. |
| EventRules.ValidIff | crates/grith-analytics/src/accumulator.rs:249-326 | Validation accepts an event exactly when it is well-formed, all conditions said outright: score range, completeness, a strictly ascending set of filter names, bounded positive contributions of evaluated filters in order, usage and destination and security data that fit. |
| EventRules.FirstRuleBroken | crates/grith-analytics/src/accumulator.rs:249-326 | An event that breaks several rules gets the error of the first in the order score, completeness, filter set version, filter data, usage, destination. |
| DayAccumulator.DayAccumulator.Ingest | crates/grith-analytics/src/accumulator.rs:170-219 | An identical replay changes nothing, a conflict or an invalid event is refused without change, and a new event is added to every rollup it belongs to unless a counter or a row limit is exceeded. |
| DayAccumulator.DayAccumulator.AddUsage | crates/grith-analytics/src/accumulator.rs:328-374 | The usage row of the event's hour, dimensions and score bin gains the event, both counters checked; that a row is one clock hour's and one bin's is `RollupRows.RowsMean`. |
| DayAccumulator.BumpAll | crates/grith-analytics/src/accumulator.rs:376-426 | The loop over the evaluated filters updates each of the event's filter rows once and fails exactly when one of them leaves its range. |
| DayAccumulator.DayAccumulator.AddSession | crates/grith-analytics/src/accumulator.rs:428-479 | The session row, with verdict and LLM counters checked. |
| DayAccumulator.DayAccumulator.AddLlm | crates/grith-analytics/src/accumulator.rs:481-515 | The LLM row, with its four counters checked. |
| DayAccumulator.DayAccumulator.AddDestination | crates/grith-analytics/src/accumulator.rs:517-549 | The destination row, with its counter checked. |
| DayAccumulator.DayAccumulator.CheckRowLimits | crates/grith-analytics/src/accumulator.rs:582-599 | Refuses exactly the rollups over a family limit; the total limit cannot be exceeded on its own. |
| DayAccumulator.ValidateEvent | crates/grith-analytics/src/accumulator.rs:249-326 | The first failed check, in the order the checks are made. |
| DayAccumulator.FitsIff | crates/grith-analytics/src/accumulator.rs:601-611 | One more event leaves every counter in range exactly when the rows it touches stay in range. |
| DayRollup.IngestIsGroupBy | crates/grith-analytics/src/accumulator.rs:170-219 | A run in which no ingest fails leaves the group-by over the distinct events, every counter and row count within its limit. |
| Reruns.OrderIsIrrelevant | crates/grith-analytics/src/accumulator.rs:170-219 | Any other order with any replays gives the same rollup when it succeeds, and it succeeds whenever the events times the score bound stay within the safe integers. |
| RollupLaws.UsageCountsAddUp | crates/grith-analytics/src/accumulator.rs:328-374 | The usage rows partition the events: their counts add up to the source count, which is the number of distinct ids. |
| RollupLaws.RollupArithmetic | crates/grith-analytics/src/accumulator.rs:328-549 | Counts add up; a row's score sum lies in its bin, one-sidedly for the outer bins; filter and session counters nest; every limit holds. |
| RollupRows.RowsMean | crates/grith-analytics/src/accumulator.rs:328-549 | In every rollup a run reaches, over well-formed events of its UTC day only, each row is the count, the sums and the bounds over exactly the distinct events with the row's key columns; a usage row's events lie in its clock hour, which starts on the hour, and in its score bin; header bounds and every limit likewise. |
| SnapshotOrder.ReassemblyForgetsOrder | crates/grith-analytics/src/contract.rs:567-676 | The canonical row lists do not depend on the order the rows were loaded in. |
| SnapshotOrder.TakeSnapshot | crates/grith-analytics/src/accumulator.rs:221-247 | The snapshot holds each row once in canonical order, and its checksum covers those rows and the header. |
| SnapshotOrder.DaySnapshot.Canonicalize | crates/grith-analytics/src/contract.rs:567-676 | Sorting in place leaves the canonical row lists. |
| SnapshotKeys.CanonicalAscends | crates/grith-analytics/src/contract.rs:567-676 | The canonical form holds the rows it was given, each family ascending by its key columns in their frozen order: numbers and UUIDs by value, texts by bytes, enumerations as declared, absent values first. |
| DayArchive.RowRoundTrip | crates/grith-analytics/src/archive.rs:1165-1260 | A row reads back as its event, without destination and security data. |
| DayArchive.WriteDayArchive | crates/grith-analytics/src/archive.rs:283-560 | Sorting into the frozen order and filling the columns row by row gives the file's rows, or the first event that cannot be written. |
| DayArchive.ReadDayArchive | crates/grith-analytics/src/archive.rs:1030-1046 | Reading row by row gives the decoded events, or the first row that cannot be decoded. |
| DayArchive.ArchiveRoundTrip | crates/grith-analytics/src/archive.rs:283-347 | Written and read back, a day is its events in the frozen order without destination and security data. |
| ArchivedDay.WritesIff | crates/grith-analytics/src/archive.rs:283-560 | A day can be archived exactly when every event's configuration is known, or marked unknown, and its hashes are 64 hexadecimal digits. |
| ArchivedDay.ReadsBack | crates/grith-analytics/src/archive.rs:1165-1260 | Each event reads back without its destination and security data and otherwise unchanged, by time, then chain sequence with absent ones last, then id. |
| ArchivedDay.RowReadsIff | crates/grith-analytics/src/archive.rs:1165-1312 | A row is read exactly when each of its enumeration columns holds the wire name of a value; nothing is guessed. |
| ArchivedDay.DestinationIsWritten | crates/grith-analytics/src/archive.rs:283-560 | The destination columns hold the kind's name and the digest of the event's destination, and nothing for an event without one. |
| DayArchive.ReplayReproduces | crates/grith-analytics/src/archive.rs:1030-1046 | Replaying an archived day through a fresh accumulator reproduces its usage, filter, session and LLM rows, count and bounds, its destinations too if it had none; the replay succeeds within the bound of the order theorem. |
| Projection.CacheIsCoherent | crates/grith-audit/src/analytics.rs:769-2500 | In every state reached by tail passes, crashes, rebuilds, rotations, acknowledgements, reconciles and pruning, each day that is not dirty stores exactly what a fresh accumulator gives for its source events. |
| CleanDays.CleanDayMeans | crates/grith-audit/src/analytics.rs:769-2500 | What that cache says: a day that is not dirty stores, row by row and column by column, what the source events of its epoch and UTC day add up to. |
| Projection.MergeKeyed | crates/grith-audit/src/analytics.rs:2011-2030 | The merged records of a full rebuild are stored under their own ids. |
| Projection.ReplayOrderSorts | crates/grith-audit/src/analytics.rs:885-893 | The replay runs over each merged record once, sequences ascending and absent ones last, then by time. |
| Projection.ReplayedSettles | crates/grith-audit/src/analytics.rs:895-956 | After the replay transaction only days without source events are dirty, and all of them can be settled. |
| RebuildCoverage.MergeFailsIff | crates/grith-audit/src/analytics.rs:2011-2030 | The merge fails exactly when two stored records, cold or active, share an id and differ. |
| RebuildCoverage.MergedIsStored | crates/grith-audit/src/analytics.rs:885-893 | Otherwise it holds every line of every frame of every cold file and every active row, and nothing else; its size is the number of distinct ids. |
| RebuildCoverage.ReplayTakesIn | crates/grith-audit/src/analytics.rs:879-951 | After the replay the source events are exactly what those records read as, the cursor is at the table's highest sequence or back at the baseline, and the gap count is the number of records the adapter cannot express (or, when no record has a sequence, the old count). |
| TailMeaning.ProjectsIff | crates/grith-audit/src/analytics.rs:2044-2137 | A batch is projected exactly when no record reads as an event that differs from the one under its id, stored or in the batch, or names other facts by a known configuration hash. |
| TailMeaning.TailPassMeans | crates/grith-audit/src/analytics.rs:769-796 | A pass takes the lowest sequences above the cursor, between 1 and 2,048 of them as asked; events, configurations and dirty days grow by exactly what they name, the cursor moves to the last, and each record the adapter cannot express is one more gap. |
| ProjectionStore.AnalyticsProjection.constructor | crates/grith-audit/src/analytics.rs:700-757 | The first epoch: the baseline in front of the oldest row, the cursor at its default, nothing cached. |
| ProjectionStore.AnalyticsProjection.MaterializeTail | crates/grith-audit/src/analytics.rs:769-796 | Events, day marks and cursor change together or, after a crash at either point or a conflict, not at all. |
| ProjectionStore.AnalyticsProjection.DirtyDays | crates/grith-audit/src/analytics.rs:808-820 | The oldest dirty days, oldest first, without repetition, all of them unless the limit cuts the list. |
| ProjectionStore.AnalyticsProjection.RebuildDirtyDays | crates/grith-audit/src/analytics.rs:802-835 | Exactly those days, up to the first that cannot be aggregated, are replaced by what their source events aggregate to. |
| ProjectionStore.AnalyticsProjection.ReplayEverything | crates/grith-audit/src/analytics.rs:879-951 | The rebuild transaction replays every cold line and active row onto cleared tables, or changes nothing. It fails with a merge conflict exactly when two stored records share an id and differ; when it succeeds the events are exactly what the stored records read as, and their number of ids is returned. |
| ProjectionStore.AnalyticsProjection.RebuildFromActiveAndCold | crates/grith-audit/src/analytics.rs:879-956 | The full rebuild settles what the transaction left dirty: the events are still exactly what every cold line and active row read as, the count is the number of their ids, no day is dirty, every day of before is there at a higher revision with its acknowledgement, and no configuration is forgotten. |
| ProjectionStore.AnalyticsProjection.RotateEpoch | crates/grith-audit/src/analytics.rs:1023-1102 | The next epoch starts at the given baseline; days and events stay under their own epoch. |
| ProjectionStore.AnalyticsProjection.PruneProjection | crates/grith-audit/src/analytics.rs:1830-1858 | Every day before the oldest kept one is gone with its events and rows, and nothing else is. |
| ProjectionStore.AnalyticsProjection.CoversSequence | crates/grith-audit/src/analytics.rs:1813-1826 | Retention is allowed exactly up to the cursor and only while no day is dirty. |
| ProjectionStore.AnalyticsProjection.RecordDayAck | crates/grith-audit/src/analytics.rs:1364-1377 | An acknowledgement moves the day's acknowledged revision up to the given one and never back. |
| ProjectionStore.AnalyticsProjection.ReconcileServerDay | crates/grith-audit/src/analytics.rs:1402-1423 | The server's revision becomes a floor and the day will be republished. |
| ProjectionStore.AnalyticsProjection.BuildDaySnapshot | crates/grith-audit/src/analytics.rs:1258-1322 | The day's state columns and its rows, in whatever order they load, are returned only if they match the recorded checksum; a clean day's always do, and they are what its source events aggregate to. |
| Materialization.MaterializedExactlyOnce | crates/grith-audit/src/analytics.rs:769-796 | Over any run of appends, tail passes with any batch sizes and crashes, rebuilds and retention that leaves a row, events plus gaps since the epoch began equal the positions from its baseline to the cursor. |
| Materialization.RetentionIsCovered | crates/grith-audit/src/analytics.rs:1813-1826 | Retention deletes only rows at or below the cursor and only while no day is dirty: an immediate corollary of the gate. |
| Materialization.FirstEpochBegins | crates/grith-audit/src/analytics.rs:700-757 | A projection created over any grounded table starts in that state. |
| Epoch.ReconcileAnalyticsEpoch | crates/grith-audit/src/analytics.rs:1740-1809 | Rotates exactly when the chain under the cursor is another one. |
| Reopening.RotatesIff | crates/grith-audit/src/analytics.rs:1740-1809 | By the stored rows: a new epoch begins exactly when the chain ends before the cursor, when another record is stored at the cursor, or, without chained rows, when no archive boundary reaches the cursor. |
| Epoch.NoStrandedRows | crates/grith-audit/src/analytics.rs:1740-1809 | After a reconcile over a linked segment every active row is ahead of the cursor, from before the epoch, or one the projection examined, even if the chain restarted and outgrew the cursor. |
| Epoch.NoStrandedRecords | crates/grith-audit/src/analytics.rs:1740-1809 | The same with the real record hash over records of all versions: by id, hash and predecessor, and for version-2 and 3 records in every covered field. |
| Epoch.PassKeepsChain | crates/grith-audit/src/analytics.rs:769-796 | A tail pass keeps the examined rows one chain exactly when its first row names the cursor's hash. |
| Epoch.PassStrandsIff | crates/grith-audit/src/analytics.rs:769-796 | A tail pass followed by a reconcile strands nothing exactly when nothing at or below the old cursor is stored or the row there still carries the recorded hash. |
| EpochRuns.FirstEpochTracked | crates/grith-audit/src/analytics.rs:700-757 | A projection created over a grounded table is tracked from its first state on. |
| EpochRuns.RunsStrandNothing | crates/grith-audit/src/analytics.rs:1740-1809 | Over every run of appends, tail passes, rebuilds, retention (emptying included) and reopenings in which no pass runs between a restart of the chain and the next opening, opening the database leaves no row stranded. |
| EpochRuns.RecordRunsStrandNothing | crates/grith-audit/src/analytics.rs:1740-1809 | The same with the real record hash over databases that mix records of all versions. |
| EpochRuns.RetentionDeletesExamined | crates/grith-audit/src/analytics.rs:1813-1826 | In such runs retention deletes only rows from before the epoch or rows the projection examined. |
| EpochRuns.NextPassStrandsIff | crates/grith-audit/src/analytics.rs:769-796 | In any state of such a run, a tail pass that commits rows strands one exactly when the chain has restarted: the test that only opening the database makes. |
| EpochWitness.RestartStrands | crates/grith-audit/src/analytics.rs:769-796 | A concrete run that gets there: append, materialize, retention that empties the segment, a longer append, materialize. |
| EpochWitness.RestartStrandsRecords | crates/grith-audit/src/analytics.rs:769-796 | The same run with the real record hash and any supported records whose ids differ where the first batch ends. |
| EpochWitness.EventsStrand | crates/grith-audit/src/analytics.rs:769-835 | The same with real events: a record is materialized, its day aggregated, the record archived and deleted, two others appended and materialized. |
| EpochWitness.EventsStrandRecords | crates/grith-audit/src/analytics.rs:769-835 | That run with the real record hash, for any three supported records of different ids. |
| Upload.UploadsConverge | crates/grith-audit/src/analytics.rs:1232-1423 | Under lost, repeated and reordered uploads and answers, mixed with local work, the acknowledged revision never exceeds the local one, and a clean day acknowledged at its revision is the snapshot the server holds. |
| Upload.AgreementIsReachable | crates/grith-audit/src/analytics.rs:1232-1423 | From every reachable state whose day can be aggregated some finite run settles the day, even against a server that is ahead. |
| Upload.NeverUploadedConverges | crates/grith-audit/src/analytics.rs:1232-1253 | A day that was never uploaded is such a state, whatever the server holds. |
| Upload.PendingIff | crates/grith-audit/src/analytics.rs:1232-1253 | A clean day of such a state waits for an upload exactly until it is settled. |
| Diff.ScriptIsOptimal | crates/grith-cli/src/diff.rs:118-139 | The backtracked script turns the old lines into the new ones, keeps a longest common subsequence, and no script has fewer changes. |
| Diff.ScriptDeletesFirst | crates/grith-cli/src/diff.rs:118-139 | Where either order would do, removed lines come before added ones: no added line stands directly in front of a removed one. |
| Diff.LcsTable | crates/grith-cli/src/diff.rs:100-116 | The nested loops fill the table with the recurrence. |
| Diff.FillRow | crates/grith-cli/src/diff.rs:104-114 | One row of the table from the row before it; the other rows stay. |
| Diff.BacktrackDiff | crates/grith-cli/src/diff.rs:118-139 | The walk back through the table, pushed and reversed, is that script. |
| Diff.ComputeDiff | crates/grith-cli/src/diff.rs:25-79 | The result shows, in order, exactly the script lines at the positions within the context of a change; so every change survives and the counters are those of the whole script. |
| EditDistance.Levenshtein | crates/grith-cli/src/commands.rs:90-113 | The last cell of the filled matrix is reached by some script of insertions, deletions and substitutions, and no script costs less. |
| EditDistance.DistanceIsMetric | crates/grith-cli/src/commands.rs:90-113 | The distance is zero exactly on equal texts, symmetric, and obeys the triangle inequality. |
| EditDistance.SuggestCommand | crates/grith-cli/src/commands.rs:80-87 | The first known command the input is a prefix of or within distance two of, or none if there is none. |

## Findings

Properties one would expect that the code does not have, each with its input, its exact condition and the
theorem that states it.

1. A prune that empties the segment (crates/grith-audit/src/storage.rs:903-920 reads no boundary, so
   numbering restarts at 1, while lines 2130-2160 keep the checkpoint at the old head). Incremental and
   full verification then disagree, except exactly as `Runs.EmptyingPruneDiverges` says. The caller's
   condition is whether the bound is the head sequence; `Runs.RunsAgree` holds for all runs that avoid it.
2. Two backfills in flight (crates/grith-audit/src/storage.rs:1519-1563 reads the legacy rows before its
   transaction begins). `Writers.TwoBackfillsBreakTheChain` is a run that ends in an unanchored chain;
   `Writers.StaleBackfillIff` gives the exact condition for a stale commit, and
   `Writers.InterleavingsAreSerial` holds whenever no backfill reads while another is in flight.
3. Two deletes in flight (crates/grith-audit/src/storage.rs:2091-2117 reads the hash at the bound before its
   transaction begins). `Writers.TwoDeletesBreakTheAnchor` is a run, over any chain long enough, that ends
   in an anchor mismatch; `Writers.StaleDeleteIff` gives the exact condition for a stale commit, and
   `Writers.InterleavingsAreSerial` holds whenever no delete reads its bound while another is in flight.
4. A tail pass over a restarted chain (crates/grith-audit/src/analytics.rs:769-796 never compares the
   cursor's hash; only opening the database does, at lines 1740-1809). `EpochWitness.RestartStrands` and
   `EpochWitness.EventsStrand` are runs that end with an active row the cursor claims and the projection
   never saw, which reopening does not notice. `EpochRuns.NextPassStrandsIff` and `Epoch.PassStrandsIff`
   give the exact condition, and `EpochRuns.RunsStrandNothing` holds for all runs in which no pass runs on a
   restarted chain.
5. The repair's test (crates/grith-audit/src/storage.rs:1602-1611 overwrites sequence and predecessor
   before it compares them, so only the hash comparison has effect). A row whose stored hash is right but
   whose stored sequence is wrong survives the repair: `GapRepair.RecordGapStays` is a gap between two
   version-1 records that the repair leaves. `Repair.RepairValidIff` gives the exact condition for any table;
   for hash-linked rows it is the version of the first row out of place (`GapRepair.RecordGapClosesIff`),
   and over version-2 and version-3 records that carry their own hashes the repair always succeeds
   (`GapRepair.RepairMendsRecords`).
6. The total row limit (crates/grith-analytics/src/accumulator.rs:592-597) can never be the limit that
   fails, because the five family limits add up to it: proved inside
   `DayAccumulator.DayAccumulator.CheckRowLimits`.
7. The gap count of a full rebuild (crates/grith-audit/src/analytics.rs:2170-2191 writes it only when some
   replayed record has a sequence). After a rebuild over records none of which has one, or over nothing at all,
   the count of earlier gaps stays; otherwise it is the number of stored records the adapter cannot express.
   `RebuildCoverage.ReplayTakesIn` states both cases.

## Left out

- HashDeterminesEvidence: says nothing of two version-1 records, because the version-1 form is a pipe join over nine fields and is not injective; what it does determine is `PreimageV1Determines`, and `VersionOne` says which fields it covers and when they can be told apart.
- TamperEvident: is about version-2 and version-3 rows for the same reason, and so is TamperEvidentStores; a version-2 hash does not cover the analytics envelope, and a NULL record type is known only to read as the same type.
- TamperEvidentStores: sequences are positive, as the code assigns them; rows at or below zero are not walked.
- RunsAgree: is about runs whose prunes leave a row, because the code behaves otherwise after an emptying prune (finding 1); a backfill of a legacy row whose enum columns were tampered with chains a row that verification reports.
- RecordRunsAgree: records of an unknown hash version are left out, because their marker covers neither sequence nor predecessor.
- StaleBackfillIff: every row is chained, which is what the backfill that came first leaves (`BackfillGrounded`).
- MaterializedExactlyOnce: likewise about non-emptying prunes (finding 4); the runs of `EpochRuns.RunsStrandNothing` include emptying prunes.
- LostBoundaryRecovered: likewise, because an emptied segment restarts at genesis and needs no boundary.
- EmptyingPruneDiverges: assumes that no legacy row is left beside the chain; with one, full verification answers Broken before it counts anything.
- OrderIsIrrelevant: events with one chain sequence must be one event, because the last of them to arrive leaves its hash.
- ReplayReproduces: hashes must be lower-case hex, because the reader re-encodes them so; destination and security columns are not read back.
- Ingest: a failed ingest may leave some counters updated, as in the code; the group-by theorems are about runs in which none fails. Which counter overflowed is not part of the error.
- InterleavingsAreSerial: the queries a backfill or a delete makes before its transaction are one step; a repair, which also reads before its transaction, is not among the interleaved operations.
- BuildDaySnapshot: the partial or final mark of a day depends on the clock and is not stored.
- NoStrandedRecords: a version-1 row whose predecessor is a text with a bar in it, which no digest has, is left out.
- NormalFilterIds: white space around a filter id is trimmed as ASCII; the general normalisation of dimension names is not part of this model.
- ComputeDiff: the sum `pos + context_lines + 1` does not wrap around.
- UploadsConverge: the day is not pruned from the projection while its upload is pending, and security-event rows and their acknowledgements are not part of the upload.
- PruneAndArchive: a torn frame, that is an append cut short by a power failure, is outside the model.
- InsertRecord: the retry on a unique-index violation is left out, because the sequence read in the same transaction is always free.
- The adapter from records to analytics events: a parameter of the projection, so events that validation rejects (a positive score that rounds to zero, a destination on a non-decision record) are outside the composed theorems.
- The coverage interval of an epoch, which projecting older records may move back, and the closed epochs' metadata.
- The archive upload queue, the outbox, request sequences and device registration.
- SQLite itself, the write-ahead log, compaction, file rotation, schema migration, file locks, compression and JSON.
- Chrono formatting, floating-point parsing and rounding of scores and costs: parameters or bit patterns.
- Rendering, the dashboard, the REPL, statistics and export: only easy members.
