# VaultKeeper: a verified model of the evidence locker

VaultKeeper stores evidence files with their metadata, keeps a hash-chained custody log, and promises that
neither can change unnoticed. These Dafny modules model the parts of the Go program that carry that promise and
prove what they keep over every run: interleavings of concurrent callers, every failure of a repository or storage
call, every way a reader splits its bytes. Check the whole project with `dafny verify dfyconfig.toml`.

Where the code works step by step, the model does too: classes whose methods change fields, loops over buffers,
and state machines with one step for every database or storage call. Each method is tied to a specification
function, and the properties are proved of that function or of every run.

## The components

**Custody log** (`UuidColumn`, `CustodyChain`, `TamperEvidence`, `CustodyLog`, `ChainValidity`, `CustodyProtocol`,
`CustodyGuarantees`). The entry hash is taken over eight fields joined by `|`. Recording is a transaction (begin,
lock, read the last hash, write, commit or roll back); any number run interleaved, with the lock derived from the
first eight bytes of the case id. SHA-256 and JSON canonicalisation are functions; where the proofs need it, they
assume that the finitely many texts hashed in the logs at hand do not collide (a function to 64 hex characters
cannot be injective on all texts). UUID and RFC 3339 texts are written out and proved injective. A stored row is
what its columns hold: timestamps of whole microseconds, and an actor that is a UUID and reads back in canonical text
however it was written; the column's reading of other spellings follows PostgreSQL's `uuid` input.

**Evidence store** (`EvidenceNames`, `EvidenceTables`, `EvidenceStore`, `EvidenceNumbering`). Rows and objects under
interleaved uploads, destructions and thumbnail jobs. Every call may succeed, fail without effect, or take effect
while its caller sees an error; a process that crashes simply takes no further step.

**Case life cycle and versions** (`VaultCalls`, `EvidenceVault`, `CallReplies`, `VersionFamilies`, `CaseLifecycle`,
`CallEffects`, `CallsAsSteps`). The services call by call, with the same failures. `EvidenceVault` is the imperative form;
`CallReplies` says on the input alone when each call is accepted, what a refusal answers and what is written;
`CallsAsSteps` shows that an upload, destruction or thumbnail job that runs undisturbed is one of the interleavings
of `EvidenceStore`. The results of `VersionFamilies`, `CaseLifecycle` and `CallEffects` are about whole calls, one after
another, each failing in any way. Calls that overlap between their checks and their writes are the subject of
`ServiceRaces` and `VersionRaces`, on the same tables; `CallsAsRaces` shows that each call which runs undisturbed is one
of their runs, and gives the races they admit.

**Integrity job** (`IntegrityJob`, `StoreVerification`), **backup container** (`BackupFormat`, `BackupStream`),
**query building and paging** (`Sql`, `CaseQueries`, `EvidenceQueries`, `Paging`, `CaseListing`,
`NotificationListing`), **timestamp retry** (`HexCodec`, `TsaRetry`), **mail queue** (`EmailQueue`) and **file names**
(`FilenameSanitizer`).

`Common` and `Texts` hold shared vocabulary: options and results, digit strings, joined fields, UUID and time texts.

## What the code does not do

Proving exact conditions showed where the code falls short of what it is for:

- A custody chain verifies if and only if each case's entries are committed in (timestamp, id) order, every timestamp
  is a whole number of microseconds, and every actor is written in canonical UUID text. The code guarantees none of
  these: it stamps before it takes the lock, it stamps nanoseconds, which the `TIMESTAMPTZ` column drops, and it hashes
  the token's subject as given, which the `UUID` column may respell (`RecordedChainVerifiesIff`,
  `LateCommitBreaksChain`, `NanosecondStampBreaksChain`, `RewrittenActorBreaksChain`, `BracedActorBreaksChain`).
- The PDF report skips the first entry's hash and all links, so it prints VERIFIED for chains the verifier rejects
  (`ReportAgreement`, `ReportMissesFirstEntry`).
- Separators are not escaped. Two logs that verify and end in the same hash agree on an entry if and only if actor and
  action hold equally many bars in both (`TamperEvidentIff`). User text in the detail is enough to fail this: the
  destruction reason goes into it unchecked, and if it spells a time, an evidence id and the case's id between bars, the
  row can be replaced by one with another action, time, evidence and detail, and the log still verifies
  (`SeparatorAmbiguity`, `RespelledRowPasses`).
- If creating a row takes effect but reports an error, the cleanup deletes the file of a live row
  (`LostReplyStrandsRow`); nothing else can (`StoreMatchesRows`).
- If just one of the two bookkeeping calls of a new version takes effect, its family has no current member or two
  (`NewVersionKeepsOneCurrentIff`); the service only logs the failure. With calls interleaved and every write taking
  effect, a family comes out with one current member if and only if no other call was between its marking and its joining
  when the family was last marked (`OneCurrentIffLastMarkAlone`, `OverlapLeadsToTwo`, `TwoCurrent`). Parent links get
  deeper than one exactly after a new version is begun from a row that has not joined its family yet (`DoomedByIff`,
  `DepthWindow`, `UnsettledParentDeepens`).
- A status update archives a case under legal hold, which ArchiveCase refuses (`HoldBypass`).
- Checks and writes are separate calls. Evidence can be destroyed under a standing hold, and an archived case, its
  evidence counter, its evidence or their families can change, exactly when some call had passed its check before
  (`HoldWindow`, `ArchiveWindow`, `DestroyedUnderHold`, `ArchivedCaseReopened`).
- A truncated backup is accepted when it is cut between chunks or inside a length prefix (`Truncation`).
- A pending timestamp is marked failed for its age if and only if a pass lists the item within a day of its upload and
  deals with it after that day. One not taken by a pass in time is no longer found by the query and stays pending for
  ever (`FailedIff`, `MissedRowStaysPending`, `ExpiredButPending`).
- Mail accepted after the deliverer has returned is never attempted (`AttemptedIffAcceptedByReturn`,
  `AcceptedButNeverAttempted`).
- Asked for more than 100 notifications at a time, the walk through the pages ends after the first 100
  (`WalkIsCompleteIff`).
- A search means "contains" if and only if it holds no percent sign, underscore or backslash
  (`SearchMeansContainsIff`).
- Sanitizing a file name twice differs from once when truncation leaves a space at the end or nothing in front of the
  extension (`IdempotentIff`, `CutAtSpaceIsNotStable`), and an extension longer than 255 fails (`FailsIff`,
  `LongExtensionFails`).

## Model

| member | source | states |
|---|---|---|
| CustodyChain.VerifyCaseChain | internal/custody/chain.go:26-69 | replaying a log reports exactly the true breaks: position, id, time, and the expected and the actual value, for each wrong hash and each wrong link; valid when there are none |
| CustodyChain.NoBreaksIffIntact | internal/custody/chain.go:42-66 | there are no breaks if and only if every hash check and every link check passes |
| CustodyChain.BreaksComplete | internal/custody/chain.go:42-66 | each failed hash check is reported with the computed hash expected and the stored one actual, each failed link check with the hash before it expected and the named one actual |
| CustodyChain.BreaksSound | internal/custody/chain.go:42-66 | each reported break is a failed check at its position, with those values |
| CustodyChain.BreaksExact | internal/custody/chain.go:42-66 | a break is reported if and only if it is true of the log, said without the functions that make breaks |
| CustodyChain.BreaksOrdered | internal/custody/chain.go:42-66 | breaks come in position order |
| CustodyChain.BreaksCounted | internal/custody/chain.go:42-66 | there is one break for each failed hash check and one for each failed link check |
| CustodyChain.WriteHashChainStatus | internal/reports/pdf.go:311-319 | the report's break count is the number of failed hash checks at positions 1 and later, and it prints verified when that is 0 |
| CustodyChain.ReportAgreement | internal/reports/pdf.go:311-319 | the verifier passes exactly when the report does, the first entry's hash is right and every link holds |
| CustodyChain.ReportMissesFirstEntry | internal/reports/pdf.go:313-319 | a one-entry log with a wrong hash is verified by the report and broken for the verifier |
| TamperEvidence.TextInjective | internal/custody/chain.go:71-84 | the joined text determines the previous hash and all seven fields when actor and action contain no separator |
| TamperEvidence.LogTextLayout | internal/custody/chain.go:71-84 | the hashed text is the eight fields in their order with bars between |
| TamperEvidence.TextsAgreeIff | internal/custody/chain.go:71-84 | equal texts continue the same hash with the same id, and their entries agree if and only if actor and action hold equally many separators in both |
| TamperEvidence.TamperEvidentIff | internal/custody/chain.go:42-84 | two logs that verify and end in the same hash have equal length and the same ids, and agree on an entry exactly when actor and action hold equally many separators in both |
| TamperEvidence.StoredRowIsPlain | migrations/001_initial_schema.up.sql:51-61 | of stored rows only the action can hold a separator |
| TamperEvidence.TamperEvident | internal/custody/chain.go:42-84 | two logs that verify and end in the same hash have equal length and agree entry by entry on id, actor, action, time, evidence, case and canonical detail |
| TamperEvidence.SeparatorAmbiguity | internal/evidence/service.go:390-394 | a recorded row whose JSON detail spells a time, an evidence id and its case id between bars has the hash of another row with a longer action, that time and evidence, and the rest of the detail |
| TamperEvidence.RespelledRowPasses | internal/custody/chain.go:42-84 | put in the place of the recorded row, that row leaves the log verifying |
| CustodyLog.LatestIsMaximum | internal/custody/repository.go:50-58 | the row read for the last hash is a row of the case that no row of the case exceeds by (timestamp, id), and is absent only if the case has none |
| CustodyLog.SortedIsPermutation | internal/custody/repository.go:172-193 | the verifier's listing holds exactly the rows of the case, each as often as stored |
| CustodyLog.SortedByTime | internal/custody/repository.go:172-193 | the listing is in strict (timestamp, id) order |
| ChainValidity.CommittedRowsFormATree | internal/custody/repository.go:50-76 | whatever the timestamps: each row's hash is computed over its previous hash, which is empty for exactly the first committed row of the case and otherwise the hash of an earlier one |
| ChainValidity.ChainValidIff | internal/custody/repository.go:37-84 | a case verifies if and only if its entries were committed in stored (timestamp, id) order with timestamps and actors that storage keeps as they were hashed |
| CustodyProtocol.CustodyTable.Insert | internal/custody/repository.go:37-84 | one call appends exactly the sealed row, or nothing, for every point of failure including a lost commit reply, a duplicate id and an actor that is no UUID |
| CustodyProtocol.CustodyTable.VerifyCase | internal/custody/chain.go:26-69 | on the table the verdict is the exact condition on the recorded history, and the breaks are exactly the true ones of the listing, expected and actual value included |
| CustodyProtocol.CommitKeepsCurrent | internal/custody/repository.go:44-48 | a commit leaves every other open transaction's read last hash the last hash of its case |
| CustodyProtocol.CommitKeepsSerial | internal/custody/repository.go:60-82 | a commit leaves the table equal to recording the committed entries one after another |
| CustodyProtocol.InterleavingIsSerial | internal/custody/repository.go:37-84 | after every interleaving with any rollbacks the table is what recording the committed entries alone, in commit order, gives; a read last hash stays the last until commit |
| CustodyProtocol.InterleavingVerifiesIff | internal/custody/repository.go:37-84 | after every interleaving a case verifies if and only if its entries were committed in order with whole microseconds and canonical actors |
| CustodyGuarantees.RecordedChainVerifiesIff | internal/custody/chain.go:26-84 | the same for the program's own entry hash over faithful texts, assuming no collision among the table's texts |
| CustodyGuarantees.ProgramIsSane | internal/custody/chain.go:71-84 | the program's UUID and time texts and its UUID actor column meet the premises of these results |
| CustodyGuarantees.NanosecondStampBreaksChain | internal/custody/logger.go:27-38 | a case with any entry stamped off a whole microsecond never verifies |
| CustodyGuarantees.LateCommitBreaksChain | internal/custody/logger.go:27-38 | a case with any entry committed after one of its case that it does not exceed never verifies |
| CustodyGuarantees.RewrittenActorBreaksChain | internal/custody/chain.go:71-84 | a case with any entry whose accepted actor reads back in another text never verifies |
| CustodyGuarantees.BracedActorBreaksChain | internal/custody/chain.go:71-84 | such is the braced form of any canonical id: accepted, in order, on a whole microsecond, and broken |
| UuidColumn.KeptIff | migrations/001_initial_schema.up.sql:56 | the actor column reads a text back unchanged if and only if it is lower-case hex in hyphenated groups |
| UuidColumn.ColumnStable | migrations/001_initial_schema.up.sql:56 | what the column holds is canonical and stays the same when written again |
| UuidColumn.BracesDropped | migrations/001_initial_schema.up.sql:56 | a canonical text in braces is accepted and reads back without them |
| UuidColumn.AcceptedFree | migrations/001_initial_schema.up.sql:56 | no accepted text contains a field separator |
| Texts.UuidTextInjective | internal/custody/chain.go:71-84 | the hyphenated text of a UUID determines it |
| Texts.TimeTextInjective | internal/custody/chain.go:71-84 | the RFC 3339 text with trimmed nanoseconds determines the instant |
| Texts.TimeLayout | internal/custody/chain.go:71-84 | that text has the layout of RFC 3339, with a fraction exactly when the second is not whole, never ending in zero |
| BackupFormat.Be32Inverse | internal/backup/encrypt.go:104-149 | the four-byte big-endian length reads back as the length |
| BackupFormat.EncryptedLength | internal/backup/encrypt.go:74-120 | n bytes encrypt to 49 + n + 32 times the number of 64 KiB chunks |
| BackupFormat.FrameShape | internal/backup/encrypt.go:102-153 | every length prefix is the length of what follows, fits 32 bits and stays under the reader's 1 MiB limit |
| BackupFormat.FrameAt | internal/backup/encrypt.go:94-119 | chunk i stands at its own place, sealed under its own twelve random bytes |
| BackupFormat.HeaderBytes | internal/backup/encrypt.go:40-47 | the header is VKBK, version 1, the algorithm name and the salt |
| BackupFormat.HeaderVerdict | internal/backup/encrypt.go:49-61 | each refusal of a header, and of an empty key, is given exactly for its reason |
| BackupFormat.ChunkVerdict | internal/backup/encrypt.go:142-171 | what any bytes behind the header mean: the big-endian length, its limit of 1 MiB, missing bytes, a chunk too short, a tag that does not fit, a quiet end |
| BackupFormat.RoundTrip | internal/backup/encrypt.go:74-171 | decrypting what was encrypted gives the plaintext back for every plaintext, key, salt and nonces |
| BackupFormat.EncryptedCut | internal/backup/encrypt.go:49-171 | a stream cut anywhere gives a header error, a chunk error, or the whole chunks before the cut |
| BackupFormat.Truncation | internal/backup/encrypt.go:49-171 | decrypting a prefix fails exactly when the cut is inside the header or a chunk body, and otherwise yields exactly the whole chunks before it, or everything if uncut |
| BackupStream.Reader.Read | internal/backup/encrypt.go:74-120 | a read returns any number of the next bytes, its error only once they are used up |
| BackupStream.ReadFull | internal/backup/encrypt.go:142-157 | a full read takes the next bytes of the source however its reads are split, and ends with no error, at the end, within it, or broken exactly as io.ReadFull does |
| BackupStream.Encrypt | internal/backup/encrypt.go:74-120 | through any reader the output is the specified container, and each error is given exactly when it comes first among key, salt, nonce and source |
| BackupStream.SealChunk | internal/backup/encrypt.go:97-110 | one chunk becomes one frame under the next nonce, or fails when there is none |
| BackupStream.EncryptBody | internal/backup/encrypt.go:94-119 | the frames behind the header, or the error that comes first among nonces and source |
| BackupStream.ReadHeader | internal/backup/encrypt.go:49-61 | yields the salt, or refuses a short header, wrong magic or wrong version, in that order |
| BackupStream.Decrypt | internal/backup/encrypt.go:124-171 | through any reader the result is what the bytes mean, for arbitrary and malformed input too |
| BackupStream.BackupAndRestore | internal/backup/encrypt.go:74-171 | encrypting and decrypting through any two readers restores the plaintext |
| EvidenceNames.KeyTextInjective | internal/evidence/models.go:194-196 | different object keys have different texts, evidence and thumbnails included, even if file names contain slashes |
| EvidenceNames.KeyTextLayout | internal/evidence/models.go:194-196 | the key texts spelled out |
| EvidenceNames.EvidenceNumberInjective | internal/evidence/service.go:161-170 | a number determines reference code and counter, also past 99999 |
| EvidenceNames.NumberLayout | internal/evidence/service.go:161-170 | a number is the reference code, a hyphen and five digits, or more from 100000 on |
| EvidenceStore.StepKeepsStoreInv | internal/evidence/service.go:104-231 | every call of every process, whatever its outcome, keeps the agreement of rows and objects |
| EvidenceStore.StoreMatchesRows | internal/evidence/service.go:104-231 | after every interleaving with any failures and crashes a live row's object is present with the recorded hash unless its own upload's cleanup took it, linked thumbnails of live rows are present, and no two rows share a key |
| EvidenceStore.HonestRunBacksEveryLiveRow | internal/evidence/service.go:172-213 | if no creation takes effect while reporting an error, every live row is backed |
| EvidenceStore.LostReplyStrandsRow | internal/evidence/service.go:205-213 | five calls, with one lost reply, after which a live row has no file |
| EvidenceStore.DestructionsMarkedKept | internal/evidence/service.go:372-388 | no destruction deletes anything before its row is marked |
| EvidenceStore.LiveRowsBackedKept | internal/evidence/service.go:172-213 | every step keeps live rows backed except exactly those whose file a cleanup took |
| EvidenceStore.ThumbnailsPresentKept | internal/evidence/service.go:504-523 | every step keeps the thumbnail a live row names in the store |
| EvidenceNumbering.EvidenceNumbersUnique | internal/evidence/repository.go:358-390 | in every interleaving, failed uploads included, each case's issued counters are 1, 2, 3, ... and no two rows of any cases have the same number text |
| EvidenceNumbering.IssuedInOrderKept | internal/evidence/repository.go:378-390 | every step keeps the issued counters of every case consecutive |
| EvidenceVault.Vault.CreateCase | internal/cases/service.go:44-72 | accepted if and only if title, description and jurisdiction keep their limits, the reference code is well-formed and unused and the write succeeds; tables and reply are those of the specified call |
| EvidenceVault.Vault.UpdateCase | internal/cases/service.go:100-151 | the new tables and the reply are those of the specified call: checks in order, sanitized fields, other columns untouched |
| EvidenceVault.Vault.ArchiveCase | internal/cases/service.go:153-180 | the new tables and the reply are those of the specified call: hold before status |
| EvidenceVault.Vault.SetLegalHold | internal/cases/service.go:182-212 | the new tables and the reply are those of the specified call |
| EvidenceVault.Vault.IncrementCounter | internal/evidence/repository.go:358-390 | an effective call adds one to the counter of an existing case and nothing else; a reported counter is the new one |
| EvidenceVault.Vault.MarkDestroyed | internal/evidence/repository.go:279-291 | takes effect on live rows only and reports failure when there is none |
| EvidenceVault.Vault.MarkPreviousVersions | internal/evidence/repository.go:434-442 | the root and its versions lose the current flag, all other rows stay |
| EvidenceVault.Vault.UpdateVersionFields | internal/evidence/repository.go:424-432 | one row gets parent, version and the current flag |
| EvidenceVault.Vault.Upload | internal/evidence/service.go:104-231 | accepted if and only if file name, description and size pass, the case exists and is active, and counting, storing and creating succeed; tables and reply for every outcome of its four calls, cleanup included |
| EvidenceVault.Vault.UploadNewVersion | internal/evidence/service.go:400-441 | accepted if and only if the parent is a live record and the upload to its case is; tables and reply for every outcome of its six calls |
| EvidenceVault.Vault.Destroy | internal/evidence/service.go:340-397 | tables and reply after a destruction for every outcome of its calls, checks in order |
| EvidenceVault.Vault.UpdateMetadata | internal/evidence/service.go:262-295 | a description update changes live rows only |
| EvidenceVault.Vault.GenerateThumbnail | internal/evidence/service.go:504-523 | the image is stored before its key is linked |
| CallReplies.CreateCaseAcceptedIff | internal/cases/service.go:214-240 | when creating a case is accepted, on the input, the limits as numbers |
| CallReplies.CreateCaseRefused | internal/cases/service.go:214-240 | which answer the first failing check of a new case gets, each if and only if |
| CallReplies.CreatedCase | internal/cases/service.go:44-72 | the new case has each text trimmed and escaped from its own input, is active, without hold and with counter 0; every other case, row and object stays |
| CallReplies.UpdateCaseAcceptedIff | internal/cases/service.go:100-131 | when an update is accepted: case not archived, texts within limits, one of the two status steps, write done |
| CallReplies.UpdateCaseRefused | internal/cases/service.go:242-280 | which answer the first failing check of an update gets |
| CallReplies.UpdatedCase | internal/cases/service.go:114-131 | requested columns get their sanitized texts, all other columns and cases stay |
| CallReplies.ArchiveCaseReplies | internal/cases/service.go:153-180 | hold first, then nothing to do if archived, refused unless closed; an accepted one sets the status and nothing else |
| CallReplies.SetLegalHoldReplies | internal/cases/service.go:182-212 | refused of an archived case, nothing to do if so already; an accepted one sets the hold and nothing else |
| CallReplies.UploadAcceptedIff | internal/evidence/service.go:104-231 | when an upload is accepted, on input, tables and outcomes |
| CallReplies.UploadRefused | internal/evidence/service.go:454-482 | which answer the first failing check of an upload gets, each if and only if |
| CallReplies.AcceptedUpload | internal/evidence/service.go:139-213 | the exact tables after an accepted upload: next number, the very bytes under their key, and a row with their hash, every column spelled out |
| CallReplies.FailedUpload | internal/evidence/service.go:166-213 | what an upload that failed after its checks leaves, table by table, for every outcome of its calls |
| CallReplies.NewVersionAcceptedIff | internal/evidence/service.go:400-416 | when a new version is accepted: its parent exists and is live, and the upload to the parent's case is accepted |
| CallReplies.NewVersionRefused | internal/evidence/service.go:400-416 | a missing and a destroyed parent are told apart, all else is answered as for the upload |
| CallReplies.AcceptedVersion | internal/evidence/service.go:418-431 | the rows after an accepted new version: root, version and current flags of the family for every outcome of the bookkeeping calls |
| CallReplies.DestroyAcceptedIff | internal/evidence/service.go:340-375 | when a destruction is accepted |
| CallReplies.DestroyRefused | internal/evidence/service.go:340-375 | which answer the first failing check of a destruction gets; a failed marking leaves the objects alone |
| CallReplies.UpdateMetadataReplies | internal/evidence/service.go:262-295 | when a description update is accepted, what it answers otherwise, and that it changes that description only |
| CallReplies.ThumbnailReplies | internal/evidence/service.go:504-523 | when a thumbnail job ends well, and the exact tables then |
| CallsAsSteps.UploadIsSteps | internal/evidence/service.go:104-231 | an accepted upload is a run of the interleaved machine with the same tables |
| CallsAsSteps.CreateCaseIsStep | internal/cases/service.go:44-72 | an effective creation of a case is the interleaved machine's step for new cases, with the same tables, and can be taken |
| CallsAsSteps.DestroyIsSteps | internal/evidence/service.go:340-397 | an accepted destruction is a run of the interleaved machine with the same tables |
| CallsAsSteps.ThumbnailIsSteps | internal/evidence/service.go:504-523 | a thumbnail job is a run of the interleaved machine with the same tables |
| VersionFamilies.CallChangesRows | internal/evidence/service.go:400-441 | every call changes the rows by at most one added, touched or versioned row |
| VersionFamilies.HistoryIsWholeFamily | internal/evidence/repository.go:401-422 | from any member the version history is the member's whole family, and families are disjoint |
| VersionFamilies.FamiliesOverRuns | internal/evidence/service.go:400-441 | over any calls parent links have depth at most one within a case, and every family has exactly one current member as long as no new version's bookkeeping takes effect by half |
| VersionFamilies.OneCurrentIff | internal/evidence/repository.go:424-442 | a change keeps one current member in every family if and only if a new version's two bookkeeping calls agree |
| VersionFamilies.NewVersionKeepsOneCurrentIff | internal/evidence/service.go:418-431 | the same for an accepted UploadNewVersion call |
| VersionFamilies.VersionsOverRuns | internal/evidence/service.go:418-431 | if each new version is made from the current member, every family's versions are exactly 1..k and its current member is version k |
| VersionRaces.OneCurrentIffLastMarkAlone | internal/evidence/service.go:418-431 | in every interleaving of new versions of settled rows with effective writes, a family with no call between marking and joining has one current member if and only if no other call was in between when it was last marked |
| VersionRaces.OverlapLeadsToTwo | internal/evidence/service.go:418-431 | wherever one call is in between and another has yet to mark, three successful writes leave two current members |
| VersionRaces.DepthWindow | internal/evidence/service.go:418-431 | from links of depth one, depth two can come about from settled rows only if and only if a call works under a row that has a parent or is still to be joined to one, or a row has joined such a row |
| VersionRaces.DoomedByIff | internal/evidence/service.go:400-422 | a state becomes so by exactly one step: a new version begun from a row whose own call has not joined it yet |
| VersionRaces.SettledStaysShallow | internal/evidence/service.go:400-441 | links stay at depth one over every interleaving of new versions of settled rows |
| VersionRaces.TwoCurrent | internal/evidence/service.go:418-431 | a run of two new versions of one row whose calls all succeed, leaving two current members |
| VersionRaces.UnsettledParentDeepens | internal/evidence/service.go:418-431 | a run in which a version made from a row that has not joined its family ends under a parent with a parent |
| CaseLifecycle.CallStepsCase | internal/cases/models.go:94-102 | one call leaves a status or takes one allowed step, keeps the reference code, and changes nothing of an archived case |
| CaseLifecycle.StatusOnlyMovesForward | internal/cases/service.go:100-212 | over any calls a status only moves along active, closed, archived, and an archived case is the same for ever |
| CaseLifecycle.ArchivedEvidenceIsFrozen | internal/evidence/service.go:104-375 | from archiving on, a case's evidence records with their flags, versions, parents, hashes and keys, and its stored evidence files, never change |
| CaseLifecycle.HoldProtectsEvidence | internal/evidence/service.go:359-366 | until a hold is released it stays, no evidence of the case is destroyed and no file of it is lost |
| CaseLifecycle.HoldBypass | internal/cases/service.go:100-151 | a held case becomes archived by exactly one kind of call: a valid status update from closed |
| CaseLifecycle.DestroyedIff | internal/evidence/service.go:340-375 | a record becomes destroyed if and only if Destroy is called on it with a reason, its case is neither archived nor held, and marking takes effect |
| CaseLifecycle.ReachableShape | internal/evidence/service.go:104-441 | the premises about parents and keys hold of everything reachable from an empty vault |
| ServiceRaces.HoldWindow | internal/evidence/service.go:340-375 | with calls interleaved, evidence can be destroyed under a standing hold if and only if some destruction had read "not held" before and not yet marked its record |
| ServiceRaces.ArchiveWindow | internal/cases/service.go:100-212 | with calls interleaved, an archived case, its counter, its evidence rows or their family columns can still change if and only if some call had passed the check that should stop it and has yet to write |
| CallsAsRaces.DestroyedUnderHold | internal/evidence/service.go:359-373 | a run in which a hold set between check and mark does not save the evidence |
| CallsAsRaces.ArchivedCaseReopened | internal/cases/service.go:100-131 | a run in which a late status update closes an archived case again |
| CallsAsRaces.DestroyIsRun | internal/evidence/service.go:340-375 | an undisturbed destruction as a run of single checks and writes, with the same tables |
| CallsAsRaces.ArchiveIsRun | internal/cases/service.go:153-172 | an undisturbed archiving as such a run |
| CallsAsRaces.HoldIsRun | internal/cases/service.go:182-198 | an undisturbed hold or release as such a run |
| CallsAsRaces.UpdateIsRun | internal/cases/service.go:100-131 | an undisturbed update as such a run |
| CallsAsRaces.UploadIsRun | internal/evidence/service.go:104-213 | an undisturbed upload as such a run, for every outcome of its calls |
| CallsAsRaces.NewVersionIsRun | internal/evidence/service.go:400-452 | an undisturbed new version as such a run, for every outcome of its calls |
| CallsAsRaces.NewVersionIsVersionRun | internal/evidence/service.go:400-452 | an accepted new version as a run of the machine that looks at rows alone |
| CallEffects.FailedUploadAddsRowIff | internal/evidence/service.go:205-213 | an upload reported as failed adds a row if and only if its creation took effect all the same |
| CallEffects.AcceptedDestroy | internal/evidence/service.go:372-388 | an accepted destruction marks its record, removes its file and thumbnail as far as their deletions took effect, and nothing else |
| CallEffects.CasesAreIsolated | internal/evidence/service.go:104-441 | no call, however it fails, changes record, evidence or stored files of another case |
| IntegrityJob.VerifyFileHash | internal/integrity/verifier.go:32-49 | fails exactly unless the file is readable with the expected digest; as digests are never empty, the computed one is empty exactly when the file was unreadable |
| IntegrityJob.Handler.VerifyItem | internal/integrity/handler.go:250-282 | an item whose file reads back with the recorded digest counts as verified, with another digest as mismatched, unreadable as missing; all but the first are alerted, and flagged if that call takes effect |
| IntegrityJob.Handler.RunVerification | internal/integrity/handler.go:213-248 | at the end verified, mismatches and missing are the numbers of files with the recorded digest, another one, and unreadable, an id is alerted or flagged if and only if such a file is not as recorded; an observer sees exactly the specified states; a load failure only fails the job |
| IntegrityJob.Conservation | internal/integrity/handler.go:78-92 | in every observable state verified + mismatches + missing is the number of items processed and at most the total |
| IntegrityJob.CompletedHasProcessedAll | internal/integrity/handler.go:225-237 | a job is completed only in its last state, when the sum equals the total |
| IntegrityJob.CountIsNumberOfItems | internal/integrity/handler.go:250-282 | each counter is the number of processed items of its class |
| IntegrityJob.CountsOnlyGrow | internal/integrity/handler.go:279-296 | no counter ever falls |
| IntegrityJob.FlaggedAreTheBad | internal/integrity/handler.go:284-348 | flagged are exactly the mismatched and missing items whose flag call took effect |
| IntegrityJob.AlertedAreTheBad | internal/integrity/handler.go:284-388 | alerted are exactly the mismatched and missing items |
| IntegrityJob.CountersTell | internal/integrity/handler.go:250-336 | after the first k items each counter is the number of files, by digest |
| IntegrityJob.AlertsTell | internal/integrity/handler.go:284-388 | who is alerted and who is flagged, by digest |
| IntegrityJob.FinishedJobDetects | internal/integrity/handler.go:213-348 | both together at the end of a job, with one alert for each bad file |
| StoreVerification.UntamperedStoreVerifiesIff | internal/integrity/handler.go:213-248 | over a store only the services touched, the job finds no mismatch, and verifies everything if and only if no listed row lost its file to a cleanup |
| StoreVerification.AlertedIffAltered | internal/integrity/verifier.go:32-49 | after any run of the services and any later change of the store, an item is alerted if and only if a listed file of it is gone or no longer has the digest of the stored bytes |
| StoreVerification.HonestStoreVerifies | internal/integrity/handler.go:213-248 | without misreported creations the job ends with verified equal to total |
| Sql.Conjoined | internal/cases/repository.go:85-131 | a condition added with its arguments means one more conjunct, and earlier placeholders keep their meaning |
| Sql.SearchMeansContains | internal/cases/repository.go:109-115 | a search for text without wildcards finds exactly the texts containing it, up to case |
| Sql.PrefixLike | internal/evidence/repository.go:160-164 | a MIME filter without wildcards finds exactly the types starting with it, up to case |
| Sql.SearchMeansContainsIff | internal/cases/repository.go:109-115 | a search finds exactly the texts containing it if and only if it holds no percent sign, underscore or backslash |
| Sql.PrefixMeansStartsIff | internal/evidence/repository.go:160-164 | a MIME filter finds exactly the types starting with it under the same condition |
| CaseQueries.StatusPlaceholders | internal/cases/repository.go:93-101 | each status gets its own consecutive placeholder and argument |
| CaseQueries.BuildFilter | internal/cases/repository.go:78-115 | the conditions under the arguments mean the filter's clauses, and the next placeholder is one past the arguments |
| CaseQueries.BuildFindAll | internal/cases/repository.go:78-166 | for every filter and cursor the list query selects exactly the matching cases below the cursor, the count query exactly the matching cases, and the last placeholder is the limit plus one |
| CaseQueries.BuildUpdate | internal/cases/repository.go:196-232 | the assignments under the arguments are exactly the requested update of any case, none if nothing is requested, and the last placeholder is the id |
| CaseQueries.RequestedIsServiceUpdate | internal/cases/service.go:114-128 | for a sanitized request that is the update the service specifies |
| EvidenceQueries.BuildFindByCase | internal/evidence/repository.go:135-219 | for every filter, role and cursor the list query selects exactly the matching, visible evidence below the cursor, and the count query drops only the cursor |
| Paging.ClampLimit | internal/cases/models.go:104-112 | a limit is brought into range, and unchanged exactly when it was in range |
| Paging.BelowIsRest | internal/cases/repository.go:117-126 | the rows below a row's key are exactly those listed after it |
| Paging.WalkAll | internal/cases/service.go:78-98 | following next cursors lists everything once, in order, with one request for every full page and one more |
| Paging.TextWalkIsWalk | internal/cases/service.go:87-90 | a client sending back cursor texts makes the same walk as over the keys when cursor texts read back |
| CaseListing.CursorRoundTrip | internal/cases/repository.go:272-286 | a cursor decodes to the id it was made from and is never empty |
| CaseListing.QueryServesPage | internal/cases/repository.go:117-166 | the page's query selects exactly the rows the page continues with |
| CaseListing.ListCases | internal/cases/service.go:78-98 | items, total, has-more and next cursor are those of the specified page, of 50 by default and at most 200; an unreadable cursor is refused |
| CaseListing.WalkListsEveryCaseOnce | internal/cases/service.go:78-98 | the walk lists every matching case once in descending id order, in one request if they fit a page and floor(N/limit)+1 otherwise, within ceil(N/limit)+1 |
| CaseListing.ClientListsEveryCaseOnce | internal/cases/service.go:78-98 | so does the walk over the cursor texts the service returns |
| NotificationListing.SplitCursor | internal/notifications/repository.go:211-223 | splits at the last bar, or not at all if there is none |
| NotificationListing.DecodeCursor | internal/notifications/repository.go:186-209 | reads a time before and an id after the last bar, and fails otherwise |
| NotificationListing.CursorMeans | internal/notifications/repository.go:186-223 | for every text: what stands before its last bar is the time, what stands behind it the id |
| NotificationListing.CursorRoundTrip | internal/notifications/repository.go:186-229 | decoding undoes encoding |
| NotificationListing.BuildList | internal/notifications/repository.go:57-97 | the keyset clause under its placeholders means exactly "below the cursor"; the last placeholder is the limit plus one |
| NotificationListing.ListByUser | internal/notifications/repository.go:49-118 | returns the first rows below the cursor, as many as the clamped limit |
| NotificationListing.List | internal/notifications/handler.go:36-65 | items, has-more and next cursor are those of the specified page, of 25 by default and at most 100 |
| NotificationListing.WalkIsCompleteIff | internal/notifications/handler.go:43-64 | asked for 1..100 at a time the walk lists everything once in floor(N/limit)+1 requests; it is complete if and only if no more than 100 are asked for or exist |
| NotificationListing.ClientWalkIsCompleteIff | internal/notifications/handler.go:43-64 | the same for the walk over the cursor texts the handler returns |
| HexCodec.HexToBytes | internal/integrity/tsa_retry.go:164-178 | succeeds exactly on even length and hex digits only, and gives the decoded bytes |
| HexCodec.HexValIs | internal/integrity/tsa_retry.go:180-191 | the digits are 0 to 9, a to f and A to F with values 0 to 15 |
| HexCodec.HexLayout | internal/evidence/service.go:129-131 | a byte is written as two lower-case digits, the high half first |
| HexCodec.DecodeEncode | internal/integrity/tsa_retry.go:164-191 | decoding undoes hex encoding |
| HexCodec.EncodeDecode | internal/integrity/tsa_retry.go:180-191 | encoding undoes decoding up to the case of digits |
| TsaRetry.RetryJob.ProcessItem | internal/integrity/tsa_retry.go:122-160 | one item: older than a day or undecodable is failed, refused is counted, answered is stamped with the token of the answer, each if the write succeeds; a request carries the decoded digest |
| TsaRetry.RetryJob.RunOnce | internal/integrity/tsa_retry.go:89-161 | a pass does nothing without the lock or a listing, otherwise deals with the items in order up to a cancellation, and keeps the lock only if releasing it fails |
| TsaRetry.PassOutcome | internal/integrity/tsa_retry.go:105-161 | after a pass each listed row is stamped, with its own answer's token, or failed exactly as its item was dealt with |
| TsaRetry.PassTakesOldest | internal/evidence/repository.go:305-311 | a pass takes the oldest fifty of the pending rows that are neither destroyed nor a day old |
| TsaRetry.PassIsRun | internal/integrity/tsa_retry.go:89-161 | such a pass, up to any item, is a run of the interleaved machine with the same rows and requests |
| TsaRetry.PassEnds | internal/integrity/tsa_retry.go:89-161 | with its end, after any item, the lock is free unless releasing it fails |
| TsaRetry.StatusLeavesPendingOnce | internal/integrity/tsa_retry.go:117-161 | any step of any instance changes a status only from pending, to stamped or failed |
| TsaRetry.DecidedForEver | internal/evidence/repository.go:305-356 | a row that is not pending keeps status, token and retry count over every interleaving |
| TsaRetry.DecidedNeverRequested | internal/evidence/repository.go:305-311 | nor is it ever taken to the authority again |
| TsaRetry.RetriesAndDigests | internal/integrity/tsa_retry.go:133-149 | the retry count is the number of failed requests whose count was written, and each request carries the bytes its hash text encodes |
| TsaRetry.UploadIsRetriedTruly | internal/evidence/service.go:139-159 | an upload is retried only if refused at first, and always for the digest that was uploaded |
| TsaRetry.FailedByIff | internal/integrity/tsa_retry.go:122-140 | a step marks a pending item failed if and only if it deals with it when it is older than a day or undecodable, and the write succeeds |
| TsaRetry.StampedByIff | internal/integrity/tsa_retry.go:142-156 | a step stamps a pending item if and only if it deals with it within a day, its hash decodes, the authority issues and the write succeeds; the row then holds that token |
| TsaRetry.RetriedByIff | internal/integrity/tsa_retry.go:142-149 | a step adds one retry if and only if the authority refuses under the same conditions |
| TsaRetry.RequestedByIff | internal/integrity/tsa_retry.go:122-142 | the authority is asked if and only if the item is within a day and decodable, and for the decoded bytes |
| TsaRetry.FailedIff | internal/integrity/tsa_retry.go:105-140 | over any run, an item no pass has taken yet is marked failed if and only if a pass lists it within a day of its creation and such a step follows |
| TsaRetry.StampedIff | internal/integrity/tsa_retry.go:105-156 | over any run, an untaken item ends stamped with a token if and only if a pass lists it within a day and a later step deals with it in time and is answered with that token |
| TsaRetry.StampIsAnAnswer | internal/integrity/tsa_retry.go:142-156 | the token of a retried row is the answer to a logged request for the row's own bytes |
| TsaRetry.UploadIsStampedTruly | internal/evidence/service.go:139-159 | an upload keeps the token issued at once, stays disabled if there is no authority, and otherwise can only hold the answer to a later request for its digest |
| TsaRetry.ExpiredButPending | internal/evidence/repository.go:305-311 | a run whose pass comes a day late and leaves the expired item pending |
| TsaRetry.MissedRowStaysPending | internal/evidence/repository.go:305-311 | an item no pass took within a day stays pending for ever |
| EmailQueue.QueueIsFaithful | internal/notifications/email.go:62-108 | in every interleaving the queue holds at most 256 messages, attempts are a prefix of the accepted messages, and once the deliverer has returned everything accepted before the stop signal has been attempted |
| EmailQueue.StopWaitsForAll | internal/notifications/email.go:62-66 | when Stop of a started sender returns, everything accepted before it has been attempted |
| EmailQueue.StopTerminates | internal/notifications/email.go:90-108 | after the signal the deliverer is never stuck and each of its steps brings its return closer |
| EmailQueue.AttemptedIffAcceptedByReturn | internal/notifications/email.go:90-108 | once the deliverer has returned, a message has been attempted if and only if it was accepted by then, in order |
| EmailQueue.LateMessagesAreLost | internal/notifications/email.go:90-108 | what is accepted after its return is never attempted, however the run goes on |
| EmailQueue.AcceptedButNeverAttempted | internal/notifications/email.go:69-108 | a run in which Send accepts a message nobody attempts |
| EmailQueue.EmailSender.SendMail | internal/notifications/email.go:69-88 | never blocks: accepts in order while there is room, drops and reports when full, does nothing if not configured |
| EmailQueue.EmailSender.Drain | internal/notifications/email.go:97-105 | attempts everything queued, in order |
| FilenameSanitizer.SanitizedIsSafe | internal/evidence/models.go:152-180 | the result is non-empty, at most 255 long, of safe characters only, without separator, not "." or "..", and has no two adjacent characters out of underscore and space |
| FilenameSanitizer.FailsIff | internal/evidence/models.go:168-173 | cutting goes out of range exactly when the cleaned name's extension is longer than 255 |
| FilenameSanitizer.LongExtensionFails | internal/evidence/models.go:168-173 | a name for which it does |
| FilenameSanitizer.ExtensionKept | internal/evidence/models.go:168-173 | truncation keeps the extension |
| FilenameSanitizer.IdempotentIff | internal/evidence/models.go:152-180 | sanitizing again changes nothing if and only if the cleaned name is at most 255 long, has an extension shorter than 255, or has none and no space where the cut ends |
| FilenameSanitizer.CutAtSpaceIsNotStable | internal/evidence/models.go:152-180 | a name for which it does not hold |
| FilenameSanitizer.IdempotentWhenShort | internal/evidence/models.go:152-180 | it is idempotent whenever truncation is not reached |
| FilenameSanitizer.LettersKept | internal/evidence/models.go:152-180 | short of truncation all letters, digits and hyphens of the last path element are kept in order |
| FilenameSanitizer.CleanNameKept | internal/evidence/models.go:152-180 | a name of safe characters, without edges and runs, is kept |
| FilenameSanitizer.BaseIsLastElement | internal/evidence/models.go:154-155 | the base is what stands between the last slash and the slashes at the end; "/" for slashes only, "." for nothing |
| FilenameSanitizer.DirectoriesDropped | internal/evidence/models.go:154-155 | directories in front of a name make no difference |
| FilenameSanitizer.NulDropped | internal/evidence/models.go:157-158 | zero characters in a name without directories make no difference |
| FilenameSanitizer.RunBecomesUnderscore | internal/evidence/models.go:163-164 | a run of underscores and spaces becomes one underscore, what is around it is treated on its own |

## Left out

- HTTP handlers, routing, JSON bodies, configuration, health checks, logging output and the web client.
- The SQL engine, object store, search index, identity provider and mail server: only the effect of each statement or call on abstract state is modelled. The text of SQL statements is not: conditions are terms with numbered placeholders.
- SHA-256, PBKDF2 and AES-GCM: functions with stated premises. Random generators: fresh UUIDs are a freshness premise, nonces and salt are bytes of a source that may run dry.
- JSON canonicalisation: a function; details are compared by its result.
- Clock readings, trimming, HTML escaping, the reference-code pattern and base64: parameters of the model.
- Failing reads of the case and evidence services: a read that fails ends its call before any write, which leaves the tables as a refused call does.
- Classification and tag checks, and updates of classification and tags; updated_at columns; EXIF, MIME detection, thumbnail scaling and indexing.
- UploadNewVersion in the interleaved store machine: its upload is an upload there, and its bookkeeping calls touch neither keys nor hashes.
- Row order of FindVersionHistory: the history is a set; versions that tie have no order in the code either.
- Text columns that are NULL, and characters outside Unicode scalar values.
- Paging of evidence and custody lists as a complete walk: they sort by time while the cursor compares ids.
- The auth audit chain: the time it hashes is not stored with the row.
- At most one running verification for each case: the check and the store are separate steps in the code.
- The session scope of the timestamp job's advisory lock across pooled connections: the lock is a mutex.
- Custody events of the "system" actor: no UUID, so the actor column refuses them, as the model's Insert does.
- Backup scheduling, case export, disclosures beyond their join, witnesses, roles, and report layout.
- TamperEvidence.TamperEvidentIff: assumes that no text of one log collides with a text of the other under the hash, which is what injectivity is needed for.
- CustodyGuarantees.RecordedChainVerifiesIff: assumes that the texts hashed for the table do not collide.
- ServiceRaces.ArchiveWindow: leaves out stored objects and metadata updates, which archiving does not stop.
- VersionRaces.OneCurrentIffLastMarkAlone: is about writes that take effect; OneCurrentIff has the case of a write that does not.
- Sql.SearchMeansContainsIff: assumes that letters are compared so that an underscore is no letter and percent sign and backslash differ; a trailing backslash takes the closing percent sign literally.
- EvidenceStore.StoreMatchesRows: says nothing about objects that no row names; orphans can remain.
- EmailQueue.StopTerminates: is about the deliverer's own steps; a sender that never pauses can keep the drain busy.
- FilenameSanitizer.SanitizedIsSafe: is about names whose extension fits, the others fail as FailsIff says.
