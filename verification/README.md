# Models and proofs of ShardX's durable protocols

This project models the parts of the ShardX team server, its shared container format and its
process tooling where a killed process, a replayed message or a stale holder could do lasting
damage, and proves what those parts promise. Every file is plain Dafny 4.11; `dafny verify
dfyconfig.toml` checks the whole project.

## What is modelled

| file | models |
|---|---|
| `RestoreTypes.dfy`, `RestoreState.dfy` | the files and tables of an offline restore; the crash table K1 to K12 and the server's identity decision, both made from the files alone |
| `DataPlane.dfy` | the relational half of a restore: heads, coverage, staged transitions, merge, and the verification of the installed database |
| `TransitionFiling.dfy` | how a signed transition gets into the table a restore stages from, and out of it |
| `RestoreProtocol.dfy` | every durable write of `restore prepare`, `commit`, `abort` and of a writing server as a transition; what all runs of them keep |
| `RestoreSite.dfy` | the commands themselves as methods over those files |
| `Container.dfy`, `Streams.dfy`, `Bytes.dfy` | the streaming sealed container: frame loops with short reads, counters, caps, head checks |
| `FleetSync.dfy` | leases with fencing tokens, chunked uploads, version-checked commits, ranged downloads |
| `CountFile.dfy`, `AuditLedger.dfy` | the failed-audit count file, its parser, printer and crash-safe replacement, and the counts over server runs |
| `BootstrapGuard.dfy` | the first-device guard, its offline commands and the startup pass |
| `FixedLayout.dfy`, `IdentityRecord.dfy`, `RestoreManifest.dfy` | the two fixed-layout codecs |
| `LoginThrottle.dfy`, `OperationLedger.dfy`, `ProcessTree.dfy` | the login backoff, the idempotency ledger, the process-tree closure |
| `Wrappers.dfy`, `Wire.dfy`, `Extremes.dfy`, `Seqs.dfy` | results, the wire's integer bound, least and greatest values, sequence facts |

**How a kill is modelled.** The restore commands write through one method, `Site.Do`, which takes
only a write that the code allows in that state and records the files after it. A kill leaves one
of the recorded states, the next command starts from the files alone, so a history with kills and
restarts is a sequence of allowed writes (`RestoreSite.Site.KillsAreRuns`) and every theorem about
runs covers it. `AuditLedger.Directory` records its states in the same way. In `FleetSync` and
`AuditLedger` a step carries the place it was killed at.

**How the theorems fit together.** A successful `prepare` fixes the objects of one restore (`Ctx`)
and reaches phase K7 (`PrepareRestore`). From there every run of every command, killed anywhere,
stays in the phases of that restore and never goes back (`EveryRunStaysInTheRestore`,
`CommitKilled`); each phase is one class of the crash table (`PhaseClass`); one uninterrupted
`commit` ends the restore exactly when `CanFinish` holds (`CommitRestore`); from a state where it
holds, every state that killed commits can leave has it again or has ended
(`KilledCommitsCanFinish`); a prepared restore has it exactly when its count columns agree and its
archive names are free (`PreparedCanCommit`, `PreparedSurvivesKills`); and the restored database has
the backup's heads (`RestoredHeads`).

**Assumptions.** A hash is injective: in the restore model a hash is the value it was taken of
(`Sha`), and artifacts, which are named by their hash, are a set of contents. Every SQLite
transaction is atomic except the step-5 one, whose hot journal is a state of the database file
(`Torn`). A rename is atomic. One process at a time holds the data directory (server/src/main.rs
and server/src/cli.rs take its lock). Checks whose code is outside the model enter as parameters:
`trusted` (the tenants whose transition signature and signer verify), `intact` (foreign keys,
signers and blobs of the merged database), the container's primitives (`Suite`), the content hash
of the fleet blobs, the codecs' checksum.

## Where the code does not do what it may seem to

Each of these is proved, with the exact condition under which the code does meet the property.

- `prepare` does not read a staged transition's `mapping_count` column; step 5 does, after record
  E+1 is written, and refuses the installed database exactly when a column differs from its signed
  count (`DataPlane.PrepareCanAcceptWhatCommitRefuses`, `DataPlane.VerifyAgreesWithPrepare`). No code
  writes such a row: filing takes the column from the signed payload and nothing updates it, so on
  a table that only filing and withdrawing have written step 5 accepts what prepare accepted
  (`TransitionFiling.FiledOverRuns`, `TransitionFiling.FiledRowsVerify`). The refusal needs an edit
  of the database from outside.
- Neither `prepare` nor step 3 of `commit` looks at the archive name `pre-restore-<txn>.db`. If the
  transaction id was used before and that archive holds another database, prepare succeeds as
  ever, the commit writes record E+1 and can then never leave K8
  (`RestoreSite.PrepareUnderATakenName`, `RestoreSite.PreparedIsStranded`,
  `RestoreProtocol.ATakenArchiveStrandsTheRestore`); with the names free it can finish
  (`RestoreSite.PreparedCanCommit`).
- `open_upload` takes the target version from the client and nothing checks that it is free: a
  commit whose target is already committed replaces that version's blob before the manifest's
  primary key refuses it (`FleetSync.ACommitCanReplaceAnOldBlob`, `FleetSync.CommitKeepsBlobs`).
- The comment at server/src/fleet.rs:489-491 expects a commit that died after its rename to succeed
  when retried. The rename took the staging file, so that session never publishes again
  (`FleetSync.AKilledCommitCanLoseItsSession`, `FleetSync.GoneNeverPublishes`); a killed commit can be
  retried exactly when the kill came before the rename, its lease still runs and the version is free
  (`FleetSync.RetryAfterKill`). What the blob left behind does not do is stop another session from
  publishing that version (`FleetSync.LeftoverBlobIsNoObstacle`).
- `shared/src/backup.rs:42-45` says the caps declared in the intent are enforced while streaming;
  `open` enforces the format's constants and never reads the declared ones. All containers that
  open under an intent stay within its declared plaintext cap if and only if it declares at least
  the format's (`Container.DeclaredPlaintextCapIsNotRead`), likewise for the ciphertext
  (`Container.DeclaredCiphertextCap`); the intents `seal` builds do, and
  `Container.AContainerOverItsDeclaredCap` is an accepted container of one that does not.
- The backoff's multiplier is cut off at 2^32 - 1, so the promised doubling holds for every failure
  count exactly under the condition of `LoginThrottle.BackoffIsExact`; both policies in use meet it.
  A streak whose age is exactly the window goes on in a small map and is dropped by the pruning of a
  large one (`LoginThrottle.AtTheWindowsEnd`), and `locked_for` still reports one second at the instant
  a lock ends (`LoginThrottle.Limiter.LockedFor`).

## Model

| member | source | states |
|---|---|---|
| RestoreState.AuthorityIsK3 | server/src/identity.rs:307-387 | The server trusts its identity on exactly the observations the restore code classes as K3, with the record's own instance, epoch and hash, and a K2 state keeps the incident's refusal |
| RestoreState.ManifestMeansReadOnly | server/src/restore.rs:151-157 | While a manifest is present and the record reads, the class never opens the database for writing, and a manifest is never K3 or K4 |
| RestoreState.CrashTable | server/src/restore.rs:119-261 | What each class K1 to K12 stands for in terms of the record, the manifest, the candidate and what the server's own identity decision would be, and where the two part: a mirror of the record's own epoch with another hash |
| DataPlane.ReadHeads | server/src/restore.rs:698-737 | Heads are read exactly when every profile at version 0 has no snapshot row and every later one has one; each profile gets its current head |
| DataPlane.Coverage | server/src/restore.rs:743-770 | Accepts exactly two databases with the same profiles and heads in the same places, and then the leaves are exactly the profiles with a head, live head to backup head |
| DataPlane.CoverIsUnique | server/src/restore.rs:743-770 | The leaf set is determined by the two head maps alone |
| DataPlane.MarkLedger | server/src/restore.rs:1010-1091 | Refuses exactly a ledger with an unreadable succeeded row; otherwise marks exactly the rows whose result the merged data plane no longer holds |
| DataPlane.MoveRows | server/src/restore.rs:1092-1145 | The statements of the merge give the backup's snapshots, its committed and referenced uploads, its versions, and the higher of the two fences |
| DataPlane.Merge | server/src/restore.rs:1092-1202 | The merge succeeds exactly when the ledger reads and the moved rows belong to this instance, fleet and version range, and gives the merged plane |
| DataPlane.MergeRestoresHeads | server/src/restore.rs:1092-1145 | After a merge every profile has exactly the head it has in the backup |
| DataPlane.MergeKeepsTheHigherFence | server/src/restore.rs:1092-1145 | A fencing token never moves back below live or backup and is one of the two |
| DataPlane.UnmarkedAnswersStillHold | server/src/restore.rs:1010-1091 | In the candidate an operation that still answers as succeeded names rows that are there, and every other row is as it was |
| DataPlane.CoverRow | server/src/restore.rs:1425-1434 | Reading a tenant's proofs adds exactly their leaves to what is covered, later leaves over earlier ones |
| DataPlane.VerifyRows | server/src/restore.rs:1378-1436 | Accepts exactly when every installed transition matches its index entry and artifacts, and then covers all their leaves and returns every replay id |
| DataPlane.VerifyInstalled | server/src/restore.rs:1363-1453 | Accepts exactly the databases whose transitions are the artifacts' and whose heads are exactly the signed leaves |
| DataPlane.SignedLeavesAreTheBackupHeads | server/src/restore.rs:867-1000 | Once staged transitions are accepted, their signed leaves cover exactly the backup's heads |
| DataPlane.EveryMoveIsSigned | server/src/restore.rs:743-1000 | Every profile with a head, and no other, has a trusted transition of its tenant from E to E+1 that signs exactly its live head and the backup's |
| DataPlane.VerifyAgreesWithPrepare | server/src/restore.rs:1363-1453 | On everything prepare accepted, step-5 verification accepts the candidate, before and after its transaction, if and only if the count columns agree with the signed counts |
| DataPlane.PrepareCanAcceptWhatCommitRefuses | server/src/restore.rs:867-1000 | A concrete staged row, its count column edited from outside, that prepare accepts and step 5 refuses |
| TransitionFiling.Table.File | server/src/routes/v2_restore_epoch.rs:115-303 | Which answer a filing gets, in the code's order, and that exactly a new accepted one adds its row; an accepted one is on file as presented |
| TransitionFiling.Table.Withdraw | server/src/restore.rs:1719-1775 | Exactly the named tenant's staged row at this epoch goes, and it is refused if there is none |
| TransitionFiling.FiledOverRuns | server/src/routes/v2_restore_epoch.rs:206-267 | Over every run of filings and withdrawals each row's key, count column and proofs are those its transition signs |
| TransitionFiling.FiledRowsVerify | server/src/routes/v2_restore_epoch.rs:206-267 | On a table only filings and withdrawals have written, step 5 accepts every candidate prepare accepts |
| RestoreProtocol.PhaseClass | server/src/restore.rs:197-261 | Each phase of a restore is exactly one class of the crash table, and in each the pre-restore database is at the DB path or archived |
| RestoreProtocol.AllowedByClass | server/src/restore.rs:122-157 | Which commands may write at all in which class; in a read-only class only commit and abort |
| RestoreProtocol.WriteAt7 | server/src/restore.rs:1668-1682 | Every write possible in phase K7 stays there, commits record E+1, or begins the abort, and the abort begins exactly with its audit row |
| RestoreProtocol.WriteAt8 | server/src/restore.rs:1505-1535 | Every write possible in phase K8 stays there or installs the candidate |
| RestoreProtocol.WriteAt9 | server/src/restore.rs:1539-1602 | Every write possible in phase K9, hot journal included, stays there or lands the step-5 transaction |
| RestoreProtocol.WriteAt10 | server/src/restore.rs:1604-1632 | Every write possible in phase K10 stays there or marks the manifest terminal |
| RestoreProtocol.WriteAt11 | server/src/restore.rs:1633-1653 | Every write possible in phase K11 stays there or ends the restore |
| RestoreProtocol.WriteAborting | server/src/restore.rs:1780-1841 | Once an abort row is written no command can write record E+1 any more; the abort ends exactly when the manifest goes |
| RestoreProtocol.WriteInRestore | server/src/restore.rs:1654-1717 | Any write of any command or server in mid-restore is one of commit or abort and moves the restore to the same or the next phase |
| RestoreProtocol.EveryRunStaysInTheRestore | server/src/restore.rs:197-273 | Over every run killed and restarted anywhere: only phases K7 to K11 and K3, the class never moves back, the pre-restore database is kept, and an audited abort keeps record E |
| RestoreProtocol.NoWritableServerInMidRestore | server/src/main.rs:77-126 | Between installing and removing the manifest no server start opens the database for writing or trusts its identity |
| RestoreProtocol.RestoreEnds | server/src/restore.rs:1654-1717 | A restore ends with record and mirror both at E+1, the candidate's data plane, one commit row and one row for each staged tenant, and the live database archived, or with record E and the live database; after an abort row only the latter |
| RestoreProtocol.ArchiveLasts | server/src/restore.rs:1492-1501 | An archived database survives every later run of every command until `--delete-archives` names it |
| RestoreProtocol.ATakenArchiveStrandsTheRestore | server/src/restore.rs:1490-1535 | If the archive name holds another database, no run of any command leaves K8 again |
| RestoreProtocol.StepThreeIgnoresTheArchive | server/src/restore.rs:1668-1682 | Record E+1 may be written although the archive name is taken |
| RestoreProtocol.PrepareKills | server/src/restore.rs:1203-1327 | A prepare killed anywhere leaves K3, or K7 once the manifest is in place, with record, mirror and archives untouched |
| RestoreProtocol.AbortKills | server/src/restore.rs:1780-1841 | An abort killed anywhere leaves the class it started from, where it can run again, or K3, with record, mirror and archives untouched |
| RestoreProtocol.RetireKills | server/src/restore.rs:1659-1667 | A `commit --retire` killed anywhere leaves K5b or K3 with the same authority |
| RestoreSite.Site.constructor | server/src/restore.rs:282-293 | A site starts with the given files and an empty history |
| RestoreSite.Site.Do | server/src/restore.rs:263-273 | A durable write is made only where the code allows it and is recorded with the files it leaves |
| RestoreSite.Site.KillsAreRuns | server/src/restore.rs:263-273 | Every state a kill can leave is reached by a run of allowed writes |
| RestoreSite.Site.CommitKilled | server/src/restore.rs:1654-1717 | A commit killed after any of its writes leaves a phase of the same restore, never an earlier class, and one that could be finished still can or has ended |
| RestoreSite.Site.ArchiveOne | server/src/restore.rs:1490-1521 | A sidecar is archived exactly when its archive name is free, empty or identical; no other archive changes |
| RestoreSite.Site.ArchiveLive | server/src/restore.rs:1490-1524 | The database is archived under its transaction exactly when the name is free, empty or identical |
| RestoreSite.Site.ClearPath | server/src/restore.rs:1505-1529 | The DB path is cleared exactly when every archive name it needs is usable, and what was there is archived |
| RestoreSite.Site.Install | server/src/restore.rs:1505-1535 | Step 4 succeeds exactly when the archives have room, and leaves the candidate at the DB path with the old database archived |
| RestoreSite.Site.RolledBackCandidate | server/src/restore.rs:1539-1555 | An interrupted transaction is rolled back and the result accepted exactly if it is the prepared candidate |
| RestoreSite.Site.Verify | server/src/restore.rs:1330-1453 | The installed database passes exactly when the artifacts are intact and it verifies against them |
| RestoreSite.Site.ReconcileMirror | server/src/restore.rs:1559-1620 | Step 5 succeeds exactly when the installed database verifies, leaves mirror, audit rows and cleared tables as one transaction, and verifies again after it |
| RestoreSite.Site.WriteTerminal | server/src/restore.rs:1621-1632 | The manifest becomes terminal by a temporary file and a rename, nothing else changes |
| RestoreSite.Site.Retire | server/src/restore.rs:1633-1653 | The artifacts, the manifest and the directory go in that order and the class is K3 once the manifest is gone |
| RestoreSite.Site.WriteRecord | server/src/restore.rs:1671-1682 | Record E+1 is written exactly when candidate, artifacts and quiesced live database are the prepared ones; otherwise the authority stays E in K7 |
| RestoreSite.Site.CommitRestore | server/src/restore.rs:1654-1717 | From any state a killed run can have left, one uninterrupted commit ends in K3 with record and mirror at E+1 and the reconciled candidate, if and only if `CanFinish`; in other classes it changes nothing |
| RestoreSite.Site.CommitRetire | server/src/restore.rs:1659-1667 | `--retire` works exactly in K5b and reaches K3 with the same record and mirror |
| RestoreSite.Site.AbortRestore | server/src/restore.rs:1803-1841 | Abort works exactly in K5a and K7 and leaves a clean K3 with record and archives untouched and the live database in place but for its audit row |
| RestoreSite.Site.AbortOrphans | server/src/restore.rs:1784-1802 | `--orphans` works exactly in K3, removes every stray, and keeps the archives unless told to delete them |
| RestoreSite.Site.PrepareRestore | server/src/restore.rs:1203-1327 | Prepare accepts exactly what `Prepares` says, then leaves phase K7 of a sound restore to the backup's heads, quiesced and with the archives as they were; a refusal leaves the files but for its audit row |
| RestoreSite.BuildCandidate | server/src/restore.rs:1222-1282 | The candidate plane is built exactly when heads, coverage, staged transitions and merge all pass and the next epoch fits the wire |
| RestoreSite.PreparedCanCommit | server/src/restore.rs:1363-1453 | After a prepare, a commit can finish if and only if the count columns agree and the archive names are free |
| RestoreSite.KilledCommitsCanFinish | server/src/restore.rs:1654-1717 | From a restore one uninterrupted commit would finish, every state any number of killed commits can leave can still be finished, or has ended |
| RestoreSite.PreparedSurvivesKills | server/src/restore.rs:1654-1717 | From a prepared restore whose count columns agree and whose archive names are free, every state killed commits can leave can be finished or has ended |
| RestoreSite.PreparedIsStranded | server/src/restore.rs:1490-1535 | After a prepare whose archive name holds another database, the commit may write record E+1 and no run leaves K8 again |
| RestoreSite.PrepareUnderATakenName | server/src/restore.rs:1203-1327 | From a clean K3 whose archive holds an older database under the transaction id, prepare succeeds and step 3 may write record E+1 |
| RestoreSite.RestoredHeads | server/src/restore.rs:1559-1602 | Once a prepared restore ends at E+1 the heads at the DB path are exactly the backup's |
| Bytes.ReadsBack | shared/src/backup.rs:303-307 | A number that fits its width reads back from its big-endian bytes |
| Bytes.WritesBack | shared/src/backup.rs:418-430 | Big-endian bytes are the only encoding of the number they read as |
| Streams.Reader.Read | shared/src/backup.rs:347-356 | One read fills any part of the buffer and returns 0 only at the end of the input |
| Streams.Fill | shared/src/backup.rs:344-356 | For every schedule of short reads the buffer holds the next bytes and is short exactly at the end |
| Container.SealFrames | shared/src/backup.rs:330-387 | For every schedule of short reads the frames of the plaintext are written exactly, with their count and lengths; what is over 4 GiB is refused, and the counter never overflows |
| Container.Seal | shared/src/backup.rs:310-404 | Sealing succeeds exactly for a plaintext within the cap, writes its container and reports its counts, hashes and frame bytes |
| Container.TakeRecord | shared/src/backup.rs:418-439 | A length-prefixed record is read, refused or over its cap exactly as the byte string says |
| Container.TakeFrames | shared/src/backup.rs:510-545 | The frames read, written and counted are those of the byte string, with the same error where it is malformed |
| Container.Open | shared/src/backup.rs:465-656 | Opening gives exactly the outcome, errors in order included, of parsing the input, and writes exactly the plaintext parsed |
| Container.RecordReadsBack | shared/src/backup.rs:303-307 | A written record reads back up to and including the reader's cap, whatever follows |
| Container.RecordIsExact | shared/src/backup.rs:418-439 | A record that was read is the only encoding of what was read |
| Container.FrameCounts | shared/src/backup.rs:330-387 | Every non-final frame is full, an exact multiple gets no empty frame, the count is the least that fits and at least 1 |
| Container.FramesSize | shared/src/backup.rs:406-426 | The frame bytes are the plaintext, a 16-byte tag (section 2.8 of RFC 8439) and 5 bytes a frame |
| Container.NoncesDiffer | shared/src/envelope.rs:277-287 | No two frames of one plaintext share a nonce |
| Container.FramesReadBack | shared/src/backup.rs:510-545 | Sealed frames read back to the plaintext, its frame counter and the input after them |
| Container.OpenUndoesSeal | shared/src/backup.rs:310-656 | Opening a sealed container gives back the plaintext and equal counts and hashes, if and only if slot, intent and head are within the reader's caps |
| Container.OpenGivesOneWholePlaintext | shared/src/backup.rs:465-656 | With an ideal AEAD and one seal call per data key, whatever `open` accepts is the whole plaintext of one seal call, frame for frame |
| Container.OpenIsOneSignedHead | shared/src/backup.rs:547-645 | What `open` accepts carries the prologue, frame count and length of one head the expected signer signed |
| Container.WithinDeclaredPlaintext | shared/src/backup.rs:605-620 | The signed head's length is the plaintext's, so an accepted container is within a declared cap exactly if its head is |
| Container.DeclaredPlaintextCapIsNotRead | shared/src/backup.rs:510-545 | Every plaintext within the format's cap opens whatever its intent declares, so all stay within the declared cap if and only if it is at least the format's |
| Container.AContainerOverItsDeclaredCap | shared/src/backup.rs:465-656 | A concrete accepted container whose plaintext is longer than its intent declares |
| Container.DeclaredCiphertextCap | shared/src/backup.rs:65-74 | The frames of every plaintext within the format's cap fit a declared ciphertext cap if and only if it allows the largest, and the constant declared does |
| FleetSync.Server.AcquireLease | server/src/fleet.rs:128-202 | A lease is granted exactly when the profile has none live, with one more than the highest token ever issued and the current version as its base |
| FleetSync.Server.ValidateLease | server/src/fleet.rs:213-246 | Which refusal a presented lease gets; one that passes holds its profile's newest token |
| FleetSync.Server.ReleaseLease | server/src/fleet.rs:249-266 | Only the named lease is released |
| FleetSync.Server.StartUpload | server/src/fleet.rs:269-325 | The session row comes before its empty staging file |
| FleetSync.Server.AppendChunk | server/src/fleet.rs:332-396 | A chunk is taken exactly at the current end and within the declared size; a refused one changes nothing, a killed one leaves bytes but no claim |
| FleetSync.Server.CommitUpload | server/src/fleet.rs:416-590 | Which refusal a commit gets before any file moves, when it publishes, and that under the target rule chain and blobs stay intact |
| FleetSync.Server.AbortUpload | server/src/fleet.rs:611-641 | Only an open session is aborted, its file first |
| FleetSync.FencedStep | server/src/fleet.rs:116-202 | Every call keeps one live lease a profile with the highest token, and no token is ever lost |
| FleetSync.PublishesWithTheNewestToken | server/src/fleet.rs:452-456 | A published version carries the newest token its profile has issued |
| FleetSync.FencingHolds | server/src/fleet.rs:116-265 | Over every run killed anywhere tokens strictly increase in acquisition order and the tokens of published versions never decrease |
| FleetSync.CommitKeepsBlobs | server/src/fleet.rs:482-540 | A commit, killed or not, leaves all committed blobs intact if and only if its target is free, or keeps the same content and was not killed between removal and rename |
| FleetSync.ACommitCanReplaceAnOldBlob | server/src/fleet.rs:482-540 | A concrete commit that is refused and still replaces an old version's blob |
| FleetSync.VersionsStayChained | server/src/fleet.rs:416-590 | Over every run whose passing commits are for the version after their base, each profile's versions are one chain from 1 to the current one and every blob hashes to its manifest |
| FleetSync.CommitChains | server/src/fleet.rs:461-590 | A commit that passes its checks keeps the chain if and only if it is killed or its target is at most one above its base and at least 1 |
| FleetSync.ExactStep | server/src/fleet.rs:332-396 | An unkilled call keeps every open session's claim equal to its staging bytes, except exactly a commit refused by the manifest's primary key |
| FleetSync.ClaimsStayHeld | server/src/fleet.rs:332-396 | Over every run with kills a session never claims more than it declared nor more than its staging file holds |
| FleetSync.ClaimsStayExact | server/src/fleet.rs:332-396 | Over every unkilled run whose passing commits follow the target rule the claim equals the staging length |
| FleetSync.SizesStayExact | server/src/fleet.rs:332-590 | Over such a run every committed blob has the size its manifest records |
| FleetSync.GoneNeverPublishes | server/src/fleet.rs:482-510 | A session whose staging file is gone never publishes after any run |
| FleetSync.RetryAfterKill | server/src/fleet.rs:482-510 | A killed commit can be retried if and only if the kill came before the rename, its lease still runs and the version is free |
| FleetSync.AKilledCommitCanLoseItsSession | server/src/fleet.rs:482-510 | A concrete commit killed after its rename whose retries all fail, after any run |
| FleetSync.LeftoverBlobIsNoObstacle | server/src/fleet.rs:482-510 | Which blobs are there decides nothing about whether a commit publishes, and one that does puts its own bytes there |
| FleetSync.ReadRange | server/src/fleet.rs:716-740 | For every schedule of short reads exactly the requested bytes that exist are returned |
| FleetSync.Download | server/src/fleet.rs:711-716 | The caller's loop of ranged reads gathers exactly the stored bytes up to the size recorded, whatever the file holds |
| FleetSync.ServesThePayload | server/src/fleet.rs:660-708 | After any run whose passing commits follow the target rule, a version committed with a payload's hash resolves to exactly that payload, and reading the recorded size gives all of it if and only if the size is no less than its length |
| FleetSync.UnkilledSizeIsThePayloads | server/src/fleet.rs:660-708 | Over unkilled runs the recorded size is the payload's length |
| CountFile.SplitLines | server/src/audit.rs:137-142 | The lines are those between line feeds, without an empty one after the last |
| CountFile.ParseCounts | server/src/audit.rs:137-166 | Exactly the understood lines are kept, in order, and the file is clean exactly if there are lines and all are understood |
| CountFile.ValueOfDecimal | server/src/audit.rs:150-158 | A printed count reads back as itself |
| CountFile.PrintReadsBack | server/src/audit.rs:168-188 | Printed entries read back cleanly as themselves, with LF or CRLF at any line |
| CountFile.BadLineCostsItself | server/src/audit.rs:135-166 | A line that is not understood costs only itself |
| CountFile.ParsedIsPrintable | server/src/audit.rs:135-188 | Whatever was in the file, what is kept of it can be written and read again |
| AuditLedger.Directory.WriteCounts | server/src/audit.rs:198-207 | At every instant the count file is the old text or the new one, and no file set aside changes |
| AuditLedger.Directory.FreeName | server/src/audit.rs:236-257 | The name search ends, on the first free name from the start |
| AuditLedger.Directory.PutAside | server/src/audit.rs:228-260 | No aside file is overwritten; with hard links the count file is the old or the new text at every instant, without them there is an instant with none |
| AuditLedger.Directory.InitReadOnlyCount | server/src/audit.rs:294-330 | A read-only start continues its episode's count and keeps the others' non-zero ones; every kill leaves one of the ledger's states |
| AuditLedger.Directory.CountReadOnlyFailure | server/src/audit.rs:333-341 | One failure is counted in memory and returned, and is on file exactly if its write lands; every kill leaves the count before or after |
| AuditLedger.Directory.ClearEpisode | server/src/audit.rs:379-404 | Only the named episode's line goes, its count is returned, and every kill leaves one of the ledger's states |
| AuditLedger.Directory.ReadOnlyFailures | server/src/audit.rs:345-358 | What status reports for an episode: its number, 0 when the file says nothing, unreadable only when a bad line may have been its own |
| AuditLedger.AsideKeepsAll | server/src/audit.rs:228-260 | Setting a file aside keeps every entry that was understood |
| AuditLedger.OpenedCounts | server/src/audit.rs:310-328 | A read-only start changes no episode's count |
| AuditLedger.CountedCounts | server/src/audit.rs:333-341 | A failure adds one to its own episode and to no other |
| AuditLedger.ClearedCounts | server/src/audit.rs:391-403 | A clear sets its own episode to 0 and no other |
| AuditLedger.CountsAreTheTally | server/src/audit.rs:56-67 | Over every run of starts, failures whose write may fail, key changes and clears, killed anywhere, the file's count of every episode is the failures written under it since its last clear, with each written failure taking the unwritten ones before it along, and the running server's count is that and what is still unwritten (modulo 2^64) |
| AuditLedger.NothingPending | server/src/audit.rs:333-341 | Where no write fails while its server goes on, no failure is ever counted and not on file |
| AuditLedger.ReportIsTheTally | server/src/audit.rs:345-358 | A reported number is the tally on file, and only a file that was not understood leaves an episode without one, whose tally is then 0 |
| BootstrapGuard.PassSettles | server/src/integrity.rs:109-126 | After the startup pass no device with bad keys is unmarked, every tenant has a guard of this instance, and every guard agrees with its confirmation or is in recovery |
| BootstrapGuard.PassIsFixed | server/src/integrity.rs:109-126 | The pass changes nothing exactly on settled rows, so a second pass never does |
| BootstrapGuard.BadKeysEndBootstrap | server/src/integrity.rs:165-223 | A device with bad keys is marked with its fault and former status, quarantined unless revoked, its sessions revoked, and no guard of its tenant stays open |
| BootstrapGuard.OneMore | server/src/integrity.rs:130-223 | Quarantining devices one transaction at a time is quarantining them all |
| BootstrapGuard.ConfirmKeepsAgreement | server/src/bootstrap.rs:208-278 | A confirmation is written only for the one active owner's pending device with the ids shown, typed and still stored, and every guard still agrees |
| BootstrapGuard.CancelKeepsAgreement | server/src/bootstrap.rs:287-349 | A cancel succeeds exactly on a reserved guard and every guard still agrees |
| BootstrapGuard.StepMovesForward | server/migrations/0012_v2_device_states_and_bootstrap_guards.sql:205-245 | No command moves a guard where the triggers would have to stop it |
| BootstrapGuard.GuardsAreOneWay | server/src/bootstrap.rs:228-278 | Over every run no guard returns to unused, none goes, and none leaves recovery |
| BootstrapGuard.ConfirmingEndsIt | server/src/bootstrap.rs:84-129 | After one confirmation no later one of the same guard is accepted in any run |
| BootstrapGuard.Database.QuarantineDevice | server/src/integrity.rs:165-223 | One device's transaction: its mark, its status, its tenant's open guards and its sessions, and nothing else |
| BootstrapGuard.Database.QuarantineBadKeys | server/src/integrity.rs:130-223 | Exactly the unmarked devices whose stored keys fail are quarantined |
| BootstrapGuard.Database.CreateMissingGuards | server/src/integrity.rs:365-388 | Exactly the tenants without a guard of this instance get one in recovery |
| BootstrapGuard.Database.ReconcileGuards | server/src/integrity.rs:391-433 | Exactly the guards that disagree with their confirmation go to recovery |
| BootstrapGuard.Database.RunPass | server/src/integrity.rs:109-126 | The pass leaves settled rows and changes nothing exactly if they were settled |
| BootstrapGuard.Database.Confirm | server/src/bootstrap.rs:208-278 | Which refusal a confirmation gets, checked on the rows as shown and again in the writing transaction, and what it writes otherwise |
| BootstrapGuard.Database.Cancel | server/src/bootstrap.rs:287-349 | Which refusal a cancel gets and what it writes otherwise |
| BootstrapGuard.ParseDeviceId | server/src/bootstrap.rs:36-45 | Exactly 32 hex digits are accepted, read two a byte |
| BootstrapGuard.HexReadsBack | server/src/identity.rs:77-82 | A printed id is accepted and reads back as itself |
| FixedLayout.FieldAt | server/src/identity_record.rs:12-25 | A field of a joined layout is at its offset |
| FixedLayout.IsJoin | server/src/identity_record.rs:12-25 | A byte string with every field at its offset is those fields and nothing more |
| FixedLayout.Put | server/src/identity_record.rs:99-112 | Copying a field extends the filled prefix by exactly that field |
| IdentityRecord.ParseUndoesEncode | server/src/identity_record.rs:97-115 | Encoding refuses exactly the invalid field values, and what it gives parses to the record |
| IdentityRecord.EncodeUndoesParse | server/src/identity_record.rs:125-187 | A byte string that parses is the one encoding of what it parses to |
| IdentityRecord.EncodeInPlace | server/src/identity_record.rs:97-115 | The array filled slice by slice is that encoding, and is given exactly for valid records |
| RestoreManifest.ParseUndoesEncode | server/src/restore_manifest.rs:82-100 | Encoding refuses exactly the invalid field values, and what it gives parses to the manifest |
| RestoreManifest.EncodeUndoesParse | server/src/restore_manifest.rs:104-155 | A byte string that parses is the one encoding of what it parses to |
| RestoreManifest.EncodeInPlace | server/src/restore_manifest.rs:82-100 | The array filled slice by slice is that encoding, and is given exactly for valid manifests |
| LoginThrottle.BackoffIsExact | server/src/ratelimit.rs:78-83 | The cut-offs never show, for every failure count, if and only if the largest multiplier reaches the cap, there is no base lock, or the count saturates first |
| LoginThrottle.LocksGrow | server/src/ratelimit.rs:78-83 | A later failure never sets a shorter lock, and none is above the cap |
| LoginThrottle.PruningIsSafe | server/src/ratelimit.rs:61-65 | Pruning never drops a lock that still runs, if and only if the longest lock fits the window |
| LoginThrottle.StreakLocks | server/src/ratelimit.rs:58-85 | Over a run of failures and successes of any keys, pruning included, the k-th failure of a key's streak locks it for base times 2 to the k over the threshold, up to the cap |
| LoginThrottle.StreakCounts | server/src/ratelimit.rs:58-89 | Whatever else is recorded, forgotten or pruned, a key's entry holds the number of failures of its streak, the last of them and its lock |
| LoginThrottle.AtTheWindowsEnd | server/src/ratelimit.rs:61-77 | At an age of exactly the window a streak goes on if and only if the map is not over the pruning threshold |
| LoginThrottle.PoliciesInUse | server/src/ratelimit.rs:107-125 | Both policies in use meet every condition |
| LoginThrottle.Limiter.RecordFailure | server/src/ratelimit.rs:58-85 | The whole map after a failure, pruning and reset included, and that no running lock is dropped when the window covers the cap |
| LoginThrottle.Limiter.RecordSuccess | server/src/ratelimit.rs:87-89 | Only the named key is forgotten |
| LoginThrottle.Limiter.LockedFor | server/src/ratelimit.rs:48-56 | The whole seconds left, never too few, at least 1 |
| OperationLedger.StartedOnce | server/src/idempotency.rs:51-76 | However all callers' statements interleave, a key is claimed at most once |
| OperationLedger.FirstCompletionIsReplayed | server/src/idempotency.rs:120-159 | Every later completed answer carries the first completion byte for byte, and no later completion changes it |
| OperationLedger.OtherRequestIsRefused | server/src/idempotency.rs:98-103 | A caller with another request than the claim's never gets a completed answer |
| OperationLedger.CompletedWasClaimedAndFinished | server/src/idempotency.rs:105-116 | A completed answer means someone claimed the key with that request and later completed it with that response |
| OperationLedger.Ledger.BeginOperation | server/src/idempotency.rs:37-116 | What a claim answers when other callers' statements land between its insert and its read |
| OperationLedger.Ledger.CompleteOperation | server/src/idempotency.rs:120-159 | Only an in-flight row is completed, and no row changes its request or a settled response |
| ProcessTree.ByParent | mcp/index.js:418-425 | The map lists exactly the children of each finite parent |
| ProcessTree.DescendantPids | mcp/index.js:418-440 | The worklist ends on every list, cycles included, with exactly the processes one or more parent edges below a root |
| ProcessTree.WalkStaysInside | mcp/index.js:427-440 | A set closed under children holds the end of every walk from a root |
| ProcessTree.StaleProcesses | mcp/index.js:442-461 | Stale are exactly the listed processes that use the directory and are neither tracked nor below a tracked one |

## Left out

- RestoreSite.Site.CommitRestore: requires the manifest, if one parses, to be one `prepare` can have written (`Named`: it names a record of the epoch before and a candidate whose mirror is that record), because in the model a hash is its preimage and an arbitrary 32-byte value is not a record.
- RestoreSite.Site.PrepareRestore: the live database's own consistency check before the audit row, and a release build's refusal, are taken as passed.
- RestoreSite.PreparedCanCommit: requires what a successful `PrepareRestore` ensures, so it speaks of restores this model prepared.
- RestoreProtocol.EveryRunStaysInTheRestore: speaks of runs up to their first K3; after it a new restore may begin, whose own `prepare` starts the next such run.
- DataPlane.Merge: the checks on signers, foreign keys and blobs are one parameter, and the tables the restore only copies unchanged are one value (`live`).
- DataPlane.VerifyInstalled: a transition's Merkle root is the leaf set it commits to, and an inclusion proof the leaf it proves; the tree and the CBOR of both are not part of this model.
- Container.Open: what `open` accepts is stated of the bytes it reads; bytes after the head are never read.
- Container.Seal: I/O errors of the streams are not modelled; building the slot and the intent is a parameter.
- FleetSync.Server.CommitUpload: two commits overlapping inside their file steps are not modelled; one commit is one step with its kill points. One tenant is modelled, since every statement filters on the tenant.
- FleetSync.Server.AcquireLease: when a lease id is a duplicate and the profile is leased as well, the duplicate is reported; which constraint SQLite reports first is not part of the source.
- AuditLedger.Directory.InitReadOnlyCount: links and reparse points at the count file's name, and a file that cannot be read, are not modelled; the directory is on a filesystem with hard links except in `PutAside`, which covers both.
- BootstrapGuard.Database.RunPass: the grants, approvals and revocations the startup pass also checks (`quarantine_bad_grants`) are not part of this model.
- OperationLedger.Ledger.BeginOperation: the account, device and kind columns are stored and never read by the two calls.
- LoginThrottle.Limiter.RecordFailure: the pair of limiters and the permit pool around them only combine two of these.
- ProcessTree.StaleProcesses: how the operating system's process list is obtained and normalised is a parameter.
- RestoreSite.Site.ArchiveOne: the -journal file has no archive name of its own: step 3 refuses one beside the live database, and a hot journal of step 5 is part of the file it belongs to (`Torn`).
- TransitionFiling.Table.File: session, custody and signature are one parameter, the replay id stands for the nonce as well, and the shape of the request is not modelled.
- TransitionFiling.Table.Withdraw: that it runs only in K3, and its audit row, are not modelled.
- FleetSync.CommitChains: speaks of the commit's rows; what its files become is `FleetSync.CommitKeepsBlobs`.
- Real files, fsync ordering and power loss; network filesystems; symbolic links: the crash model is a killed process.
- `restore export-heads`, `restore status`, identity initialisation: short readers or single statements around what is modelled.
- The transition-set index codec, Merkle proofs, envelopes and signatures: their strength is assumed where a parameter says so.
- HTTP routes, configuration, access control, cookies, blob collection, the desktop client and the browser-driving tools: plumbing around the modelled calls.
