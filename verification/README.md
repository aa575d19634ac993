# Rutilus verification model

A Dafny model of the parts of Rutilus whose correctness rests on order, interleaving or failure, and proofs
of what those parts promise. `dafny verify dfyconfig.toml` checks all of it.

| file | what it models |
|---|---|
| `Wrappers.dfy` | the optional values the other files use |
| `ReconnectBackoff.dfy` | the saturating backoff loop of an event listener and its arithmetic |
| `EventListener.dfy` | one listener task: open, pull, record, close, wait, give up |
| `ListenerSupervisor.dfy` | the reconciling supervisor and all its tasks as one interleaving machine |
| `ListenerIsolation.dfy` | the projection of a run of that machine onto one endpoint |
| `EventListeners.dfy` | the supervisor object, statement by statement, on its mutable maps |
| `DataDirectory.dfy` | a file system that can fail or be cut off at any step; the recursive snapshot copy |
| `PendingMarker.dfy` | the text of the restore-pending marker, written, read back, and read when cut short |
| `BackupPackage.dfy` | collecting a data directory into named entries and reading the entries back |
| `RestoreSteps.dfy` | the changes a restore makes, in order, and the disk operations that make them |
| `BackupRestore.dfy` | the restore: validations, snapshot, overwriting stage, consistency check |
| `BackupRoundTrip.dfy` | creating a backup from an opened store, and what restoring it brings back |
| `RestoreHistory.dfy` | restores tried again and again, each failing or cut off anywhere |
| `CenterWire.dfy` | what both ends read from the WebSocket |
| `CenterConnection.dfy` | counters, negotiation and frame loops of the two ends of a connection |
| `CenterProtocol.dfy` | the two ends composed over channels that can be cut |
| `CenterRuns.dfy` | the two connection objects, statement by statement, as runs of that composition |
| `Initialization.dfy` | standalone initialization over any history of crashes and reruns |
| `CertificatePair.dfy` | the CA and server certificate pairs over any sequence of starts |
| `Redaction.dfy` | the redaction of password members in a command's JSON tree |

## How the model is built

Code that changes state step by step is a class or a method with the same statements, proved equal to a
specification function; what the source promises is proved about that function over every input, run or
history. Concurrency is interleaving: the supervisor is one step relation in which every statement of the
supervisor and every resolved await of every task is a label, and every `select!` is the label the run chose.
A run is a sequence of labels or attempts, and the theorems quantify over all of them. The class
`EventListeners.Supervisor` carries the run so far as a ghost field, so a theorem about runs holds at each of
its statements. `CenterRuns` does the same for the two ends of a connection: the statements of either object,
with the other end and the network moving in between, are a run of the composed machine.

A crash or an I/O failure can come before or after any single file step. `calm` marks runs in which nothing
goes wrong on the disk; those have exact results. A restore can also be told to be cut off inside the marker
it writes first, which is exact too. In all other runs only the safety statements hold, and they hold whatever
the failure. What the product computes with other components is a field of `BackupPackage.Platform`:
identifiers as text, key envelopes, the package encryption, what a database says about its rows and its schema,
what opening and closing it makes of its files, and the fingerprints of the restore marker. `Lawful` says that
reading undoes writing for identifiers and packages, that a package does not open with another key, and that
fingerprints are words that tell contents apart; nothing else is assumed.

## What the proofs found

- The production policy waits 1+2+4+8+16+32+60+60+60 = 243 s before giving up; the comment at
  `app/src/event_listener.rs:97-106` says 30 where the code gives 32.
- The backoff loop is the capped exponential exactly when the base interval does not exceed the cap and a zero
  factor does not meet a positive base at the cap: a base above the cap is returned uncapped.
- Initialization has two states that refuse every rerun: the principal stored without its code, and a marker
  file cut short while it was written. One cut-off attempt reaches either (`Initialization.DeadStatesAreReached`).
  From every other state before completion a fault-free rerun succeeds.
- An instance can complete with a bootstrap code that was never printed: a stop between storing and printing
  the code, then a rerun (`Initialization.CompletedInstanceWithUnseenCode` is that history).
- The site's `receive_envelope` does not record the received sequence, while the center's does and both `run`
  loops do. The acknowledgement theorems are about `send` with `run`.
- On a lost connection the center's reader ends cleanly and the site's reports an error; on every other stream
  without timeouts and flush failures the two agree. The center's first read is not transparent to control
  messages: a Hello behind a ping is refused (`CenterConnection.PingBeforeHelloIsRefused`).
- A key envelope that cannot be read or does not load is left out of a backup without an error.
- During a restore the database and its log are in two halves only between their two renames, and only when
  both files differ from the old ones; over a complete marker that is the one state in which the open is refused
  (`RestoreSteps.OpensExactlyWhenWhole`).
- The restore marker is written in place. A crash that cuts it short refuses the next open although the pair was
  never touched, exactly unless all four of its words are there or, when the restore would not have changed the
  pair, its fourth word was begun (`RestoreSteps.TornMarkerRefusesExactly`). `BackupRestore.RestoreCutInsideMarker`
  is a run that ends so; after it a restore refuses too, because it finds a marker.

## Model

| member | source | states |
|---|---|---|
| ReconnectBackoff.ComputeDelay | app/src/event_listener.rs:142-153 | the early-exit loop with its overflowing multiplication returns the specified delay for every policy and failure count |
| ReconnectBackoff.LoopIsCappedExponentialExactly | app/src/event_listener.rs:142-153 | the loop equals min(base * factor^(n-1), max) for all n if and only if the policy meets a stated guard |
| ReconnectBackoff.DelayIsMonotoneExactly | app/src/event_listener.rs:142-153 | waits never shrink as failures accumulate if and only if no zero factor meets a positive base below the cap |
| ReconnectBackoff.DelayIsCappedExactly | app/src/event_listener.rs:142-153 | no wait exceeds the cap if and only if the base interval does not |
| ReconnectBackoff.ProductionWaitsSumTo243Seconds | app/src/event_listener.rs:76-106 | the nine waits of a production run that gives up sum to 243 seconds |
| EventListener.ReconnectWait | app/src/event_listener.rs:582-616 | one failed cycle advances the budget, gives up exactly at the attempt limit, and otherwise sleeps the policy's delay or takes the stop |
| EventListener.ConsumeStream | app/src/event_listener.rs:517-572 | the pull loop follows the task machine until the stream ends or the task exits, with the ingest outside the select |
| EventListener.RunEndpointStream | app/src/event_listener.rs:486-574 | the whole task, run on any possible history of moments, ends in the state the task machine says: at the await point, with the calls, and with as many closed streams as the history alone says |
| EventListener.HistoryTells | app/src/event_listener.rs:486-616 | where the task stands and everything it asked for, told from the last moments of the history without the machine: a stop taken while opening or waiting exits and asks for nothing, one taken while pulling closes the stream first |
| EventListener.FollowsExactly | app/src/event_listener.rs:503-570 | the moments that can come next, if and only if: a stop can be taken while opening, pulling or waiting, and never while an event is recorded or a stream is closed |
| EventListener.StopWithoutStreamExits | app/src/event_listener.rs:502-505 | a stop taken while no stream is open ends the task there and then, and closes nothing |
| EventListener.ClosesAreStopsWhilePulling | app/src/event_listener.rs:519-528 | the streams closed are, on every history, exactly the stops taken right after an open or a record |
| EventListener.EveryHistoryIsConsistent | app/src/event_listener.rs:486-616 | on every history: failures count the cycles since the last delivery; Failed is written once, exactly at max(1, max_attempts); events are ingested once and in order; a stream is closed exactly when a stop is taken while pulling; the waits are the first delays of the policy |
| EventListener.StopWaitsForTheRecord | app/src/event_listener.rs:548-570 | a stop that lands while an event is recorded waits for the record, and nothing delivered is lost |
| EventListener.GivingUpCostsTheWholeBudget | app/src/event_listener.rs:582-616 | a run that gives up has waited the sum of the first max_attempts - 1 delays since its last event |
| EventListener.FinitelyManyEventsTerminate | app/src/event_listener.rs:486-574 | a task delivered finitely many events takes an explicitly bounded number of steps |
| ListenerSupervisor.EveryRunKeepsInvariant | app/src/event_listener.rs:275-465 | every interleaving of supervisor statements and task moments keeps the bookkeeping invariant |
| ListenerSupervisor.BoundaryAgreesWithListing | app/src/event_listener.rs:275-301 | at each sweep boundary the keys of listeners and of statuses are exactly the last successfully listed set; a failed listing changes nothing |
| ListenerSupervisor.OneLiveTaskPerEndpoint | app/src/event_listener.rs:275-360 | no endpoint ever has two live tasks |
| ListenerSupervisor.NoGhostEntry | app/src/event_listener.rs:348-360 | a task's late write of Failed changes an existing entry and never creates one |
| ListenerSupervisor.ListeningMeansLive | app/src/event_listener.rs:275-360 | until the drain, in every interleaving, an armed endpoint has status Listening exactly while its task is live and Failed exactly when it gave up; no signal has fired for it and it has taken no stop |
| ListenerSupervisor.ErasedAfterJoin | app/src/event_listener.rs:348-360 | when a status is erased, every task of that endpoint has exited |
| ListenerSupervisor.NoTaskOutlivesTheSupervisor | app/src/event_listener.rs:373-465 | when the supervisor has returned, no task is live |
| ListenerIsolation.RunsProject | app/src/event_listener.rs:275-574 | any run projected onto one endpoint is a run of that endpoint's machine alone, and its status is a function of it |
| ListenerIsolation.EndpointsDoNotInterfere | app/src/event_listener.rs:275-574 | two runs in which an endpoint sees the same moves leave it with the same status and task history, whatever the other endpoints did |
| ListenerIsolation.FailureIsSticky | app/src/event_listener.rs:303-360 | a failed endpoint stays failed, with no further open, pull or ingest, as long as no sweep omits it |
| ListenerIsolation.RearmingNeedsAnOmission | app/src/event_listener.rs:275-340 | a failed endpoint is armed again only after a sweep omitted it, and then starts at Listening with an empty history |
| EventListeners.Supervisor.StopListener | app/src/event_listener.rs:348-360 | unlink, signal, join, and only then forget; the object is at each statement where the machine's run is; an endpoint without a listener is left alone |
| EventListeners.Supervisor.SpawnListener | app/src/event_listener.rs:308-339 | status, task and handle of one new endpoint, in that order |
| EventListeners.Supervisor.Reconcile | app/src/event_listener.rs:275-301 | after a sweep both maps have exactly the enrolled endpoints, and the endpoints that stay keep their tasks |
| EventListeners.Supervisor.DrainAll | app/src/event_listener.rs:373-392 | after the drain every task has exited, and the reported endpoints are exactly those with status Failed |
| EventListeners.Supervisor.Run | app/src/event_listener.rs:424-465 | when the loop returns, no task is live and both maps have exactly the endpoints of the last tick whose listing succeeded; when it does not, it is at a join |
| DataDirectory.Disk.CopySnapshotFile | app/src/backup.rs:846-877 | a copy that succeeds is the file's bytes; a copy that stops short is an error; nothing else changes |
| DataDirectory.Disk.CopyDataDirectory | app/src/backup.rs:794-835 | the recursion terminates, changes nothing outside the destination however it ends, and on success leaves exactly the source tree without the excluded paths |
| DataDirectory.OnlyTheFirstNameExcludes | app/src/backup.rs:808-811 | exclusion is by full path: it is the first name below the data directory that decides, so the same names deeper down are copied |
| DataDirectory.CopyHoldsEveryFile | app/src/backup.rs:742-784 | every path of the data directory that is not excluded can be copied back from a complete copy, unchanged |
| BackupPackage.CollectKeyEntry | app/src/backup.rs:567-580 | an envelope is packaged exactly when it can be read and loads |
| BackupPackage.CollectTlsEntries | app/src/backup.rs:596-631 | both TLS files, or neither when both are absent; anything else is an error that names the file at fault |
| BackupPackage.TlsExactly | app/src/backup.rs:596-631 | the pair is taken whole or not at all, and the file named in an error is the one that could not be read, the certificate first |
| BackupPackage.CollectArtifactEntries | app/src/backup.rs:634-695 | one entry per listed artifact with a file, over the three states in turn, each identifier once, stopping at the first file that cannot be read |
| BackupPackage.ArtifactsStopExactly | app/src/backup.rs:634-695 | collecting fails if and only if a listed artifact cannot be read, and names the first of them |
| BackupPackage.CollectBackupEntries | app/src/backup.rs:548-593 | the entries pushed are the specified package content in order, or the first error |
| BackupPackage.CollectedAreListedFiles | app/src/backup.rs:634-695 | a collected artifact is the file of a listed row, byte for byte, and nothing is collected twice |
| BackupPackage.ListedFilesAreCollected | app/src/backup.rs:634-695 | every listed artifact whose file exists is collected |
| BackupPackage.UnpackingUndoesPacking | app/src/backup.rs:548-740 | reading the entries of a collected package by name and kind gives back exactly what was collected |
| BackupPackage.PackageEntriesAddUp | app/src/backup.rs:699-740 | a collected package has no two entries of one name, and the restored count plus the one or two database entries is its entry count |
| BackupPackage.PlacesAreApart | persistence/src/artifact_repository.rs:394-399 | no two files of the data directory share a path and none is above another, artifacts included |
| BackupPackage.OnlyLockAndBackupsAreLeftOut | app/src/backup.rs:742-784 | the copy before a restore leaves out exactly the paths whose first name below the data directory is that of the runtime lock or of the backups |
| BackupPackage.PlacesAreCopied | app/src/backup.rs:742-784 | no file that a restore may write or remove is left out of that copy |
| RestoreSteps.RestoredBytes | app/src/backup.rs:699-740 | a completed restore leaves the packaged bytes at every packaged place, no old log, index or marker, and everything else as it was |
| RestoreSteps.EachFileIsOldOrNew | app/src/backup.rs:342-403 | cut off after any number of changes, every file but the marker is whole: as it was, or as restored |
| RestoreSteps.RestoredInOrder | app/src/backup.rs:699-740 | wherever a restore is cut off: when a file is no longer as it was, every file before it in the order of the restore is as the completed restore leaves it |
| PendingMarker.CutShort | persistence/src/backup_snapshot.rs:331-363 | the words of a marker cut at any byte: as many as were written exactly when the last one was begun, and then all but the last are whole |
| PendingMarker.OpensByWhatIsShown | persistence/src/backup_snapshot.rs:380-419 | over a complete marker any pair, and over one cut short the untouched pair, opens exactly when the marker shows enough of it |
| PendingMarker.AtMostTwoPairsOpen | persistence/src/backup_snapshot.rs:392-413 | whatever the text of a marker, it has four words or refuses every pair, and it lets at most two pairs open |
| RestoreSteps.OpensExactly | persistence/src/backup_snapshot.rs:245-287 | in every state a restore can leave, inside its marker included, the store opens if and only if there is no marker, or the pair is the old one and all four words are there, or the pair is the restored one and the fourth word was begun |
| RestoreSteps.OpensExactlyWhenWhole | persistence/src/backup_snapshot.rs:245-287 | once the marker is complete the store opens exactly when the database and its log are one pair, and they are in two halves only between the two renames when both differ |
| RestoreSteps.TornMarkerRefusesExactly | persistence/src/backup_snapshot.rs:331-419 | a marker cut after n bytes leaves the pair untouched and refuses it, with the exact n for which it does |
| RestoreSteps.EmptyMarkerRefusesUntouchedPair | persistence/src/backup_snapshot.rs:331-419 | the state with a marker of no bytes over an untouched pair, which the open refuses |
| RestoreSteps.WriteFileAtomic | app/src/backup.rs:908-919 | the file is replaced or it is not, and beside it only missing directories above it appear; without a disk failure it succeeds exactly when the path can be written |
| RestoreSteps.RemoveStaleSidecar | persistence/src/backup_snapshot.rs:592-601 | the file is gone or unchanged, and absence is no error |
| RestoreSteps.WriteRestoreMarker | persistence/src/backup_snapshot.rs:331-363 | the marker is written in place, so a failure can leave a prefix of it |
| BackupRestore.RestoreDatabaseFiles | persistence/src/backup_snapshot.rs:245-287 | marker, database, log, index, marker again, in that order, with some first part of it done on failure; an existing marker refuses and changes nothing |
| BackupRestore.RestoreDataDirectoryFiles | app/src/backup.rs:699-740 | writes the five fixed files and then the artifacts in package order, counts them, and stops at the first artifact name that is no identifier |
| BackupRestore.VerifyRestoredArtifactConsistency | app/src/backup.rs:426-496 | the loops compute the specified missing and orphan lists, and the verdict on them |
| BackupRestore.CheckIsExact | app/src/backup.rs:426-496 | the check accepts if and only if every ready row has a file and every artifact entry a row |
| BackupRestore.VerdictTellsExactly | app/src/backup.rs:426-496 | what the check reports is what is wrong: the rows cannot be read, an entry has a bad name, or its two lists are exactly the ready rows without a file and the artifacts without a row |
| BackupRestore.RefusedForTheFirstCause | app/src/backup.rs:246-300 | a restore is refused for the first of twelve causes, each stated by itself, and admitted if and only if there is none: stopped and complete instance, its key, a package that this key opens, of this product and of a schema it knows |
| BackupRestore.RestoreDataPhase | app/src/backup.rs:342-403 | success means every change was made and the check accepted; on failure some first part of the changes was made |
| BackupRestore.CreatePreRestoreSnapshot | app/src/backup.rs:742-784 | success leaves beside the data directory a copy with every path of it whose first name is not that of the runtime lock or of the backups; failure leaves the data directory alone |
| BackupRestore.NoFileIsLost | app/src/backup.rs:742-784 | file by file: while the data directory is as it was or a complete copy exists, each file has its bytes in place or at the same relative path in the copy, the files that the copy leaves out included |
| BackupRestore.RestoreBackup | app/src/backup.rs:246-327 | in every state the run can end or crash in: the data directory is as it was, or a complete copy exists, and each file is in one of the two; or everything is restored and verified; the lock and the backups are never touched; each file is old or new; the store opens exactly when the marker file shows enough of the pair; a refusal is the one of the validations, and a success means there was no cause for one; errors say truthfully what is left; a calm run's result is exact |
| BackupRestore.RestoreCutInsideMarker | persistence/src/backup_snapshot.rs:331-419 | a run in which nothing fails but that it is cut off inside the marker: the pair is untouched, and the open refuses it exactly if the marker does not show enough |
| BackupRestore.DiscardSnapshot | app/src/backup.rs:309-316 | the copy is removed from the bottom up, and nothing else changes; without a disk failure nothing of it is left |
| BackupRoundTrip.OpenTheStore | persistence/src/backup_snapshot.rs:380-419 | a marker is verified and cleared before the database engine touches the pair; over a marker that does not show the pair, and over a mixed pair under a complete marker, the open is refused and nothing changes |
| BackupRoundTrip.MarkedPairOpensExactly | persistence/src/backup_snapshot.rs:380-419 | under a complete marker the store opens if and only if the live pair is one of the two the marker records; any other pair is refused |
| BackupRoundTrip.OpensAfterARestoreExactly | persistence/src/lib.rs:199-209 | in every state a restore can leave behind, the open itself succeeds if and only if the marker shows enough of the pair it finds |
| BackupRoundTrip.CreateBackup | app/src/backup.rs:170-211 | opens the store, collects what is then in the data directory, closes it, writes the sealed entries and reports their count; never meets a duplicate name; errors before the open, and a store the marker refuses, leave the disk alone; a calm run's result is exact |
| BackupRoundTrip.BackupRefusedForTheFirstCause | app/src/backup.rs:170-211 | a backup is refused for the first of its causes, each stated by itself, and made if and only if there is none |
| BackupRoundTrip.PackagedExactly | app/src/backup.rs:548-695 | place by place a package holds exactly the file at the time of the backup, with the stated exceptions: an empty log, an envelope that does not load, an artifact without a row |
| BackupRoundTrip.OwnBackupOpens | app/src/backup.rs:246-300 | a backup opened with its own key passes the version and database checks and unpacks to what was collected |
| BackupRoundTrip.RestoreUndoesEverythingSince | app/src/backup.rs:548-740 | restoring brings back the backup-time bytes of every packaged place whatever happened in between, leaves the other files of the data directory, and the counts add up |
| BackupRoundTrip.CheckOfOwnBackup | app/src/backup.rs:426-496 | for a backup made by create_backup the check never reports an orphan, and reports exactly the ready rows whose file was neither there at the backup nor at the restore |
| BackupRoundTrip.OwnBackupIsRestoredExactly | app/src/backup.rs:342-496 | without a disk failure such a restore succeeds if and only if every ready row had its file at the backup or has it at the restore |
| BackupRoundTrip.BackUpAndRestore | app/src/backup.rs:170-327 | a backup, anything at all but the loss of the package, and a restore: when both succeed, every packaged place holds what it held with the store open for the backup |
| RestoreHistory.RestoreRepeatedly | app/src/backup.rs:246-327 | restores run one after the other, however each ends, are one of the histories the next theorem is about |
| RestoreHistory.FirstStateSurvives | app/src/backup.rs:227-245 | over any sequence of restores, each failing or cut off anywhere, the first state survives in place or as a complete copy, and each of its files, backups included, is in place or at the same relative path in a copy, until one of them has restored and verified everything |
| CenterWire.ReadNext | app/src/center_acceptor.rs:553-596 | the read loop returns the next envelope, absorbing control messages, or the end that the first ending read earns |
| CenterWire.ReadsToTheFirstEnd | app/src/center_ws.rs:39-46 | on any stream and either side, timeouts and failed flushes included: exactly the envelopes before the first read that ends the reading are read, and the verdict is the one that read earns: clean for a close or the stream's end, a violation for text, a broken frame, a read error, a failed flush, a timeout for the center only |
| CenterWire.ControlIsTransparent | app/src/center_ws.rs:39-46 | pings and pongs change neither the envelopes an end reads nor its verdict |
| CenterWire.BothEndsReadTheSame | app/src/center_client.rs:377-405 | both ends read the same envelopes from any stream without flush failure or timeout, and their verdicts differ only for a lost connection |
| CenterConnection.SentSequencesIncrease | app/src/center_acceptor.rs:466-477 | whatever sends fail, the sequences on the wire strictly increase and the counter stops below the largest u64 instead of wrapping |
| CenterConnection.DeliveredSequencesAreContiguous | app/src/center_client.rs:322-340 | without a failed send the sequences are contiguous until the counter is exhausted |
| CenterConnection.AnswersAreUnderstood | app/src/center_acceptor.rs:613-685 | for every decision the site's verdict on the answer is what the center decided |
| CenterConnection.SiteLearnsTheFirstMismatch | center-protocol/src/negotiation.rs:137-154 | from the Hello to what the site reads in the answer: a link needs all three fields to agree, and a rejection names the first that differs, protocol before baseline before ledger |
| CenterConnection.DispatchedIsHandled | app/src/center_acceptor.rs:537-548 | the loop hands every envelope to the handler once and in order, and acknowledges the last |
| CenterConnection.RepliesAcknowledge | app/src/center_acceptor.rs:537-548 | every reply to an envelope acknowledges that envelope and takes the next sequences |
| CenterConnection.HeartbeatsAreTransparent | app/src/center_client.rs:418-462 | heartbeats do not disturb what the site's loop dispatches unless one fails |
| CenterConnection.LostHeartbeatEndsTheLoop | app/src/center_client.rs:418-462 | a heartbeat that does not go out ends the loop with its reason, and when reading ends the loop every heartbeat before that went out |
| CenterConnection.FirstReadTellsExactly | app/src/center_acceptor.rs:720-739 | a Hello is taken exactly from an envelope that carries one, and every other first read is refused for what it is |
| CenterConnection.FirstReadSeesControl | app/src/center_acceptor.rs:720-739 | removing control messages changes the center's first read exactly when one comes first and what follows is not refused in the same way |
| CenterConnection.PingBeforeHelloIsRefused | app/src/center_acceptor.rs:720-739 | a Hello is taken, and the same Hello behind a ping is refused |
| CenterConnection.CenterEnd.Send | app/src/center_acceptor.rs:466-477 | counters, result and wire after a send, for each way it can end |
| CenterConnection.CenterEnd.ReceiveEnvelope | app/src/center_acceptor.rs:518-526 | the next envelope, with its sequence recorded |
| CenterConnection.CenterEnd.Run | app/src/center_acceptor.rs:537-548 | the loop dispatches exactly the envelopes before the first read that ends it, and ends as that read earns |
| CenterConnection.CenterEnd.ReceiveHello | app/src/center_acceptor.rs:720-739 | the first read must be a Hello, whose sequence is recorded |
| CenterConnection.CenterEnd.CompleteNegotiation | app/src/center_acceptor.rs:613-685 | negotiation, admission lookup and answer in order, for each way they can end |
| CenterConnection.SiteLink.Send | app/src/center_client.rs:322-340 | counters, result and wire after a send, for each way it can end |
| CenterConnection.SiteLink.ReceiveEnvelope | app/src/center_client.rs:377-405 | the next envelope, with no sequence recorded |
| CenterConnection.SiteLink.Run | app/src/center_client.rs:418-462 | the loop of heartbeats and reads follows the specified run; unless a heartbeat fails it dispatches the envelopes before the first ending read and ends as that read earns |
| CenterConnection.SiteLink.CompleteNegotiation | app/src/center_client.rs:466-528 | Hello out, first answer in, and the verdict it stands for |
| CenterConnection.ConnectWithRetry | app/src/center_client.rs:180-213 | only a link or a requested stop ends the retries, the first of them does, and the attempts are counted |
| CenterProtocol.SequencesAgree | app/src/center_acceptor.rs:466-548 | on every run of both ends each acknowledgement is the highest sequence received and below the peer's counter; sent sequences start at 1 and are contiguous while no send is lost |
| CenterProtocol.CountersNeverDecrease | app/src/center_client.rs:418-462 | no step lowers a counter or an acknowledgement |
| CenterProtocol.NegotiationAgreement | app/src/center_client.rs:466-528 | whatever is lost on the way, the site has a link only if protocol, baseline and ledger of its Hello are those of the center and the center admitted it, reports each refusal only for its cause, and no handler sees a frame before acceptance |
| CenterRuns.CenterLoopIsARun | app/src/center_acceptor.rs:537-548 | the center's loop, interleaved statement by statement with the other end and the network, is a run of both ends, and does to counters, wire and handler what the loop does on what was read |
| CenterRuns.CenterRunsInStep | app/src/center_acceptor.rs:537-548 | a center object in step with the machine is in step after its loop, with its acknowledgement below the site's counter and its sequences increasing |
| CenterRuns.SiteLoopIsARun | app/src/center_client.rs:418-462 | the same for the site's loop with its heartbeats |
| CenterRuns.SiteRunsInStep | app/src/center_client.rs:418-462 | the same for a site object |
| CenterRuns.CenterNegotiatesInStep | app/src/center_acceptor.rs:613-685 | a center object is in step after its negotiation, serves exactly if it accepted, and then the Hello was compatible and admitted |
| CenterRuns.SiteNegotiatesInStep | app/src/center_client.rs:466-528 | a site object is in step after its negotiation, and has a link only if the center found its Hello compatible and admitted it |
| Initialization.AcceptedPassphrases | app/src/initialization_runtime.rs:53-79 | both passphrase bounds are effective, and every confirmed passphrase of 12 to 256 characters is accepted |
| Initialization.RejectedExactly | app/src/initialization_runtime.rs:72-82 | every rejection of a passphrase has its cause, and too long is only said of more than 256 characters |
| Initialization.Instance.WriteAdministrator | app/src/initialization_runtime.rs:226-258 | the four writes of a first seeding in order, with the earlier ones kept when a later one fails |
| Initialization.Instance.SeedBootstrapAdministrator | app/src/initialization_runtime.rs:201-258 | principal, role, code and print in order, with the earlier writes kept when a later one fails |
| Initialization.Instance.RecoverOrCreateKey | app/src/initialization_runtime.rs:128-168 | a present key is recovered with the passphrase, an absent one created only when no database is there, with a stop possible at each step; a database without a key is refused and left alone |
| Initialization.Instance.CloseAndCommit | app/src/initialization_runtime.rs:174-182 | the store is closed and only then the marker written, which a fault can leave absent, cut short or whole |
| Initialization.Instance.InitializeStandalone | app/src/initialization_runtime.rs:106-183 | one attempt from any state, with a failure or crash at any step, ends in the specified durable state and outcome; a refusal has its cause in the state, a success has seeded the store, a stop leaves durable what comes before it and nothing after |
| Initialization.RefusedExactly | app/src/initialization_runtime.rs:106-226 | from any state: each refusal only for its cause and, without a fault, for every state with that cause; what is refused is left alone; without a fault an attempt succeeds exactly when there is no cause |
| Initialization.UnpairedDatabaseIsLeftAlone | app/src/initialization_runtime.rs:157-163 | a database without a key is left alone by every attempt, whatever goes wrong, and no key is made for it |
| Initialization.SuccessFromAnyState | app/src/initialization_runtime.rs:106-258 | from any state: a success starts without a marker and ends with one, over the key that was there or, when neither key nor database was, a fresh one, and over a store with its administrator and a pending code |
| Initialization.AttemptStopsInOrder | app/src/initialization_runtime.rs:106-258 | from any state: an attempt that stops at a step leaves durable what comes before it in the order of the protocol and nothing of what comes after |
| Initialization.FaultStopsExactly | app/src/initialization_runtime.rs:106-258 | a fault stops an attempt exactly if the attempt gets to that step, stated step by step for any state; a failed migration is no fault that stops, only a crash in it is |
| Initialization.EveryHistoryIsSound | app/src/initialization_runtime.rs:106-258 | on every history the marker implies key, database, principal, role and one unconsumed code; the database implies the key; at most one code is stored or printed; nothing durable is lost or replaced |
| Initialization.AtMostOneSuccess | app/src/initialization_runtime.rs:106-183 | at most one attempt of any history succeeds |
| Initialization.RecoverableExactly | app/src/initialization_runtime.rs:128-226 | a fault-free rerun with the original passphrase succeeds if and only if the marker was not cut short and the store is not seeded without a code |
| Initialization.DeadStatesStayDead | app/src/initialization_runtime.rs:201-226 | the two dead states refuse every later attempt |
| Initialization.DeadStatesAreReached | app/src/initialization_runtime.rs:201-258 | one attempt cut off at the role, or inside the marker, reaches either dead state |
| Initialization.WrongPassphraseChangesNothing | app/src/initialization_runtime.rs:128-134 | when a key exists, a wrong passphrase changes nothing |
| Initialization.MigrationKeepsTheKey | app/src/initialization_runtime.rs:135-154 | re-protecting a legacy envelope keeps its key and passphrase, whatever fails |
| Initialization.MigrationHappensExactly | app/src/initialization_runtime.rs:135-154 | a legacy envelope is re-protected by every attempt that gets so far, unless the migration itself fails |
| Initialization.CodeIsShownExactly | app/src/initialization_runtime.rs:226-258 | the code is printed by the attempt that stored it unless it stops in between, and by no later one |
| Initialization.CompletedInstanceWithUnseenCode | app/src/initialization_runtime.rs:226-258 | a history that completes an instance whose code nobody was shown |
| CertificatePair.PairFiles.GenerateOrLoad | app/src/center_ca.rs:80-102 | loads a whole pair, generates an absent one, refuses anything in between |
| CertificatePair.PairFiles.Persist | app/src/center_ca.rs:205-235 | the certificate is written first and the key second, with a failure possible at each |
| CertificatePair.StartOnFiles | app/src/center_acceptor.rs:760-797 | a start loads or generates the CA and then loads or issues the server pair |
| CertificatePair.StartTellsExactly | app/src/center_acceptor.rs:760-797 | from any directory: a start fails for the first cause, the CA's before the server's, each stated by itself, and leaves the server pair alone when the CA fails; one that serves has the pairs that were there and fresh ones for the absent, the server's issued by the CA it serves with |
| CertificatePair.NothingIsRewritten | app/src/center_ca.rs:80-102 | no start of any sequence rewrites an existing file |
| CertificatePair.ServesExactly | app/src/center_ca.rs:80-102 | a fault-free start serves if and only if each pair is complete or absent |
| CertificatePair.HalfWrittenNeverServes | app/src/center_ca.rs:80-102 | a half-written pair makes every later start fail |
| CertificatePair.PairsBelongTogether | app/src/center_ca.rs:205-235 | a certificate and key that are both present are of one generation, and the server's issuer is the CA on disk |
| CertificatePair.SuccessfulStartsAgree | app/src/center_acceptor.rs:760-797 | all successful starts report the same identities |
| Redaction.RedactionIsCanonical | api/src/lib.rs:3708-3730 | two trees redact to the same tree if and only if they agree everywhere except below password members |
| Redaction.FixedExactlyWhenMarked | api/src/lib.rs:3708-3730 | redaction is the identity exactly on trees whose password members already hold the marker |
| Redaction.RedactionIsIdempotent | api/src/lib.rs:3708-3730 | redacting twice is redacting once |
| Redaction.RedactionKeepsShape | api/src/lib.rs:3708-3730 | at every depth it reaches, each object keeps its keys and their order and each array its length |
| Redaction.RedactedIsMarked | api/src/lib.rs:3708-3730 | every password member of the result holds the marker and everything else is as before |
| Redaction.WireHidesExactlyPasswords | api/src/lib.rs:3693-3699 | the wire form of two commands is equal if and only if the commands agree outside their passwords |

## Left out

- EventListeners.Supervisor.AwaitExit: the runtime's turns are a finite script, so a join that the script does not satisfy leaves the supervisor at the join instead of waiting for ever.
- EventListeners.Supervisor.Run: does not say that a stop wins a race with a tick; which arm of a select is taken is part of the script.
- RestoreSteps.WriteFileAtomic: does not model the name of the temporary sibling, so a stray temporary file after a crash is not a file of the model.
- BackupRestore.RestoreDataPhase: reading back gives what was written, so the branch that reports a restored database that differs is not reachable in the model and is a proved assertion instead.
- BackupRestore.RestoreBackup: reads of the small files and of the package do not fail on their own, and the runtime lock file is not created or removed; both come before the first change.
- BackupRoundTrip.CreateBackup: what the database engine does to the database and its log on opening and closing is one abstract step each, so a crash inside the engine, the recovery copy it takes before a migration, and the bounded retry against a racing checkpoint are left out.
- PendingMarker.Tokens: separates words at ASCII white space; a marker file of foreign origin with other white space or invalid text is not modelled.
- CenterConnection.CenterEnd.Run: a handler answers by what it has been handed so far; state it shares with anything else is not modelled.
- BackupRoundTrip.RestoreUndoesEverythingSince: is about packages made by `create_backup`; a package made by hand can spell one artifact identifier in several ways, and then the last entry counts (`RestoreSteps.RestoredBytes` covers it).
- CenterProtocol.SequencesAgree: is about `send` with `run`; `send_envelope`, whose sequences the engine owns, and the raw `accept` without admission are not modelled.
- CenterConnection.ConnectWithRetry: the intervals between attempts are not durations but steps, and the source's tracing of each failed attempt is left out.
- Redaction.RedactionIsCanonical: numbers are compared by their text.
- The package's byte format, the AEAD, TLS and X.509, SQLite itself, and the fingerprints' collision resistance: laws of `Platform`.
- The manifest length bound of a package and the bounds on entry names: collected names are short.
- Symbolic links, permissions, `fsync` and the durability of renames.
- Real time: intervals are abstract durations, and timeouts are events.
- Panics in tasks and poisoned mutexes.
- Tracing, printing format, the CLI, the HTTP API and its data transfer types, the doctor, the UI.
