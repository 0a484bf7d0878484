# Netsy in Dafny

A Dafny model of netsy, an etcd-like store: one Primary appends numbered
records to a log, replicates them to followers, makes them durable by quorum or
in object storage, and serves reads and watches from SQLite tables. The model
covers the protocols, and states what they keep over whole runs and every
interleaving.

`dafny verify dfyconfig.toml` checks the whole project.

## What is modelled

| files | component |
|---|---|
| `Bytes`, `Sets`, `Records` | keys in lexicographic order, records, tables of records |
| `Mvcc`, `LocalDb` | the INSERT of `InsertRecord`, the links between a key's rows, and the etcd-style map they refine |
| `Erasure`, `Compaction` | value erasure, what it leaves readable, runs of transactions and compactions, the derived compaction revision |
| `Ranges`, `KeyRange` | unary and streamed reads; which keys a watch range covers |
| `Transactions`, `PrimaryServer`, `PrimaryRuns` | which transactions are accepted, the Primary's write path in place, and each of its outcomes as a run of the cluster |
| `Replicate`, `Replication`, `Queues`, `Following`, `Reopening`, `FollowerServer` | one Primary term as a state machine over writes, rollbacks, streams, receipts, compactions, reconnects and snapshots; the follower in place |
| `Durability`, `Completion`, `Retention`, `Survival` | which replicas a receipt proves to hold the row, how long they keep it, and its value |
| `Election`, `Failover`, `Scenarios`, `ErasedLive` | who is elected, what the winner holds, and the runs in which it does not |
| `WatchFloor`, `GrantedFloor`, `CompactionNotice` | the watch-admission floor under every interleaving, when a granted floor holds, and the cluster-wide notice built on it |
| `WatchManager` | distribution of committed records into bounded inboxes |
| `ObjectKeys`, `ChunkBuffer`, `Imports`, `Restore`, `Preflight` | object keys, the chunk buffer, importing files, snapshots and clean-up, rebuilding, Primary preflight |
| `Members` | member IDs under conditional writes |

A SQLite table is a map from revision to record. A stream is a sequence read in
order. Time, RPC outcomes, lost answers and goroutine order are parameters or
events, so every theorem is for all of them. A file in object storage is its
list of records with the creation stamp of its header.

## Main results

- `HistoryRefines`: every history of transactions on the tombstoned log is the
  same history on a compare-and-swap map.
- `FollowerExact`: over every run of one term, rollbacks, reused revisions and
  compactions on either side included, a follower on a lossless stream holds the
  committed records as written or erased, and delivers exactly them.
- `DeliveredSinceReopening`: over every run after a stream opens again, whatever
  the replica delivers is a record it has read since.
- `HistoryReads`: after every history, a read answers from the reference map: at
  revision 0 from the last one, at an earlier revision from the one of then.
- `RangeStream`: a paged read that succeeds is the unary answer at the moment
  it began, whatever writes, deletions and compactions come between its pages.
- `QuorumAckDurable`, `AckedRecordOnNextPrimary`: an acknowledged quorum write
  is, at every later moment of the term, on the Primary and the required
  replicas, and the next Primary stores it, its value erased at most.
- `ValueIntactIff`, `AckedValueSurvivesIff`: exactly when its value is still
  there, on a node and on every possible next Primary.
- `GrantHoldsIff`, `PersistedFloorHoldsIff`: exactly when no interleaving lets a
  watch in below a granted compaction revision.
- `CompactionInvisible`: no transaction outcome and no current value depends on
  compactions.
- `WatchManager.Manager.Distribute`: each watch that covers the record is told
  of it once; no gap in any watch, ever; overflow closes the stream.
- `Rebuild`, `RunPreflightPass`: exactly when a database can be rebuilt from
  storage and a starting Primary can take storage over, with what they then
  hold; a pass that stops anywhere can be repeated.

## Where a property fails

Each is kept as the code has it, shown by a concrete case, and given the
condition under which it holds.

- A receipt is matched by revision only (internal/primary/server.go:368-377).
  After a rolled-back write of the same revision, a write is acknowledged by a
  replica that never saw it: `StaleReceiptAcked`. A counted replica is sure to
  hold the row if and only if no other row of the revision was under way to or
  from it when the write began: `CountedHoldsIff`, `AckHoldsIff`.
- A compaction counts tentative rows. Beside a rolled-back row of the key it
  erases a live, acknowledged value on a replica, and the replica can win the
  next election: `LiveValueErased`. The value is intact if and only if no
  compaction at or above its revision ran there while a newer row of its key was
  stored or the row itself was a tombstone: `ValueIntactIff`, `AckedValueSurvivesIff`. The
  Primary itself never loses a current value: `LiveValuesKept`.
- Election compares revisions, not records. A node left with a rolled-back row
  can win over one that receipted the committed row: `RolledBackRowWins`. The
  record survives every election if and only if no node that can win stores
  another in its place: `AckedRecordSurvivesIff`, `CanWinIff`. A degraded
  holder does not count: `DegradedHolderLoses`, `WinnerReachesIff`.
- Two overlapping floor changes: the first one's late roll-back lowers the
  floor the second was granted: `LateRollbackLowersFloor`. A granted floor holds
  if and only if the floor stays at most one below it whenever a watch could be
  created: `GrantHoldsIff`; changes that do not overlap and do not go down are
  one way to ensure it: `OrderlyFloorHolds`.
- Storage and log can come to disagree in two ways, both at a Primary that has
  begun draining. A write admitted before can commit by quorum over a chunk
  that a failed synchronous write left at that revision:
  `CommitOverLeftoverChunk`, with the condition in `LeaderTxn`. Or the recovery
  of the failed write stores it after its revision was committed with another:
  `RecoveryOverCommit`, with the condition in `RecoverUpload`.
- A flush whose upload was stored but not acknowledged is refused on retry,
  because the header's creation stamp differs: `RetryRefused`. A record whose
  key a failed synchronous write has taken is refused too, until a later record
  joins its batch: `TakenKeyWaits`. `Flush` says exactly when it succeeds.
- A snapshot and a later chunk, or a database and a chunk that straddles its
  head, can hold one row erased and as written; then no bootstrap and no
  preflight pass succeeds: `RebuildRefused`, `PassRefused`. They succeed if and
  only if no two copies they meet differ: `Rebuild`, `RunPreflightPass`.
- A watch of an empty key is admitted, and the first record it looks at ends the
  process: `EmptyKeyPanics`; `Distribute` says exactly which record does.
- The descending count is read from the wrong row; it is right exactly when
  nothing matches: `Ranges.Range`.
- The five-way range test differs from the interval exactly for an exact range
  whose key ends in a zero byte and a prefix range whose key ends in 0xff:
  `RangeExactIffFaithful`.
- A row a reader sees at an older revision is spared by compaction exactly
  when no newer row of its key exists: `HeadSparedIffNotSuperseded`.
- The 64-bit member ID is fresh unless it wrapped round to a used 0:
  `NextFreshIff`.

## Where the code and its documentation disagree

The model follows the code.

- internal/primary/leader_txn.go:59-62 lets a create carry a failure range.
  SQLite reports the `created` column before `prev_revision`, so a create of a
  live key fails without running it: `FailureRangeIff`.
- docs/design/storage-replication.md:60 counts receipts of healthy, previously
  receipted replicas only; the code counts every receipt.
- docs/design/watches-compaction.md:56 raises and validates the floor under one
  lock; the code stores it atomically and then scans each watcher under that
  watcher's own lock.
- A floor change tolerates a watch that starts at the revision itself, while
  the admission of a new watch rejects it.

## Model

| member | source | states |
|---|---|---|
| Bytes.LessIsLexicographic | internal/watch/watcher.go:470-515 | the key order: a proper prefix is smaller, otherwise the first byte that differs decides |
| Mvcc.InsertKeepsLog | internal/localdb/insert.go:141-252 | an inserted row keeps the log gap-free, every row under its revision and linked to its key's previous row |
| Mvcc.PrevRevisionLinks | internal/localdb/insert.go:141-252 | a positive prev_revision names the live row of the key immediately before; 0 means the key had no live row |
| Mvcc.LifeOfKey | internal/localdb/insert.go:141-252 | create_revision names the put that began the key's life and is constant through it; version counts the puts since; a tombstone has version 0 |
| Mvcc.IndexUnique | internal/localdb/schema.go:34 | no two rows of a log share key, create_revision and prev_revision |
| Mvcc.ConstraintsNeverFire | internal/localdb/insert.go:44-139 | at the next revision an insert fails by its compare or its validation, never by a uniqueness constraint |
| Mvcc.InsertedIffCompareHolds | internal/localdb/insert.go:44-252 | a request is inserted exactly when the key's current mod revision, 0 if absent or deleted, equals the compared one |
| Mvcc.RefusalOf | internal/localdb/insert.go:44-252 | which error a refused request gets: a create of a live key and a delete of a missing one before any compare, a failed compare otherwise |
| Mvcc.InsertedRow | internal/localdb/insert.go:141-252 | every column of the inserted row: the request's own, the writer and the time, and the create revision and version that continue the key's life or begin one |
| Mvcc.StepRefines | internal/primary/leader_txn.go:66-185 | one transaction on the log is one compare-and-swap on the map, and the revision counter moves with it |
| Mvcc.HistoryRefines | internal/primary/leader_txn.go:66-185 | every history of requests on the log is the same history on the map, state and counter |
| Mvcc.HistoryRemembers | internal/localdb/find.go:118-125 | after every history, the map at the revision an earlier moment had reached is the reference map of that moment |
| LocalDb.Database.InsertRecord | internal/localdb/insert.go:44-139 | adds exactly the row the compare allows, or leaves the table alone; keeps a log a log |
| LocalDb.Database.ExecuteCompaction | internal/localdb/compaction.go:76-106 | erases exactly the compactable rows, counts them, and keeps every link between rows |
| LocalDb.CompactKeepsLog | internal/localdb/compaction.go:76-106 | erasure keeps a gap-free linked log gap-free and linked |
| LocalDb.Database.PersistCompactionRevision | internal/localdb/compaction.go:52-68 | a positive revision joins the persisted ones, any other is ignored |
| LocalDb.Database.LatestCompactionRevision | internal/localdb/compaction.go:15-28 | the highest revision persisted, 0 without one |
| LocalDb.Database.VerifyIntegrity | internal/localdb/db.go:95-109 | accepts exactly the tables without a gap |
| LocalDb.IntegrityIffGapFree | internal/localdb/db.go:95-109 | row count equals the highest revision if and only if the positive revisions have no gap |
| Erasure.CompactExact | internal/localdb/compaction.go:76-106 | at and below the revision exactly the newest row of each key keeps its value, unless it is a tombstone; no other row or column changes |
| Erasure.InsertIgnoresErasure | internal/localdb/insert.go:143-149 | an insert into the log with erased values has the same outcome and row as without |
| Erasure.HeadsKept | internal/localdb/compaction.go:76-106 | the current map of keys, with values, is untouched by erasing superseded rows and tombstones |
| Compaction.CompactionInvisible | internal/localdb/compaction.go:76-106 | over every interleaving of transactions and compactions, all transaction outcomes, the head revision and the current map equal those of the run without compactions |
| Compaction.CompactionsCollapse | internal/localdb/compaction.go:76-106 | any compactions up to C, interleaved with transactions and followed by C, leave what C alone leaves, but for the clock |
| Compaction.LastCompactionSuffices | internal/localdb/compaction.go:76-106 | compacting an already partly compacted log at C equals compacting the original at C, but for the clock |
| Compaction.DerivedRevisionSound | internal/localdb/compaction.go:32-48 | over every run the derived revision never exceeds the highest executed one, and every row up to it is compacted |
| Compaction.DerivedIsPrefix | internal/localdb/compaction.go:32-48 | of a gap-free table every row up to the derived revision is compacted, and the next one is not or is not there |
| Compaction.HeadSparedIffNotSuperseded | internal/localdb/compaction.go:89-96 | a row read at a revision keeps its value exactly when it is above the compaction or no newer row of its key, tentative ones included, exists |
| Ranges.LiveRowsExact | internal/localdb/find.go:108-195 | each matching key live at the revision appears once, in ascending key order, with its newest row, and nothing else does |
| Ranges.FindRecordsBy | internal/localdb/find.go:108-227 | ascending: the first limited rows and the full count; descending: the largest key's row is taken for the count row, the count comes back as 0 and an empty record ends the list |
| Ranges.RecordsToKeyValues | internal/commonapi/range.go:211-230 | the rows as key-values, or the compacted error if any row is compacted |
| Ranges.Range | internal/commonapi/range.go:135-207 | invalid and unsupported requests are refused with their error; an ascending read answers from the key map of its revision, revision 0 being the newest: every matching key counted, its entry listed once in key order up to the limit, with the more flag exact; it fails exactly when the limit reaches an erased row; a descending count is right exactly when nothing matches |
| Ranges.ReadIsStore | internal/localdb/find.go:118-125 | the reference read, for every table, revision and limit, is the answer of the key map |
| Ranges.HistoryReads | internal/commonapi/range.go:135-207 | after every history a read that succeeds answers from the reference map the history led to, or had led to at the revision asked for |
| Ranges.EditsAreStable | internal/localdb/replicate.go:203-228 | any number of appends, overwrites and deletions above a revision, and of compactions, leave every row at or below it as it was or erased |
| Ranges.OldReadsExactOrCompacted | internal/commonapi/range.go:211-230 | after any such edits a read at the revision lists as many rows as before, each exact or reported compacted |
| Ranges.OldReadsAfterRun | internal/localdb/compaction.go:76-106 | so after every interleaving of transactions and compactions, for every revision up to the head it began from |
| Ranges.ChunkSizer.Observe | internal/commonapi/chunksize.go:43-50 | the page size at most doubles or halves, stays within its bounds, and is left alone near the target |
| Ranges.ReadPage | internal/localdb/find.go:229-286 | a page queried after the cursor holds exactly the next live rows of the table the stream began with, and tells whether more follow; if it meets a compacted row the unary read of that moment fails too |
| Ranges.PageFromLaterTable | internal/localdb/find.go:229-286 | an uncompacted page of a table that has since grown and been compacted holds the next rows of the first table |
| Ranges.RangeStream | internal/commonapi/range.go:23-126 | terminates; success sends the unary answer at the start revision, in order and with its count and more flag, whatever edits above it and compactions come between the pages; a failure is a cancel, a failed send or a compacted row |
| KeyRange.InRangeIsInterval | internal/watch/watcher.go:470-515 | on faithful ranges the five-way test is membership in the half-open interval |
| KeyRange.UnfaithfulErrs | internal/watch/watcher.go:470-515 | on every other range it errs, on the range key itself |
| KeyRange.RangeExactIffFaithful | internal/watch/watcher.go:470-515 | the test is exact for all keys if and only if an exact range's key has no trailing zero byte and a prefix range's key no trailing 0xff |
| Transactions.ParseAcceptsExactly | internal/primary/leader_txn.go:381-452 | a request parses to q if and only if it is q's encoding: creates with or without a failure range, updates and deletes with one and a positive compare |
| Transactions.FailureRangeIff | internal/primary/leader_txn.go:129-147 | on a failed compare the failure range runs exactly for updates and for deletes of a live key |
| Transactions.MajorityReceipts | internal/primary/quorum.go:31-55 | under majority quorum the Primary with the required replicas is a strict majority, and one receipt fewer would not do |
| PrimaryServer.Primary.Strategy | internal/primary/quorum.go:31-55 | no quorum when disabled; a static quorum as given, if that many replicas are healthy and have receipted; a majority quorum of half the nodes |
| Transactions.ReceiptCollector.CollectReceipt | internal/primary/quorum.go:83-96 | distinct nodes are counted until the requirement is met; later receipts change nothing |
| PrimaryServer.Primary.BroadcastToFollowers | internal/primary/follow.go:64-76 | the sessions stay the same, and each one's queue is the old one with the message at its end, or unchanged if it was full |
| PrimaryServer.Primary.WriteRecord | internal/primary/write_record.go:23-54 | succeeds exactly when the chunk did not exist and one of two attempts was answered, the first not having stored it silently; storage gains the row at most |
| PrimaryServer.Primary.ExecuteObjectStorageTxn | internal/primary/leader_txn.go:194-230 | applied exactly when the chunk was free, its upload and the commit succeeded: then a new chunk with the committed row, record and commit broadcast; otherwise log and counters are untouched, the Primary is not Active, and a failed upload starts the row's recovery |
| PrimaryServer.Primary.RecoverUpload | internal/primary/leader_txn.go:330-378 | one round of one of the recoveries under way succeeds exactly when the object was created or found identical, and then resigns; storage and log stay in agreement exactly unless it stores the row after its revision was committed with another |
| PrimaryServer.Primary.AwaitReceipts | internal/primary/server.go:368-377 | met exactly when enough distinct nodes sent a receipt for the revision before the timeout |
| PrimaryServer.Primary.ExecuteQuorumTxn | internal/primary/leader_txn.go:238-313 | applied exactly when the receipts and the commit are in: committed, broadcast and buffered; a failed one has only broadcast its record, and a failed wait degrades the replicas that had receipted before or meanwhile but not this revision, and asks for a flush |
| PrimaryServer.Primary.Admit | internal/primary/leader_txn.go:70-81 | only an Active Primary admits a write, and not one whose client has gone |
| PrimaryServer.Primary.TryInsert | internal/primary/leader_txn.go:82-147 | a row exactly when the request parses and its compare holds; the failure range runs exactly on a refused compare that carries one |
| PrimaryServer.PointReadAnswers | internal/primary/leader_txn.go:129-143 | the failure range is the entry of that one key in the newest map, nothing if it has none, or the compacted error if its row is erased |
| PrimaryServer.Primary.Execute | internal/primary/leader_txn.go:148-167 | the outcome of the path chosen, what it leaves of the log, the counters and every queue, and whether storage still agrees with the log |
| PrimaryServer.LeftQueues | internal/primary/follow.go:64-76 | for every session and every fill of its queue: an applied synchronous write leaves record and commit at the end if two fit, the record alone if one does; a quorum write the record, less what was taken, then the commit if it fits |
| PrimaryServer.Primary.LeaderTxn | internal/primary/leader_txn.go:82-185 | applied exactly when the compare holds and its path succeeds, with the row the compare allowed; every other outcome leaves log, counter and committed revision unchanged; each session's queue ends as its path sends: record then commit, each if there is room, or the record, what the sender left, and the commit; a refused compare answers the key's current value; chunks stay in agreement with the log exactly unless it commits over a different chunk an earlier failure left, which an Active Primary never does |
| PrimaryRuns.LeaderTxnIsRun | internal/primary/leader_txn.go:66-313 | whatever a write answers, the Primary it leaves is the Primary after a run of the cluster model with the same receipts and reads |
| PrimaryRuns.WaitIsFlight | internal/primary/quorum.go:83-108 | during the wait the cluster's commit is enabled exactly when the method has counted enough receipts |
| PrimaryRuns.CommitOverLeftoverChunk | internal/primary/leader_txn.go:238-313 | two writes after which storage and log disagree: the second commits by quorum over the chunk of the first, which was reported failed |
| PrimaryRuns.RecoveryOverCommit | internal/primary/leader_txn.go:330-378 | two writes and a recovery after which they disagree: the failed row is stored once its revision is committed with another |
| Replicate.ReplicationFrame | internal/localdb/replicate.go:203-228 | committed rows are never overwritten and no other row is touched |
| Replicate.ReplicatedRecordStored | internal/localdb/replicate.go:29-160 | a success leaves exactly the incoming record at its revision |
| Replicate.TentativeStoredIff | internal/localdb/replicate.go:203-228 | which records are stored: exact duplicates, and others if their revision is free or above the committed one and no other row has their index |
| Replicate.TentativeAccepted | internal/localdb/replicate.go:203-228 | the next log record is always accepted above the committed revision, whatever tentative row a rolled-back write left there |
| Replicate.ReplicateErased | internal/localdb/replicate.go:164-228 | once rows are erased, a record as it was written is refused by every table that refused it before, and above the committed revision by no other |
| Replication.StepKeepsPrimary | internal/primary/leader_txn.go:194-313 | every event, compactions and snapshots included, keeps what was written gap-free and linked with committed revision = head = next revision - 1, the database equal to it but for erased tombstones and superseded rows, every snapshot a copy of it, and commits at most one row |
| Replication.LiveValuesKept | internal/localdb/compaction.go:89-96 | no compaction of the term takes a current value from the Primary |
| Replication.OnlyCommitsAdvance | internal/primary/leader_txn.go:194-313 | over every run the committed revision grows by the number of acknowledged writes; without one, log and counter are untouched whatever failed |
| Replication.RunKeepsPrimary | internal/primary/leader_txn.go:66-313 | over every run the invariant holds, no committed row is rewritten, and the database holds each as written or erased |
| Queues.HandleKeeps | internal/replication/follower.go:336-356 | reading anything but another row of its revision, a stored row stays, erased or not, and no other takes its place |
| Queues.UnreadErased | internal/localdb/replicate.go:203-228 | erased rows never make a replica read more of its queue before its first error |
| Following.RecordHandled | internal/replication/follower.go:336-382 | a record message leaves the follower local to the log with the record as its tentative row |
| Following.CommitHandled | internal/replication/follower.go:387-397 | a commit message makes the tentative row committed and delivers it once |
| Following.AllLocalAlike | internal/replication/follower.go:412-430 | a compaction on the follower changes nothing it will do with what is queued, but for erased rows |
| Following.StepKeepsInStep | internal/replication/follower.go:246-433 | every event of the Primary, the stream and the follower keeps it in step, now and after every queued message |
| Following.InitialPutsInStep | internal/replication/follower.go:304-328 | the initial message of a session puts a follower with the committed log, erased or not, in step |
| Following.FollowerExact | internal/replication/follower.go:336-433 | in every run over a lossless stream the follower's rows up to its committed revision are the Primary's as written or erased, and its deliveries are the committed records, each once, ascending, never a rolled-back one, tombstones perhaps stamped as erased |
| FollowerServer.ReadyRevisions | internal/watch/manager.go:195-214 | the pending revisions up to the bound, each once, ascending |
| FollowerServer.Follower.EnqueueWatchRevision | internal/watch/manager.go:174-182 | a positive revision becomes pending, any other is ignored |
| FollowerServer.Follower.AdvanceCommittedRevision | internal/watch/manager.go:195-220 | pending revisions up to the committed one leave the set and their records are delivered in ascending order |
| Reopening.ReadyAt | internal/watch/manager.go:195-220 | each pending revision with a row up to the committed one is delivered once, after exactly the smaller ones |
| FollowerServer.Follower.ResetPending | internal/watch/manager.go:187-191 | nothing is pending, and nothing else has changed: the model's reconnect |
| Reopening.ReopenedDeliversNothing | internal/replication/follower.go:233-238 | the initial message after a reopening sets the committed revision and delivers nothing |
| Reopening.DeliveredSinceReopening | internal/replication/follower.go:233-238 | over every run after a reopening the earlier deliveries stand, and each later one is a record read since, its value erased at most |
| FollowerServer.Follower.HandleInitial | internal/replication/follower.go:304-328 | the model's handling of the initial message, with the Primary's compaction revision taken, and persisted by a follower that had none; a failed read or write changes nothing |
| FollowerServer.Follower.HandleRecord | internal/replication/follower.go:336-382 | the model's handling of a record, with a receipt exactly when it was stored and one of two sends succeeded; otherwise the stream closes, and two failed sends degrade the node |
| FollowerServer.Follower.HandleCommit | internal/replication/follower.go:387-397 | the in-place handler is the model's handling of a commit |
| FollowerServer.Follower.HandleCompact | internal/replication/follower.go:401-433 | the model's handling of a compact message, persisted and taken, or nothing changes |
| FollowerServer.Follower.ExecuteStarted | internal/replication/follower.go:412-430 | the model's execution of any one of the compactions started; it adds or removes no row |
| FollowerServer.Follower.ProcessStream | internal/replication/follower.go:246-287 | the messages that took effect leave the replica of the model after draining them, whichever call fails; with all calls succeeding it ends exactly where the model's replica does; one receipt per record, in order; the last compaction revision told is kept |
| FollowerServer.RevisionAt | internal/replication/follower.go:353-382 | the receipt of each record message comes after those of the record messages before it, and of no others |
| FollowerServer.LastCompactionExact | internal/replication/follower.go:304-433 | the compaction revision kept is that of the last message that carries one, or the one from before |
| Durability.TermBegins | internal/primary/follow.go:80-88 | a term that starts with fresh sessions and nothing sent satisfies the invariant below |
| Durability.StepKeepsDurInv | internal/primary/server.go:368-377 | every event keeps: whoever has receipted the write in flight and was clean when it began stores its row |
| Durability.SyncAckDurable | internal/primary/leader_txn.go:194-230 | an acknowledged synchronous write is a new chunk equal to the committed row; at every later moment of the term storage holds its chunk, or a snapshot at or above it with the row as written or erased |
| Completion.CountedHoldsIff | internal/primary/server.go:368-377 | a replica is counted only with the row stored, in every course the write can take, if and only if, when the write began, no receipt of another row of the revision was under way from it and it would read no other row of the revision before the error that ends its queue |
| Completion.AckHoldsIff | internal/primary/leader_txn.go:238-290 | where enough replicas can receipt, every completion leaves every counted replica with the row if and only if that was so of every replica |
| Completion.UncleanCompletion | internal/primary/leader_txn.go:238-290 | whichever replica it was not so of, some completion counts it without the row |
| Completion.AllCounted | internal/primary/quorum.go:83-96 | any replicas that can still receipt are all counted, or enough others are first |
| Retention.AckedInTerm | internal/primary/follow.go:80-88 | every acknowledged quorum write of a run from the start of a term is one the next results speak of |
| Retention.RunKeeps | internal/localdb/replicate.go:203-228 | over the rest of the term, compactions and reconnects included, a replica keeps a committed row, erased at most, and takes no other in its place, once it will read no other |
| Retention.FreshIsAllClean | internal/primary/leader_txn.go:238-248 | for a revision not broadcast before in the term, no other row is under way anywhere |
| Retention.QuorumAckDurable | internal/primary/leader_txn.go:238-290 | with no other row of the revision under way at its beginning, an acknowledged write is, at every later moment of the term, on the Primary and on at least the required distinct replicas, its value erased at most; where none stored another row of the revision, none ever does |
| Survival.ValueIntactIff | internal/localdb/compaction.go:89-96 | wherever a write of a new revision is stored at any later moment of the term, its value is intact if and only if no compaction at or above it was executed there while a newer row of its key, a rolled-back one included, was stored, or it is a tombstone |
| Survival.PrimaryValueIntactIff | internal/localdb/compaction.go:89-96 | the same of the Primary |
| Scenarios.StaleReceiptAcked | internal/primary/server.go:368-377 | a run from the start of a term: a rolled-back write's receipt acknowledges the next write of its revision, and the counted replica does not hold it |
| Election.CollectNodeStates | internal/elector/primary_election.go:273-376 | heartbeats with quorum disabled; otherwise each answer there is, once and in order, if all nodes under static or a strict majority under majority quorum answered |
| Election.FindActivePrimary | internal/elector/primary_election.go:423-445 | a node if and only if exactly one position reports Active, and then that one |
| Election.CheckNonReplicaStates | internal/elector/primary_election.go:450-461 | names a non-degraded node that is not a replica exactly when there is one |
| Election.Winner | internal/elector/primary_election.go:122-143 | a healthy candidate no healthy one is sorted before, none exactly when none is healthy |
| Election.CheckPreviousPrimary | internal/elector/primary_election.go:160-267 | the election may go on exactly when no previous Primary is known, it is a replica, or nothing was settled before the timeout |
| Election.ElectPrimaryOnce | internal/elector/primary_election.go:103-144 | the whole decision with each of its refusals, the previous Primary's first; a single Active node among those that answered is elected whatever its health and head |
| Election.Decide | internal/elector/primary_election.go:116-143 | without a single Active node, one neither degraded nor a replica stops the election; the winner is healthy, none has a higher head, and none of the same head started later |
| Election.MajoritiesMeet | internal/elector/primary_election.go:366-373 | two strict majorities of the nodes share a node |
| Election.WinnerReachesIff | internal/elector/primary_election.go:126-143 | the winner's latest revision reaches r if and only if a contacted healthy node's does |
| Election.ElectedReachesQuorumWrites | internal/elector/primary_election.go:103-144 | a healthy contacted majority without an Active node elects a node at or above every revision stored on the Primary and floor(N/2) replicas |
| Election.CanWinIff | internal/elector/primary_election.go:126-143 | a node can be elected by a healthy majority if and only if a strict majority has no higher head |
| Election.WinnersAmongIff | internal/elector/primary_election.go:131-143 | whatever is asked of a winner, all meet it if and only if every node that can win does |
| Election.DegradedHolderLoses | internal/elector/primary_election.go:464-472 | a majority whose only holder is degraded elects a node below the revision |
| Failover.MajorityStores | internal/primary/quorum.go:31-44 | a write acknowledged under majority quorum, clean at its beginning, is stored on a strict majority at every later moment of the term, its value erased at most |
| Failover.AckedWriteReachesNextPrimary | internal/primary/quorum.go:31-44 | so every election by a healthy majority at any later moment gives a winner at or above it |
| Failover.AckedRecordSurvivesIff | internal/elector/primary_election.go:126-143 | with gap-free databases every winner stores the acknowledged record, erased or not, if and only if no replica that can win stores another in its place |
| Failover.AckedValueSurvivesIff | internal/elector/primary_election.go:126-143 | and with its value, for a revision new everywhere, if and only if no compaction at or above it ran on a node that can win while a newer row of its key was stored there, or it is a tombstone |
| Failover.AckedRecordOnNextPrimary | internal/elector/primary_election.go:103-144 | from the start of a term, through any run, a quorum write of a revision not broadcast before that no replica stored, any later run and any such election: the winner stores the acknowledged record, erased at most |
| Scenarios.RolledBackRowWins | internal/elector/primary_election.go:131-143 | a run of three nodes in which a write is acknowledged by a majority and the election after it is won with a different, rolled-back row of that revision |
| ErasedLive.LiveValueErased | internal/localdb/compaction.go:89-96 | a run of two nodes in which an acknowledged value, live at the Primary, is erased on the replica beside a rolled-back row whose revision is then reused, and the replica wins and reads it as empty |
| Failover.InStepGapFree | internal/replication/follower.go:336-397 | the database of a follower in step has no gap |
| Failover.InStepReplicasCompleteWrite | internal/primary/leader_txn.go:238-290 | any replicas in step that are sent the record complete the write, if they are as many as it needs |
| WatchFloor.RunKeepsFloor | internal/watch/manager.go:266-286 | every interleaving of floor changes, creations, cancels, registrations and clean-ups keeps: a scanned watcher has no watch, active or being admitted, below a floor not lowered since |
| WatchFloor.SucceededFloorHolds | internal/watch/watcher.go:275-309 | once a change has succeeded, and as long as the floor has stayed at most one below it, every active watch starts at 0 or at or above its revision |
| WatchFloor.StepKeepsGrants | internal/watch/manager.go:266-286 | changes that neither overlap nor start below the floor never take back a granted floor, not even by rolling back |
| WatchFloor.OrderlyFloorHolds | internal/watch/manager.go:266-286 | so then every success is for good |
| GrantedFloor.SafeHereIff | internal/watch/watcher.go:275-309 | at one moment, creations, cancels, registrations and clean-ups cannot put a watch below a granted revision if and only if the floor is at most one below it, wherever a watch could be created at all |
| GrantedFloor.GrantHoldsIff | internal/watch/manager.go:266-286 | over every run, overlapping changes included, they can at no moment if and only if that is so at every moment |
| GrantedFloor.ChangeHoldsIff | internal/watch/manager.go:266-286 | the same for the whole life of any change in any run from the start |
| WatchFloor.LateRollbackLowersFloor | internal/watch/manager.go:266-286 | a run with two overlapping notices ends with a granted floor and an active watch below it |
| CompactionNotice.PersistedFloorHolds | internal/primary/compaction.go:131-196 | in every run, once the Primary has persisted the revision every listed node has granted it, and has no active watch below it unless its floor was lowered |
| CompactionNotice.PersistedFloorHoldsIff | internal/primary/compaction.go:131-196 | from then on no listed node can come to have one if and only if it has none now and its floor is at most one below the revision whenever a watch could be created |
| CompactionNotice.OrderlyPersistedFloorHolds | internal/primary/compaction.go:131-196 | with one notice at a time per node and none lowering the floor, no listed node has one |
| CompactionNotice.Scheduler.RunCompactionCycle | internal/primary/compaction.go:48-123 | one below the least watch revision over all listed nodes is proposed, if every node answered and it is positive and new; otherwise nothing changes |
| CompactionNotice.Scheduler.SendNotice | internal/primary/compaction.go:136-160 | at most two notices, confirmed if either is |
| CompactionNotice.Scheduler.SendRestores | internal/primary/compaction.go:171-181 | each confirmed node is sent the previous revision once, in order, after all that was sent before |
| CompactionNotice.Scheduler.RunCompactionProtocol | internal/primary/compaction.go:131-208 | persisted, broadcast and executed exactly when every node confirmed and the database took it; otherwise the notices stop at the first that did not and those before it are sent the previous revision |
| CompactionNotice.RoundExact | internal/primary/compaction.go:131-181 | position by position: the nodes are sent the revision in turn, a second time where the first attempt failed, up to the first that confirms neither; then each before it the previous revision |
| WatchManager.CoversIffMatch | internal/watch/manager.go:92-135 | the match test: not before the start, not filtered out, and in the interval, for every range the test is faithful to |
| WatchManager.Offer | internal/watch/manager.go:124-158 | each matching watch is queued the record once in some order; overflow exactly when they need more room than the inbox has |
| WatchManager.OfferKeepsStep | internal/watch/manager.go:122-169 | an open stream has been queued exactly what its watches were due; one that overflowed is closed with a prefix of it |
| WatchManager.Manager.Register | internal/watch/manager.go:59-65 | a new stream without watches |
| WatchManager.Manager.Distribute | internal/watch/manager.go:76-169 | on a stream that stays open each watch that covers the record gains one event, with the previous record exactly if it asked for it, and no other watch gains any; a stream stays open exactly if its inbox has the room; so every open stream has been queued exactly what its watches were due; a watch of an empty key that comes to look at the record ends the process instead |
| WatchManager.Manager.CreateWatch | internal/watch/watcher.go:155-321 | a watch is admitted exactly when its start is 0 or above compaction and both readings of the floor, its revision is readable or in the future, it asks for no ID and the stream is open; every field of it is the request's; it stays exactly if its acknowledgement is sent; a refusal for compaction names a revision at or above the start |
| WatchManager.Manager.AddWatch | internal/watch/watcher.go:275-321 | the watch is stored under an unused ID, and ends again if it cannot be acknowledged |
| WatchManager.EmptyKeyPanics | internal/watch/watcher.go:470-482 | a watch of an empty key is admitted and the first record ends the distribution |
| WatchManager.Manager.CancelWatch | internal/watch/watcher.go:328-357 | the watch ends having been queued all it was due |
| WatchManager.Manager.Cleanup | internal/watch/watcher.go:123-147 | all watches end and the stream closes, once |
| WatchManager.Manager.ReportProgress | internal/watch/watcher.go:369-441 | one message for all watches if all want progress, otherwise one each for those that do, as many as fit; none displaces an event |
| WatchManager.Manager.MinWatchRevision | internal/watch/manager.go:240-255 | the least start of any active watch, -1 exactly without one |
| WatchManager.Manager.SetWatchAdmissionFloor | internal/watch/manager.go:266-286 | succeeds exactly when no active watch starts strictly between 0 and the revision; otherwise the floor is as before |
| ObjectKeys.KeysRoundTrip | internal/datastore/datastore.go:20-31 | for every revision from 0 to 2^63-1 the chunk key and the snapshot key parse back to it |
| ObjectKeys.KeysInjective | internal/datastore/chunks.go:59-65 | different revisions have different keys, and no chunk key is a snapshot key |
| ChunkBuffer.ObjectStore.PutIfMatch | internal/storage/memory.go:55-71 | a conditional create changes the store exactly when the key was free and the request arrived |
| ChunkBuffer.ObjectStore.PutIfAbsent | internal/storage/storage.go:69-86 | succeeds exactly when it created the object or found identical contents |
| ChunkBuffer.Buffer.Append | internal/primary/chunk_buffer.go:73-92 | the record joins the buffer whether or not its key is taken, the byte count is the sum of the sizes, full exactly at the threshold |
| ChunkBuffer.Buffer.StartFlush | internal/primary/chunk_buffer.go:128-138 | starts exactly when there is something to flush and no flush is under way |
| ChunkBuffer.Buffer.Upload | internal/primary/chunk_buffer.go:156-162 | with no upload in doubt its key, the batch's last revision, is new; on a taken key it succeeds only with identical contents |
| ChunkBuffer.Buffer.FinishFlush | internal/primary/chunk_buffer.go:167-182 | acknowledged files in order followed by the buffer stay everything ever buffered; the byte count stays exact, so its clamp never acts |
| ChunkBuffer.Buffer.Flush | internal/primary/chunk_buffer.go:128-218 | succeeds exactly when the request is answered and the batch's key is free, as it is with no upload in doubt, or holds identical contents; then the buffer is emptied into one file, otherwise buffer and acknowledged files are unchanged |
| ChunkBuffer.RetryRefused | internal/primary/chunk_buffer.go:128-218 | an upload stored without an answer is refused on retry, and its record stays buffered |
| ChunkBuffer.TakenKeyWaits | internal/primary/chunk_buffer.go:128-218 | a record whose key is taken by another file is refused alone and flushed with the next record |
| ChunkBuffer.Buffer.BufferRecord | internal/primary/chunk_buffer.go:73-106 | the record is in the buffer or in an acknowledged file, whatever the flush does; a failed flush of a full buffer drains the Primary |
| ChunkBuffer.Buffer.SyncChunk | internal/primary/write_record.go:23-54 | a synchronous chunk of a later revision takes no buffered record's key, and is refused where its own is taken |
| Imports.ReplayIff | internal/datastore/download.go:94-103 | replaying a file of log rows, erased or not, into a part of the log succeeds if and only if no record differs from the copy that is there; a refused file leaves exactly the records before the first that does |
| Imports.ImportFile | internal/datastore/download.go:69-119 | the loop stops at the first refused record, with the rows before it stored |
| Imports.ImportOnto | internal/datastore/download.go:69-119 | a file joins what the files before it left, or holds a copy that differs from one of theirs |
| Imports.RowsFromLog | internal/localdb/find.go:350-373 | the rows between two revisions, none missing and none else, in order |
| Preflight.RowsInOrder | internal/localdb/find.go:364-373 | in a gap-free table they are one per revision, ascending |
| Restore.ListFiles | internal/datastore/chunks.go:68-115 | exactly the files of the kind whose name carries a revision in the bounds, oldest first |
| Restore.GetLatestSnapshot | internal/datastore/snapshots.go:29-69 | the snapshot with the highest revision, none exactly without one |
| Restore.ThinnedCovers | internal/snapshot/worker.go:273-291 | with a snapshot at U, deleting any of the chunks up to U loses no revision |
| Restore.DeleteChunks | internal/snapshot/worker.go:273-291 | exactly the chunks up to U go, but those whose delete fails |
| Restore.CreateSnapshot | internal/snapshot/worker.go:201-297 | from a database with any rows erased, however upload and deletes end, no revision loses coverage, all files still hold rows of the log as written or erased, and only the snapshot is new |
| Restore.BackfillChunks | internal/bootstrap/backfill.go:53-91 | succeeds if and only if no later chunk fails to download and no copy of a record differs; then every row of every one joins the database |
| Restore.Rebuild | internal/bootstrap/backfill.go:22-91 | newest snapshot, then later chunks in order, into an empty database: succeeds if and only if all can be downloaded and no two hold different copies of a record, and then gives the whole log, row for row what the files hold |
| Restore.RebuildRefused | internal/localdb/replicate.go:164-182 | a snapshot taken after an erasure and a later flush of the same rows refuse every rebuild |
| Preflight.GapFreeStarts | internal/primary/preflight.go:100-229 | a gap-free database of rows of the log, erased or not, with files covering all they name, is a proper start |
| Preflight.ImportKeepsProgress | internal/primary/preflight.go:126-154 | importing the next chunk, or the part before its download broke off, keeps every missing row in a chunk above the database's highest revision |
| Preflight.Starting.ImportChunks | internal/primary/preflight.go:116-154 | all chunks imported makes the database the whole log, erased or not, keeping its own rows and gaining exactly those of the chunks above its head, and finds the highest revision storage names; undisturbed it fails exactly when a copy in a chunk above the head differs |
| Preflight.Starting.UploadRecords | internal/primary/preflight.go:177-197 | rows above it become chunks in order, each holding the database's own row; wherever it stops storage covers a range without a gap, and no file it had is changed |
| Preflight.Starting.TakeCompaction | internal/primary/preflight.go:199-211 | the highest persisted compaction revision, or else the one derived from the rows, then persisted |
| Preflight.Starting.RunPreflightPass | internal/primary/preflight.go:100-229 | success: database and storage hold exactly 1..L, rows as written or erased, committed revision L, next revision L + 1, the compaction revision taken, with the initial record in an empty cluster; failure: counters untouched and the pass can be repeated; either way no file changes, and each new one holds one row of the database; undisturbed it succeeds if and only if the database is not behind a snapshot and no chunk above its head holds a copy that differs from its own or another chunk's |
| Preflight.PassRefused | internal/primary/preflight.go:126-154 | a chunk that straddles the head with a row the database has since erased refuses every pass |
| Members.AllocateMemberId | internal/discovery/members.go:59-67 | one above the highest assigned ID, in 64-bit arithmetic |
| Members.NextFreshIff | internal/discovery/members.go:59-67 | the new ID is unused if and only if it has not wrapped round to a used 0 |
| Members.StepKeepsInv | internal/elector/server.go:306-337 | every read, write, lost answer and retry of any registrar keeps the IDs exactly 1..n, and assigned ones unchanged |
| Members.RegistrationSafe | internal/elector/server.go:306-337 | in every interleaving no two nodes share an ID, no assigned ID changes and every returned ID is in the file |
| Members.MembersFile.AllocateOrReuseMemberId | internal/elector/server.go:306-337 | returns the ID in the file, an existing one without writing; with storage answering it fails exactly after five overtaken attempts; however it fails, IDs stay dense and assigned ones unchanged |

## Left out

- gRPC servers, TLS, configuration, command wiring, metrics and logging: plumbing.
- SQLite, the S3 and GCS clients, zstd, protobuf encoding and CRC64 are taken by their contracts; a data file is its record list and creation stamp.
- `replicated_at` and `crc` are local stamps and not fields of the model's record; a NULL value reads back as empty bytes.
- Primary-side watch order: a client handler distributes after the write gate is released, so concurrent writes need not reach watchers in order there; deliveries are proved for followers.
- Timers, health checks, lag and the elector's guard window are outcomes chosen by the environment.
- The Primary's compaction waits for an open SQLite transaction, so it is not an event while a quorum write is in flight.
- Lease stubs, member list and status handlers, and snapshot thresholds would only add easy members.
- Following.FollowerExact: assumes that the stream stays open and drops no record and no commit; a full follow buffer drops messages and a reconnect does not backfill.
- Completion.CountedHoldsIff: for a replica that stores another row of the revision when it comes to read one; one that is refused by the unique index ends the queue and may never be counted.
- Completion.AckHoldsIff: the same, with enough replicas able to receipt for some completion to exist.
- Retention.QuorumAckDurable: a replica may connect again but its database is not replaced within the term.
- Survival.ValueIntactIff: for a revision not broadcast before in the term and not stored on that replica when the write began; a second copy of the record could restore an erased value.
- Failover.AckedRecordSurvivesIff: for databases without a gap, as those of followers in step are; a reconnect does not backfill, so the revision alone is proved of others.
- Ranges.RangeStream: takes the key filter as an arbitrary predicate, so SQL LIKE in the prefix branch is not modelled, and does not model descending order.
- Preflight.Starting.RunPreflightPass: a chunk at or below the database's highest revision is skipped unread, so whether its copies differ is not found out.
- WatchManager.Manager.Distribute: one distribution at a time; the moment between an overflow and the closing of its stream is not split.
- Members.RegistrationSafe: for fewer than 2^64 - 1 members; NextFreshIff says what happens beyond.
- Election.Winner: the in-place sort is modelled by the choice of its first element.
