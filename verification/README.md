# FoldMind core: a Dafny verification of its indexing, projection and workflow logic

FoldMind keeps documents and folders in PostgreSQL tables, announces every change through an outbox,
and projects the events into a vector store, a ledger and a property graph. This project models the
parts of it whose correctness spans many operations, in Dafny 4.11, and proves what they promise.

| file | what it models |
|---|---|
| `FolderGraph.dfy` | the recursive ancestor and subtree queries over arbitrary parent pointers |
| `FolderDigests.dfy`, `FolderDigestInputs.dfy`, `FolderFrames.dfy` | the tables, the reference digests, what they depend on, and which folders a change can affect |
| `IndexingSteps.dfy`, `IndexingSession.dfy`, `IndexingLimits.dfy` | the indexing transactions: what each does, how, row by row, and where their conditions are needed |
| `IndexingOutcomes.dfy` | what each transaction leaves in the tables, told by paths and rows: staleness, memberships, touched folders |
| `Outbox.dfy`, `ChunkProjection.dfy`, `ChunkProjector.dfy` | events and idempotency keys; the path of a document to the chunk store as a state machine with crashes; the service that takes its steps |
| `IndexingProjection.dfy`, `IndexingAnnouncements.dfy`, `IndexingFolderEvents.dfy` | the transactions together with the worker: the chunk store follows the tables; what the log says of folder digests, memberships and folders |
| `SignalProjection.dfy` | signal vectors of documents and folders in one collection, with their ledger |
| `DocumentIndexedEvents.dfy` | producer and consumer of the document event |
| `ModelCodec.dfy` | the type-directed JSON codec of checkpoints |
| `GraphProjection.dfy`, `GraphOutcomes.dfy`, `GraphHistory.dfy`, `GraphSession.dfy` | the graph of documents, folders and signals, what each command and each run leaves in it, and the statements that rewrite it |
| `Workflow.dfy`, `WorkflowEngine.dfy` | planning, steps, retries, waiting, replanning, and the job trace |
| `OutboxWorker.dfy` | one worker: dispatch, retry, dead letter, commit |
| `KeywordRanking.dfy`, `DocumentChunker.dfy`, `ContextFormatter.dfy` | keyword ranking, overlapping chunks, budgeted context |
| `Text.dfy`, `Common.dfy` | text order, sorting and stripping; optional values and results |

Where the source changes state, a class with the same fields carries out the operation and is proved
against a function of the old state; the theorems are lemmas about those functions. Automatic
induction is switched off on every lemma, so that each proof is the one that is written down.
`dafny verify dfyconfig.toml` checks everything.

## What the proofs found

Some promises hold only under a condition. Each of these is stated as an if-and-only-if over a
condition a caller can check, with a concrete counterexample where one is needed.

- Storing folder signals writes the generation version, an input of the folder's digest, without
  recomputing that digest. Digests stay current exactly when the command is rejected or its version is
  the one in use (`IndexingSteps.ReplaceFolderSignalsDigests`, `IndexingLimits.NewVersionLeavesDigestStale`).
- Storing folder signals compares the digest, but not the rows: a row of another folder, under another
  digest, or about a deleted document is stored as well. Stored signals stay current, and stay about
  active documents, exactly under conditions on the rows (`IndexingSteps.ReplaceFolderSignalsConsistent`,
  `IndexingSteps.ReplaceFolderSignalsRelated`; failing runs in `IndexingLimits`). Signals that are
  generated from the digest they are stored under meet them
  (`IndexingSteps.GeneratedSignalsNeverOutliveInputs`).
- An invalidation or a relation snapshot that repeats an earlier event is dropped by its idempotency key.
  A folder that returns to an earlier digest is therefore not announced, nor is a document that returns to
  earlier folders under one version. The exact conditions are `IndexingAnnouncements.TransactionAnnounces`
  and `IndexingAnnouncements.FoldersSpoken`, the runs `IndexingAnnouncements.EarlierDigestIsLost` and
  `IndexingAnnouncements.EarlierFoldersAreLost`.
- A source version that is sent again after its own deletion meets its earlier event's idempotency
  key, so its append is dropped: the tables say active, the vector store stays empty
  (`ChunkProjection.SyncedUnlessResent`, `ChunkProjection.ResentVersionIsLost`). The same happens to
  folders (`IndexingFolderEvents.LostIfResent`, `IndexingFolderEvents.ResentFolderIsLost`).
- The signal ledger is keyed by signal id, the store by signal id and vector input. They agree exactly
  when a command has one vector input per signal id (`SignalProjection.ProjectedAgree`,
  `SignalProjection.RepeatedIdDisagrees`). The signal extractor refuses repeated ids
  (`src/foldmind_ai_core/core/application/agents/document_signal_extractor_agent.py:140-144`).
- Replacing signals in the graph is not idempotent when a signal id is taken over from another owner:
  the first application keeps the old owner's edge, the second drops it (`GraphProjection.ApplyTwice`,
  `GraphProjection.TakingOverIsNotIdempotent`). The ids the signal services derive contain the owner, so
  the counterexample lies outside them; with ids that determine their owner every command is idempotent
  in every reachable graph (`GraphProjection.DerivedCommandsAreIdempotent`).
- The codec restores a value exactly when no dictionary in it holds both reserved keys
  (`ModelCodec.RoundTrip`), and the consumer restores an event exactly when its texts are trimmed and
  not blank (`DocumentIndexedEvents.EventRoundTrip`).
- New jobs stay unique exactly when no job of the round is there yet (`Workflow.PreparedJobsUnique`).
  A new run of a task restarts at round 0 with the old jobs kept, so uniqueness holds per run only.
- The `truncated` flag is false exactly when the complete rendering with the flag false fits, which is
  one character longer than with the flag true (`ContextFormatter.FormatUntrustedContext`).

## Model

| member | source | states |
|---|---|---|
| FolderGraph.AncestorsAreReachable | src/foldmind_ai_core/adapters/outbound/postgres/store/folder_source_store.py:86-115 | the ancestor query returns exactly the folders that a path of parent pointers through active folders reaches from one of the ids, for arbitrary pointers (cycles, self-parents, dangling or deleted parents) |
| FolderGraph.SubtreeIsReachable | src/foldmind_ai_core/adapters/outbound/postgres/store/folder_source_store.py:117-143 | the subtree query returns exactly the folders from which such a path reaches the root |
| FolderGraph.AncestorsTransposeSubtree | src/foldmind_ai_core/adapters/outbound/postgres/store/folder_source_store.py:86-143 | the two recursive queries are transposes of each other |
| FolderGraph.UpsertKeepsSubtree | src/foldmind_ai_core/core/application/services/indexing/folder_indexing_service.py:113-136 | a folder that neither the upserted folder nor its previous parent reaches after the write has the same subtree before and after |
| FolderGraph.DeleteKeepsSubtree | src/foldmind_ai_core/core/application/services/indexing/folder_indexing_service.py:138-164 | deactivating a folder changes the subtree of its ancestors only |
| FolderFrames.MoveInvalidatesEnough | src/foldmind_ai_core/core/application/services/indexing/folder_indexing_service.py:113-136 | every folder whose subtree documents differ before and after an upsert (a move, a creation or a reactivation) is in the affected set, although the old parent's ancestors are read after the write |
| FolderFrames.FolderUpsertFrame | src/foldmind_ai_core/core/application/services/indexing/folder_indexing_service.py:79-136 | outside the affected set, every active folder keeps all inputs of both its digests across a folder upsert |
| FolderFrames.FolderDeleteFrame | src/foldmind_ai_core/core/application/services/indexing/folder_indexing_service.py:138-164 | outside the ancestors of a deleted folder, every active folder keeps all inputs of both its digests |
| FolderFrames.DocumentChangeFrame | src/foldmind_ai_core/core/application/services/indexing/document_indexing_service.py:179-227 | outside the ancestors of the old and new folders of a document, every active folder keeps all inputs of its digests when that document or its memberships change |
| FolderDigests.InvalidationKeeps | src/foldmind_ai_core/core/application/services/indexing/folder_signal_invalidation_service.py:78-111 | recomputing only the invalidated folders keeps every stored digest equal to the one recomputed from scratch, provided the others kept their inputs; no folder signal outlives its input |
| IndexingSteps.IndexFolderKeeps | src/foldmind_ai_core/core/application/services/indexing/folder_indexing_service.py:79-111 | indexing, moving or reactivating a folder, or rejecting a stale command, keeps both invariants of the database |
| IndexingSteps.DeleteFolderKeeps | src/foldmind_ai_core/core/application/services/indexing/folder_indexing_service.py:138-175 | deleting a folder keeps both invariants |
| IndexingSteps.IndexDocumentKeeps | src/foldmind_ai_core/core/application/services/indexing/document_indexing_service.py:71-177 | indexing a document (with text or empty, with or without a relation snapshot, accepted or stale) keeps both invariants |
| IndexingSteps.DeleteDocumentKeeps | src/foldmind_ai_core/core/application/services/indexing/document_indexing_service.py:229-275 | deleting a document keeps both invariants |
| IndexingSteps.NoSignalRefersToDeleted | src/foldmind_ai_core/core/application/services/indexing/document_indexing_service.py:239-268 | right after an active document is deleted, no stored folder signal is about it; what later states need is the three members below |
| IndexingSteps.IndexDocumentKeepsRelated | src/foldmind_ai_core/core/application/services/indexing/document_indexing_service.py:71-177 | if every stored signal that is about a document is about an active one, indexing keeps it so, also for a document without text, which is deleted along with the signals about it |
| IndexingSteps.DeleteDocumentKeepsRelated | src/foldmind_ai_core/core/application/services/indexing/document_indexing_service.py:229-275 | deleting a document keeps it so |
| IndexingSteps.ReplaceFolderSignalsRelated | src/foldmind_ai_core/adapters/outbound/postgres/repository/folder_projection_repository.py:106-143 | storing signals keeps it so if and only if the command is rejected or each of its signals is about an active document at that moment, if about any |
| IndexingSteps.ReplaceFolderSignalsConsistent | src/foldmind_ai_core/adapters/outbound/postgres/repository/folder_projection_repository.py:106-143 | every stored signal stays current (its folder active, ready, under the digest it carries, its document of the tenant) if and only if the command is rejected, or each row of the folder carries the expected digest and is about a document of the tenant, and each row of another folder is current there already: the repository compares the digest, not the rows |
| IndexingSteps.MembersAreActive | src/foldmind_ai_core/core/domain/services/folder_projection_digest_service.py:43-80 | while digests are current, whatever document a folder's digest lists is active and in the folder's active subtree |
| IndexingSteps.OwnSignalsFit | src/foldmind_ai_core/adapters/outbound/postgres/repository/folder_projection_repository.py:106-143 | signals generated from the current digest, of the folder and about members of that digest, meet both conditions on stored rows |
| IndexingSteps.ReplaceFolderSignalsDigests | src/foldmind_ai_core/adapters/outbound/postgres/store/folder_index_record_store.py:95-116 | storing folder signals keeps every digest equal to its recomputation if and only if the command is rejected or its generation version is the one in use |
| IndexingSteps.RunKeeps | src/foldmind_ai_core/core/application/services/indexing/document_indexing_service.py:133-275 | over every run of the five kinds of transaction from any consistent database: stored signals stay current if those stored fit; digests stay current if also no generation version is changed; signals stay about active documents if also those stored are |
| IndexingSteps.ApplyKeeps | src/foldmind_ai_core/core/application/services/indexing/folder_signal_invalidation_service.py:24-111 | each of the five transactions keeps each of the three invariants exactly when, if it stores signals, these meet the condition of that invariant |
| IndexingSteps.ReachableStatesAreCurrent | src/foldmind_ai_core/core/application/services/indexing/folder_signal_invalidation_service.py:24-111 | the same for every state reachable from the empty database: under which conditions on stored signals no signal outlives its input, every digest equals the one recomputed over the active subtree's active documents, and no signal is about a deleted document |
| IndexingSteps.GeneratedSignalsNeverOutliveInputs | src/foldmind_ai_core/core/application/services/indexing/folder_signal_invalidation_service.py:24-111 | with signals as they are generated (of their folder, from its digest, about members of it, under the version in use), all three hold in every reachable state, whatever happens to documents and folders in between |
| FolderDigestInputs.UnderIsReaches | src/foldmind_ai_core/adapters/outbound/postgres/store/folder_source_store.py:117-143 | reachability is a path of folder rows, each active in the tenant and pointing at the next |
| FolderDigestInputs.SignalDigestDetermines | src/foldmind_ai_core/core/domain/services/folder_projection_digest_service.py:43-80 | the digests of a folder in two states are equal if and only if the generation versions, the folder's own row, the active documents in the folders below it, their contents, and their index and signal digests are all the same |
| FolderDigestInputs.StoredDigestFollowsInputs | src/foldmind_ai_core/core/application/services/indexing/folder_signal_invalidation_service.py:78-111 | across any transaction, the stored digest of an active folder changes if and only if its row, its subtree's documents, their contents or their index records do |
| FolderDigestInputs.OutdatedSignalsAreRejected | src/foldmind_ai_core/adapters/outbound/postgres/repository/folder_projection_repository.py:122-134 | signals generated from the digest before a transaction are expected after it if and only if nothing they were generated from changed; otherwise storing them changes nothing, and the folder is pending without signals |
| FolderDigestInputs.EditedDocumentIsNoticed | src/foldmind_ai_core/core/application/services/indexing/document_indexing_service.py:133-227 | an accepted command with another content, index or signal digest for a document of a folder's subtree changes that folder's digest, whatever it does to memberships |
| FolderDigestInputs.DeletedDocumentIsNoticed | src/foldmind_ai_core/core/application/services/indexing/document_indexing_service.py:229-275 | so does deleting the document, or sending it without text |
| IndexingOutcomes.FolderAsSent | src/foldmind_ai_core/adapters/outbound/postgres/store/folder_source_store.py:211-247 | a folder command changes nothing and announces nothing if the folder is stored under another version updated at the same time or later; any other stores exactly the row sent, and announces it first |
| IndexingOutcomes.DocumentAsSent | src/foldmind_ai_core/adapters/outbound/postgres/store/document_source_store.py:226-262 | the same for documents; one without text is stored as deleted |
| IndexingOutcomes.UpdatesGoForward | src/foldmind_ai_core/adapters/outbound/postgres/store/folder_source_store.py:226-229 | a stored folder or document is never updated to an earlier time, except by sending its stored version again |
| IndexingOutcomes.SupersededNeverReturns | src/foldmind_ai_core/adapters/outbound/postgres/store/folder_source_store.py:226-229 | over every run in which versions have one time each, a folder or document version that another one replaced never becomes the stored one again |
| IndexingOutcomes.MembershipStep | src/foldmind_ai_core/core/application/services/indexing/document_indexing_service.py:179-201 | after any transaction a document is in a folder if and only if the command put it there by an id that is the folder once stripped, or it was there and the command neither deletes it nor carries a list: without a list it stays where it was, and other documents stay anyway |
| IndexingOutcomes.MembershipsOfRun | src/foldmind_ai_core/core/application/services/indexing/document_indexing_service.py:179-201 | after every run, a document is in exactly the folders its last accepted list named, if it was not deleted or sent without text since |
| IndexingOutcomes.TouchedFolders | src/foldmind_ai_core/core/application/services/indexing/folder_signal_invalidation_service.py:78-111 | a command leaves without signals and pending exactly the folders above the ones it is about (told by paths of rows), and leaves signals and records of all others alone |
| IndexingOutcomes.SignalsAsSent | src/foldmind_ai_core/adapters/outbound/postgres/repository/folder_projection_repository.py:106-143 | accepted signals replace those of their folder and make it ready under their version, and nothing else changes |
| IndexingOutcomes.DeletionNamesTouched | src/foldmind_ai_core/core/application/services/indexing/document_indexing_service.py:239-268 | the deletion event names exactly the touched folders, each once and in order |
| IndexingOutcomes.InvalidationsInOrder | src/foldmind_ai_core/core/application/services/indexing/folder_signal_invalidation_service.py:92-111 | the invalidations of a transaction come in the order of the folder ids |
| Outbox.DeletionKeys | src/foldmind_ai_core/core/application/mappers/outbox_events.py:170-190 | a deletion, of a document or a folder, is dropped if and only if the log has a deletion of the same tenant, id and version |
| IndexingFolderEvents.TransactionTellsFolders | src/foldmind_ai_core/core/application/services/indexing/folder_indexing_service.py:48-77 | if the log ends with what the row of each folder says, it does so after a transaction if and only if the transaction's own folder event is not lost |
| IndexingFolderEvents.FolderDeletionSaid | src/foldmind_ai_core/core/application/mappers/outbox_events.py:170-190 | an applied deletion is the last word on its folder if and only if that version was not deleted before |
| IndexingFolderEvents.FolderIndexSaid | src/foldmind_ai_core/core/application/mappers/outbox_events.py:120-132 | an accepted folder is the last word, unless the log has its event already and another one since |
| IndexingFolderEvents.LostIfResent | src/foldmind_ai_core/adapters/outbound/postgres/store/outbox_store.py:13-32 | when versions determine what they send, the folder event that is lost is exactly that of a version sent again after its own deletion |
| IndexingFolderEvents.LogFollowsFolders | src/foldmind_ai_core/core/application/services/indexing/folder_indexing_service.py:48-77 | over every run without such a command, the log ends with the content of each active folder and the deletion of each deleted one |
| IndexingFolderEvents.ResentFolderIsLost | src/foldmind_ai_core/adapters/outbound/postgres/store/outbox_store.py:13-32 | index a folder, delete it, index it again: the tables say active, the log ends with its deletion |
| IndexingLimits.NewVersionLeavesDigestStale | src/foldmind_ai_core/adapters/outbound/postgres/store/folder_index_record_store.py:95-116 | a run from the empty database after which a stored digest differs from its recomputation |
| IndexingLimits.ForeignRowIsStored | src/foldmind_ai_core/adapters/outbound/postgres/mappers/document_signal.py:37-55 | a run in which a signal of another folder is stored although that folder is not ready |
| IndexingLimits.DeletedRelationIsAccepted | src/foldmind_ai_core/adapters/outbound/postgres/repository/folder_projection_repository.py:106-143 | in every consistent database, a signal about a deleted document of the tenant is accepted under the current digest and stored |
| IndexingLimits.SignalAboutDeletedIsStored | src/foldmind_ai_core/adapters/outbound/postgres/repository/folder_projection_repository.py:106-143 | a run from the empty database after which a stored signal is about a deleted document |
| IndexingSession.SignalInputDigest | src/foldmind_ai_core/core/domain/services/folder_projection_digest_service.py:43-80 | the digest lists every current document of the subtree once, in the order of the ids, whatever order the rows come in; what each entry says is FolderDigestInputs.SignalDigestDetermines |
| IndexingSession.CollectMembers | src/foldmind_ai_core/core/domain/services/folder_projection_digest_service.py:51-70 | the loop lists one member per document id, in order, with its content, index and signal digests |
| IndexingSession.Session.FolderIndexRecord | src/foldmind_ai_core/core/application/services/indexing/folder_signal_invalidation_service.py:24-76 | the record computed from the tables is the one the reference digests define |
| IndexingSession.Session.Invalidate | src/foldmind_ai_core/core/application/services/indexing/folder_signal_invalidation_service.py:78-111 | exactly the signals of the given folders are deleted, exactly their active records are recomputed, and one invalidation is announced for each of those, in the order of ids |
| IndexingSession.Session.InvalidateInOrder | src/foldmind_ai_core/core/application/services/indexing/folder_signal_invalidation_service.py:92-111 | the loop recomputes each folder over the same tables: earlier turns never influence later ones |
| IndexingSession.Session.UpsertFolderSource | src/foldmind_ai_core/adapters/outbound/postgres/store/folder_source_store.py:211-247 | the row is stored, and no other, unless another version updated at the same time or later is stored; the result says whether the row is current |
| IndexingSession.Session.ReplaceFolderIndex | src/foldmind_ai_core/core/application/services/indexing/folder_indexing_service.py:79-111 | carries out the folder upsert step and announces the invalidations, or nothing for a stale command |
| IndexingSession.Session.IndexFolder | src/foldmind_ai_core/core/application/services/indexing/folder_indexing_service.py:48-61 | a stale command changes no table and no event; any other stores the row, keeps the invariants, and appends the folder event and its invalidations |
| IndexingSession.Session.MarkFolderDeleted | src/foldmind_ai_core/core/application/services/indexing/folder_indexing_service.py:138-175 | signals, record and source row of the folder go, and its remaining ancestors are invalidated over the new tables |
| IndexingSession.Session.DeleteFolder | src/foldmind_ai_core/core/application/services/indexing/folder_indexing_service.py:63-77 | the transaction does the step, keeps the invariants, and appends the deletion and its invalidations exactly when the folder was active |
| IndexingSession.Session.UpsertDocumentSource | src/foldmind_ai_core/adapters/outbound/postgres/store/document_source_store.py:226-262 | the guarded upsert of a document row and whether it is current afterwards |
| IndexingSession.Session.ReplaceDocumentIndex | src/foldmind_ai_core/core/application/services/indexing/document_indexing_service.py:133-211 | carries out the document projection step with its relation snapshot and invalidations |
| IndexingSession.Session.IndexDocument | src/foldmind_ai_core/core/application/services/indexing/document_indexing_service.py:71-125 | a stale command changes no table and no event; any other keeps the invariants and appends its events, without a folder list leaving all memberships alone; a document without text is deleted instead |
| IndexingSession.Session.MarkDocumentDeleted | src/foldmind_ai_core/core/application/services/indexing/document_indexing_service.py:229-275 | the document's row, index record and memberships go, and the ancestors of its folders and of the folders whose signals refer to it are invalidated |
| IndexingSession.Session.DeleteDocument | src/foldmind_ai_core/core/application/services/indexing/document_indexing_service.py:127-131 | the transaction does the step and appends the deletion and its invalidations exactly when the document was active |
| IndexingSession.Session.ReplaceFolderSignals | src/foldmind_ai_core/adapters/outbound/postgres/repository/folder_projection_repository.py:106-143 | compare, mark ready, replace: the signals are stored exactly under the expected digest and the constraints of the tables, nothing changes otherwise, and each invariant is kept exactly under its condition on the rows |
| ChunkProjection.WorkerStepKeeps | src/foldmind_ai_core/core/application/services/projection/document_vector_projection_service.py:56-110 | every worker step (check, delete, upsert, ledger, commit, crash) keeps the invariant that ties the store to the log, whatever producers did in between |
| ChunkProjection.CheckKeeps | src/foldmind_ai_core/adapters/outbound/postgres/source_freshness_checker.py:46-65 | the freshness check never turns away the last event about a document: its rows still say the same |
| ChunkProjection.StoreStepIsLocal | src/foldmind_ai_core/adapters/outbound/qdrant/stores/document_chunk_vector_store.py:34-83 | writing one document's points or ledger rows leaves those of every other document alone |
| ChunkProjection.OutdatedEventIsSkipped | src/foldmind_ai_core/adapters/outbound/postgres/source_freshness_checker.py:46-65 | an index event whose digest is not the current one of an active document is passed over from check to commit without a write; deletions are always carried out |
| ChunkProjection.ChunkStays | src/foldmind_ai_core/adapters/outbound/qdrant/stores/document_chunk_vector_store.py:34-70 | the last chunk sent for a position is stored under it, with the version and text sent |
| ChunkProjection.ProducerStepKeeps | src/foldmind_ai_core/core/application/services/indexing/document_indexing_service.py:71-131 | a producer's transaction between any two sub-steps of the worker keeps the worker's invariant |
| ChunkProjection.AppendedSaysRow | src/foldmind_ai_core/core/application/services/indexing/document_indexing_service.py:71-131 | a transaction whose append is not dropped leaves a log whose last event about each document says what its row says |
| ChunkProjection.HandledLogConverges | src/foldmind_ai_core/core/application/services/projection/document_vector_projection_service.py:56-110 | once every event about a document is handled, store and ledger hold exactly its current chunks, or nothing if it is deleted |
| ChunkProjection.RunConverges | src/foldmind_ai_core/core/application/services/projection/document_vector_projection_service.py:56-110 | in every run with crashes and redelivery between any two sub-steps, if no append is dropped, every handled document has converged |
| ChunkProjection.SupersededNeverReturns | src/foldmind_ai_core/adapters/outbound/postgres/store/document_source_store.py:226-262 | a version that was superseded is never accepted again |
| ChunkProjection.DroppedOnlyIfRepeated | src/foldmind_ai_core/adapters/outbound/postgres/store/outbox_store.py:13-32 | an append is dropped only if the last index or delete event about the document already says the same |
| ChunkProjection.SyncedUnlessResent | src/foldmind_ai_core/adapters/outbound/postgres/store/outbox_store.py:13-32 | the log goes on saying what the rows say if and only if the command does not send a version with text again after that version's own deletion |
| ChunkProjection.HistoryKept | src/foldmind_ai_core/core/domain/models/outbox.py:41-57 | what the log holds about superseded versions stays true under every producer step |
| ChunkProjection.RunConvergesWithDrops | src/foldmind_ai_core/adapters/outbound/postgres/store/outbox_store.py:13-32 | convergence over every run, dropped appends included, when versions determine their snapshots and no version with text is re-sent after its own deletion |
| ChunkProjection.ResentVersionIsLost | src/foldmind_ai_core/core/domain/models/outbox.py:41-57 | a concrete run in which the re-sent version is active in the tables while the store stays empty with the whole log handled |
| IndexingProjection.FreshnessAgrees | src/foldmind_ai_core/adapters/outbound/postgres/source_freshness_checker.py:46-65 | the freshness check of the worker is the one the tables answer |
| IndexingProjection.TransactionIsProduced | src/foldmind_ai_core/core/application/services/indexing/document_indexing_service.py:71-131 | each indexing transaction, of folders too, is a sequence of producer steps of the chunk projection that appends exactly what the transaction appends |
| IndexingProjection.TransactionMatches | src/foldmind_ai_core/core/application/services/indexing/document_indexing_service.py:71-131 | and leaves the projection's rows those of the tables: version, digests and deletion mark of every document |
| IndexingProjection.StoreFollowsTables | src/foldmind_ai_core/core/application/services/projection/document_vector_projection_service.py:56-110 | whatever transactions run on the tables, with worker steps and crashes anywhere in between: once every event about a document is handled, store and ledger hold exactly the chunks of the version the tables hold, or nothing if they hold none as active |
| Outbox.AppendSpeaksLast | src/foldmind_ai_core/adapters/outbound/postgres/store/outbox_store.py:13-32 | an append whose key is derived from the payload changes what the log says last about its subject, except when the log has the same event and another one since: then the log goes on saying the other |
| IndexingAnnouncements.TransactionAnnounces | src/foldmind_ai_core/core/application/services/indexing/folder_signal_invalidation_service.py:78-111 | a transaction's invalidations carry current digests and miss no folder with a new one; if before it the last invalidation of every active folder in the log was that of its digest, this holds after it if and only if none of its own is lost and it changes no generation version |
| IndexingAnnouncements.RunAnnounces | src/foldmind_ai_core/core/application/services/indexing/folder_signal_invalidation_service.py:78-111 | the same over whole runs |
| IndexingAnnouncements.OldDigestIsLost | src/foldmind_ai_core/adapters/outbound/postgres/store/outbox_store.py:13-32 | an invalidation is lost whenever the folder returns to a digest announced before the last one |
| IndexingAnnouncements.EarlierDigestIsLost | src/foldmind_ai_core/core/application/services/indexing/document_indexing_service.py:71-131 | index a folder, index a document into it, delete the document: the last invalidation in the log is of a digest the folder no longer has |
| IndexingAnnouncements.FoldersSpoken | src/foldmind_ai_core/core/application/mappers/outbox_events.py:106-117 | after an accepted document with a relation snapshot, the last snapshot in the log is that one, unless its event is lost |
| IndexingAnnouncements.EarlierFoldersAreLost | src/foldmind_ai_core/core/application/mappers/outbox_events.py:106-117 | a document that returns to earlier folders under one version has them in the tables, while the log ends with the folders in between |
| ChunkProjector.Projector.ReplaceDocumentChunks | src/foldmind_ai_core/adapters/outbound/qdrant/stores/document_chunk_vector_store.py:34-70 | afterwards the store holds exactly the command's chunks for the document and what it held for others |
| ChunkProjector.Projector.ReplaceChunkVectorRecords | src/foldmind_ai_core/adapters/outbound/postgres/repository/projection_ledger_repository.py:27-38 | the ledger lists exactly the points of the command's chunks for the document |
| ChunkProjector.Projector.ProjectDocumentChunks | src/foldmind_ai_core/core/application/services/projection/document_vector_projection_service.py:56-94 | a stale command writes nothing; a current one leaves exactly its chunks in store and ledger, each with its text, and the points of other documents as they were |
| ChunkProjector.Projector.DeleteChunkProjection | src/foldmind_ai_core/core/application/services/projection/document_vector_projection_service.py:96-110 | store and ledger forget the document, without a freshness check |
| ChunkProjector.Projector.Consume | src/foldmind_ai_core/core/application/services/projection/document_vector_projection_service.py:56-110 | the service does to store and ledger what the worker's steps do when nothing interrupts them: it stores the chunks of an index event exactly when its digest is that of an active row, and writes nothing otherwise |
| SignalProjection.ProjectedAgree | src/foldmind_ai_core/adapters/outbound/qdrant/stores/signal_vector_store.py:33-58 | after a projection, the ledger rows list exactly the stored points with their digests if and only if signals of one id have one vector input |
| SignalProjection.RepeatedIdDisagrees | src/foldmind_ai_core/adapters/outbound/qdrant/stores/signal_vector_store.py:33-58 | one id with two vector inputs leaves two points and one ledger row |
| SignalProjection.ReplacementIsLocal | src/foldmind_ai_core/adapters/outbound/qdrant/stores/signal_vector_store.py:33-111 | replacing one owner's signals shows in the agreement about that owner only: owners of either kind sharing the collection never disturb each other |
| SignalProjection.DroppingStaleAgrees | src/foldmind_ai_core/adapters/outbound/qdrant/stores/signal_vector_store.py:113-134 | dropping stale folder signals from store and ledger keeps every owner's agreement, and changes nobody else's either way |
| SignalProjection.SignalProjector.UpsertPoints | src/foldmind_ai_core/adapters/outbound/qdrant/stores/signal_vector_store.py:167-203 | the batch upsert in order |
| SignalProjection.SignalProjector.UpsertRecords | src/foldmind_ai_core/adapters/outbound/postgres/repository/projection_ledger_repository.py:73-80 | the loop of ledger upserts in order |
| SignalProjection.SignalProjector.Project | src/foldmind_ai_core/core/application/services/projection/document_vector_projection_service.py:152-187 | a stale command changes nothing, one with a foreign signal is refused before any write; any other leaves of the owner exactly its signals, the last of each point and of each id, and every point and row of all others unchanged |
| SignalProjection.SignalProjector.Delete | src/foldmind_ai_core/core/application/services/projection/document_vector_projection_service.py:189-204 | no point and no row of the owner is left, every point and row of all others is unchanged, and every owner agrees that agreed before |
| SignalProjection.SignalProjector.InvalidateStale | src/foldmind_ai_core/core/application/services/projection/folder_vector_projection_service.py:130-151 | a point stays, unchanged, if and only if it is of another owner or of the current digest; a ledger row if and only if it is of another source, another kind of item, or that digest |
| ModelCodec.RoundTrip | src/foldmind_ai_core/adapters/outbound/json_model_codec.py:33-129 | every well-typed value encodes, and restoring gives it back if and only if none of its dictionaries, at any depth, holds both the type key and the value key |
| ModelCodec.ModelRoundTrip | src/foldmind_ai_core/adapters/outbound/json_model_codec.py:70-105 | a model comes back with all its fields, coerced by their annotations and in declared order, under the same condition |
| ModelCodec.DictRoundTrip | src/foldmind_ai_core/adapters/outbound/json_model_codec.py:33-59 | a dictionary comes back with textual keys under the same condition |
| ModelCodec.AllRoundTrip | src/foldmind_ai_core/adapters/outbound/json_model_codec.py:107-129 | lists and homogeneous tuples come back item by item |
| ModelCodec.FieldsRoundTrip | src/foldmind_ai_core/adapters/outbound/json_model_codec.py:82-95 | the fields of a model come back, including those restored by the hook |
| ModelCodec.ArtifactRoundTrip | src/foldmind_ai_core/adapters/outbound/workflow_runtime/checkpoint_codec.py:132-138 | artifact dictionaries get their enum keys back |
| DocumentIndexedEvents.EventRoundTrip | src/foldmind_ai_core/adapters/inbound/messaging/message_codec.py:63-84 | every event the producer builds is accepted and decodes to the same document state, chunks, index state and signals if and only if its texts are trimmed and not blank (contents: not blank) and confidences lie between 0 and 1 |
| DocumentIndexedEvents.ProducerContextImpliesConsumer | src/foldmind_ai_core/adapters/inbound/messaging/message_codec.py:225-274 | for arbitrary texts, whenever the four parts of the payload decode, the producer's context check implies the consumer's |
| DocumentIndexedEvents.EventAccepted | src/foldmind_ai_core/adapters/inbound/messaging/message_codec.py:63-84 | an event the producer builds is accepted if and only if its four parts decode and tenant and document id are trimmed |
| DocumentIndexedEvents.EventIsBuilt | src/foldmind_ai_core/core/domain/services/document_indexing_invariant_service.py:13-68 | the producer builds an event if and only if the document names itself and has chunks, the index state is of that document with its digests, and every chunk and signal is of that very version and index state |
| DocumentIndexedEvents.AcceptedIsConsistent | src/foldmind_ai_core/adapters/inbound/messaging/message_codec.py:225-274 | whatever event arrives, an accepted command is about the event's tenant and document, in one version, with every chunk and signal under the same digests |
| DocumentIndexedEvents.DocumentRoundTrip | src/foldmind_ai_core/core/application/mappers/outbox_events.py:193-212 | the document payload decodes to the same state if and only if its required texts are trimmed |
| DocumentIndexedEvents.ChunkRoundTrip | src/foldmind_ai_core/core/application/mappers/outbox_events.py:243-277 | a chunk payload decodes to the projection of the chunk if and only if its texts and the vector specification are trimmed and its text is not blank |
| DocumentIndexedEvents.IndexRoundTrip | src/foldmind_ai_core/adapters/inbound/messaging/message_codec.py:396-416 | the index payload passes all checks for a trimmed document (an untitled one is given its id as title) and decodes to the same index state if and only if that is trimmed |
| DocumentIndexedEvents.SignalRoundTrip | src/foldmind_ai_core/adapters/inbound/messaging/message_codec.py:419-451 | a signal payload decodes to the same signal, evidence included, if and only if it is trimmed with a confidence in range |
| DocumentIndexedEvents.EvidenceRoundTrip | src/foldmind_ai_core/adapters/inbound/messaging/message_codec.py:504-511 | evidence decodes to itself if and only if its chunk id is trimmed and its quote not blank |
| DocumentIndexedEvents.KindRoundTrip | src/foldmind_ai_core/core/domain/models/document_signals.py:9-15 | each signal type is recovered from its name |
| DocumentIndexedEvents.TitleRead | src/foldmind_ai_core/core/application/mappers/outbox_events.py:297-297 | the title the consumer requires is never blank when the document id is not |
| GraphProjection.ApplyKeepsSafe | src/foldmind_ai_core/adapters/outbound/neo4j/projection.py:30-199 | each command keeps the graph safe: no membership or parent edge touches a deleted folder, no folder has two parents, no edge dangles |
| GraphProjection.ReachableGraphsAreSafe | src/foldmind_ai_core/adapters/outbound/neo4j/projection.py:30-199 | every sequence of commands from the empty graph leaves a safe graph |
| GraphProjection.ApplyTwice | src/foldmind_ai_core/adapters/outbound/neo4j/projection.py:30-199 | applying a command twice gives the same graph as once, for every command that stores no signals; for one that does, if and only if it takes over no signal with edges of another owner |
| GraphProjection.ReplaceSignalsTwice | src/foldmind_ai_core/adapters/outbound/neo4j/projection.py:66-124 | the same for replacing the signals of one document or folder |
| GraphProjection.DerivedCommandsAreIdempotent | src/foldmind_ai_core/core/domain/services/folder_signal_service.py:28-49 | when signal ids determine their owner, as the derived ids do, every command applied twice to a reachable graph gives the same graph as once |
| GraphProjection.TakingOverIsNotIdempotent | src/foldmind_ai_core/adapters/outbound/neo4j/projection.py:99-124 | a concrete graph and command for which the second application removes an edge the first one left; its signal id is one no service derives |
| GraphSession.Session.ReplaceDocumentFolderRelations | src/foldmind_ai_core/adapters/outbound/neo4j/projection.py:48-63 | the loop over folder ids does the replacement of the memberships, in any order of references and links |
| GraphSession.Session.ReplaceFolderProjection | src/foldmind_ai_core/adapters/outbound/neo4j/projection.py:86-96 | the folder is active with at most its new parent edge, and none to a deleted parent |
| GraphSession.Session.DeleteFolderProjection | src/foldmind_ai_core/adapters/outbound/neo4j/projection.py:178-199 | the folder stays as a tombstone without parent, membership or signal edges |
| GraphSession.Session.MergeSignals | src/foldmind_ai_core/adapters/outbound/neo4j/projection.py:80-83 | the loop merges every node and edge, a later signal overwriting an earlier one of the same id |
| GraphSession.Session.ReplaceFolderSignalProjection | src/foldmind_ai_core/adapters/outbound/neo4j/projection.py:99-124 | the folder's signals are exactly those of the command |
| GraphSession.Session.ReplaceDocumentProjection | src/foldmind_ai_core/adapters/outbound/neo4j/projection.py:30-83 | the document node and its signals are exactly those of the command |
| GraphSession.WithLinksSnoc | src/foldmind_ai_core/adapters/outbound/neo4j/projection.py:54-63 | creating references on the way never revives a deleted folder, so the links do not depend on the order of the folder ids |
| GraphOutcomes.FolderAsCommanded | src/foldmind_ai_core/adapters/outbound/neo4j/projection.py:86-96 | a replaced folder is active with its properties and has a parent edge exactly to the command's parent unless that is deleted; everything else stays |
| GraphOutcomes.MembershipsAsCommanded | src/foldmind_ai_core/adapters/outbound/neo4j/projection.py:48-63 | a document is in exactly the listed folders that are not deleted; other memberships and existing folders stay |
| GraphOutcomes.TombstonesStayUntilReplaced | src/foldmind_ai_core/adapters/outbound/neo4j/projection.py:86-96 | over every run, a folder is deleted exactly when some command deleted it and none replaced it since, and as long as it is, no membership or parent edge touches it |
| GraphOutcomes.DocumentsStayUntilDeleted | src/foldmind_ai_core/adapters/outbound/neo4j/projection.py:30-83 | over every run, a document node exists exactly when some command named it and none deleted it since, and without a node it has no edge |
| GraphOutcomes.StoredThenInvalidated | src/foldmind_ai_core/adapters/outbound/neo4j/projection.py:159-175 | signals stored for a folder and then invalidated leave exactly those stored last under their id and generated from the current digest |
| GraphOutcomes.SignalsAsCommanded | src/foldmind_ai_core/adapters/outbound/neo4j/projection.py:66-124 | the owner's signals are exactly those of the command, the last one of each id; signals of others stay unless the command has their id |
| GraphHistory.MembershipsOfRun | src/foldmind_ai_core/adapters/outbound/neo4j/projection.py:48-63 | over every run, a document is in a folder if and only if its last list of folders had it while it was not deleted, and neither was deleted since |
| GraphHistory.ParentsOfRun | src/foldmind_ai_core/adapters/outbound/neo4j/projection.py:86-96 | over every run, a folder has exactly the parent it was last replaced with, if that was not deleted then, and neither was since |
| GraphHistory.SignalsOfRun | src/foldmind_ai_core/adapters/outbound/neo4j/projection.py:66-124 | over every run, a signal node is as some command stored it last, and no later one stored it, replaced or deleted its owner's signals, found it out of date, or deleted its folder |
| GraphHistory.LinksOfRun | src/foldmind_ai_core/adapters/outbound/neo4j/projection.py:80-83 | over every run, a signal hangs on an owner if and only if it was stored for that owner while it existed and neither went since |
| GraphHistory.RelationsOfRun | src/foldmind_ai_core/adapters/outbound/neo4j/projection.py:99-124 | over every run, a folder signal points at a document if and only if it was stored about it while the document existed and neither went since |
| GraphHistory.DocumentPropertiesOfRun | src/foldmind_ai_core/adapters/outbound/neo4j/projection.py:30-83 | over every run, a document node has the properties it was last replaced with, none if it was only mentioned, until it is deleted |
| GraphHistory.FolderPropertiesOfRun | src/foldmind_ai_core/adapters/outbound/neo4j/projection.py:86-96 | over every run, a folder is active with the properties it was last replaced with, until it is deleted |
| KeywordRanking.StableSortRefines | src/foldmind_ai_core/core/application/services/retrieval/document_retrieval_service.py:261-264 | a stable pass sorts by its key and leaves equal entries in the order of the passes before |
| KeywordRanking.FourPassesSort | src/foldmind_ai_core/core/application/services/retrieval/document_retrieval_service.py:261-264 | the four passes yield the one lexicographic order (score and update time descending, chunk index, chunk id) and neither lose nor add entries |
| KeywordRanking.RankingIsUnique | src/foldmind_ai_core/core/application/services/retrieval/document_retrieval_service.py:229-265 | two rankings of the same candidates are equal |
| KeywordRanking.ArrivalOrderDoesNotMatter | src/foldmind_ai_core/core/application/services/retrieval/document_retrieval_service.py:229-265 | permuting title matches, chunk matches and title chunks gives the same results, when an id stands for one chunk and a document has one title score |
| KeywordRanking.RankingIsOfScored | src/foldmind_ai_core/core/application/services/retrieval/document_retrieval_service.py:229-265 | every result scores as its document's last title match, or as a chunk match on top of that, at the best such score of its chunk; no chunk appears twice; a scored chunk is left out only if top_k results precede its best entry |
| KeywordRanking.MergeKeywordResult | src/foldmind_ai_core/core/application/services/retrieval/document_retrieval_service.py:268-275 | the dictionary goes on holding one entry per chunk id, the first of those at its best score so far |
| KeywordRanking.CollectTitleScores | src/foldmind_ai_core/core/application/services/retrieval/document_retrieval_service.py:236-238 | the last title match of a document counts |
| KeywordRanking.MergeTitleChunks | src/foldmind_ai_core/core/application/services/retrieval/document_retrieval_service.py:241-251 | the loop over title chunks merges those of matched documents |
| KeywordRanking.MergeChunkMatches | src/foldmind_ai_core/core/application/services/retrieval/document_retrieval_service.py:253-258 | the loop over chunk matches merges each with its document's title score added |
| KeywordRanking.KeywordResultsFromMatches | src/foldmind_ai_core/core/application/services/retrieval/document_retrieval_service.py:229-265 | the result is the first top_k of one best entry per chunk, the first of several at the best score, in the lexicographic order |
| Workflow.AdvanceMakesProgress | src/foldmind_ai_core/adapters/outbound/workflow_runtime/nodes.py:83-135 | whatever the planner, the executor and the host answer, every node makes progress in (phase, steps left, tries left, rank) |
| Workflow.ReachesPause | src/foldmind_ai_core/adapters/outbound/workflow_runtime/graph.py:87-114 | from every state and for every pattern of step failures, the graph ends or waits for the host |
| Workflow.NextStepHasItsJob | src/foldmind_ai_core/core/application/workflows/engine.py:205-225 | in a traced state the job search finds the job of the next step, so execution never appends one |
| Workflow.PreparedJobsUnique | src/foldmind_ai_core/core/application/workflows/engine.py:72-81 | planning keeps (round, position) unique if and only if no job of that round and range exists yet |
| Workflow.AdvanceKeeps | src/foldmind_ai_core/core/application/workflows/engine.py:52-187 | every node keeps the job trace, the count of failures per step and its match with the executions |
| Workflow.RunsAreTraced | src/foldmind_ai_core/core/application/workflows/engine.py:52-187 | in every run that starts without jobs, across waits and replans: no step is executed more than max_tool_retries + 1 times; (round, position) is unique; no job is left running; jobs before the next step succeeded, later ones are planned, its own is planned, or failed if it was tried |
| Workflow.OnlyPlanningAddsJobs | src/foldmind_ai_core/core/application/workflows/engine.py:120-169 | only planning adds jobs, as many as the plan has steps, and the jobs of earlier rounds never change |
| Workflow.StepExits | src/foldmind_ai_core/adapters/outbound/workflow_runtime/nodes.py:91-99 | an error is retried while the step was executed at most max_tool_retries times and fails the task when it was executed once more; a success waits for pending host actions, goes on, or ends after the last step; a terminal status ends the run |
| Workflow.FailureIsRecorded | src/foldmind_ai_core/adapters/outbound/workflow_runtime/nodes.py:125-134 | a failed step is kept by round, index and action with its error and one more failure, its job has failed with that error, and no other job changes |
| Workflow.ExhaustedStepFailsTask | src/foldmind_ai_core/core/application/workflows/engine.py:107-115 | a step that fails once more than max_tool_retries times ends the run as failed, with nothing pending and the error and jobs kept |
| Workflow.ResumeExits | src/foldmind_ai_core/adapters/outbound/workflow_runtime/nodes.py:101-113 | a terminal result ends the run; otherwise a replan goes before a retry of the host action, that before waiting for pending actions, that before the next step, and the run ends when nothing is left |
| Workflow.RetriedActionIsAwaited | src/foldmind_ai_core/adapters/outbound/workflow_runtime/graph.py:91-91 | a retried host action is waited for, and not retried a second time unless asked for |
| Workflow.ReplanStartsAfresh | src/foldmind_ai_core/core/application/workflows/engine.py:84-102 | a replan starts a new round at its first step with every try of every step, nothing pending, and the old jobs kept before the new ones |
| Workflow.EndedRunsAreDone | src/foldmind_ai_core/adapters/outbound/workflow_runtime/nodes.py:83-113 | a run that has ended set a terminal status or succeeded in every step of its current plan |
| WorkflowEngine.Engine.Prepare | src/foldmind_ai_core/core/application/workflows/engine.py:52-82 | a plan starts at step 0 of a new round with one planned job per step |
| WorkflowEngine.Engine.JobForStep | src/foldmind_ai_core/core/application/workflows/engine.py:205-225 | the first job of the round and position, appended only if there is none |
| WorkflowEngine.Engine.Attempt | src/foldmind_ai_core/core/application/workflows/engine.py:139-169 | the step's job ends succeeded or failed with the executor's error, and only success moves on |
| WorkflowEngine.Engine.RunStep | src/foldmind_ai_core/core/application/workflows/engine.py:120-169 | no plan or an unexpected action raises, no next step changes nothing, otherwise the step is attempted |
| WorkflowEngine.Engine.RunStepNode | src/foldmind_ai_core/adapters/outbound/workflow_runtime/nodes.py:115-135 | the step node clears the last failure, runs the step and records its error |
| WorkflowEngine.Engine.Visit | src/foldmind_ai_core/adapters/outbound/workflow_runtime/graph.py:87-114 | one node of the graph with the route it takes |
| WorkflowEngine.Engine.Drive | src/foldmind_ai_core/adapters/outbound/workflow_runtime/graph.py:42-48 | driving the graph ends or waits for the host, follows the graph exactly and keeps the traced states traced |
| DocumentChunker.ChunkText | src/foldmind_ai_core/core/domain/services/document_chunker.py:18-53 | one chunk for every window that is not blank, in order, and the windows reach the end of the text |
| DocumentChunker.ChunksAreSlices | src/foldmind_ai_core/core/domain/services/document_chunker.py:24-49 | each chunk is the slice of the text at its offsets, not empty and at most chunk_size long |
| DocumentChunker.OffsetsNeverDecrease | src/foldmind_ai_core/core/domain/services/document_chunker.py:29-30 | neither start nor end offsets ever decrease |
| DocumentChunker.NonSpaceIsCovered | src/foldmind_ai_core/core/domain/services/document_chunker.py:23-26 | every character that is no white space lies in some chunk |
| DocumentChunker.OverlapIsCovered | src/foldmind_ai_core/core/domain/services/document_chunker.py:22-26 | a character that is no white space lies in the chunk of every window that reaches over it, chunk_size characters from each multiple of the step: consecutive chunks share their overlap |
| DocumentChunker.LayingBackReproduces | src/foldmind_ai_core/core/domain/services/document_chunker.py:18-53 | laying the chunks back at their offsets reproduces the text up to uncovered white space |
| DocumentChunker.NoChunksIffEmpty | src/foldmind_ai_core/core/domain/models/document_sources.py:43-47 | a document has no chunks exactly when its full text is empty |
| DocumentChunker.FullTextIsTitleAndBody | src/foldmind_ai_core/core/domain/models/document_sources.py:43-47 | the text of a document is its title, unless blank, an empty line, and its body, with only white space at the ends left out |
| ContextFormatter.JsonRenderingIsMonotone | src/foldmind_ai_core/core/application/formatters/retrieved_context.py:113-122 | the indented JSON of fewer items is never longer, nor is it with the flag set |
| ContextFormatter.QuotedTextReadsBack | src/foldmind_ai_core/core/application/formatters/retrieved_context.py:113-122 | whatever characters a text has, quotes and control characters included, it can be read back from its rendering, which ends where the text ends |
| ContextFormatter.TruncateWithinLimit | src/foldmind_ai_core/core/application/formatters/retrieved_context.py:93-100 | a cut text is within its limit, and is the text itself exactly when that was |
| ContextFormatter.TruncateKeepsStart | src/foldmind_ai_core/core/application/formatters/retrieved_context.py:93-100 | a cut text is the start of the text, as far as leaves room for the suffix and without white space at its end, followed by the suffix, or just the start if there is no room |
| ContextFormatter.TextsAreCutToRoom | src/foldmind_ai_core/core/application/formatters/retrieved_context.py:46-72 | every text is cut at the chunk limit only, or, where that would not fit, to the characters the budget leaves beside the items before it and the item without its text |
| ContextFormatter.FormatUntrustedContext | src/foldmind_ai_core/core/application/formatters/retrieved_context.py:24-90 | non-positive limits are refused; a non-empty output is within the budget; the items are an in-order prefix of the results, numbered from one, no text over the chunk limit and none cut shorter than it must be; no further result would fit, whole or cut; the flag is false exactly when everything fits, and then every result appears with its full text |
| ContextFormatter.Include | src/foldmind_ai_core/core/application/formatters/retrieved_context.py:37-88 | one turn of the loop: the next result is included at the chunk limit, or cut to the room left, or nothing more fits |
| OutboxWorker.DeadLetter | src/foldmind_ai_core/adapters/inbound/outbox_worker/runtime.py:115-134 | a dead letter is committed only after it was published |
| OutboxWorker.Attempt | src/foldmind_ai_core/adapters/inbound/outbox_worker/runtime.py:102-106 | an offset is committed only after its dispatch completed |
| OutboxWorker.Process | src/foldmind_ai_core/adapters/inbound/outbox_worker/runtime.py:82-113 | every commit is earned by a completed dispatch or a published dead letter; a message is dispatched again only after another error than an application error, at most max_retries + 1 times, and never if it does not decode; whatever is not completed goes to the dead letters |
| OutboxWorker.CommittedIsKept | src/foldmind_ai_core/adapters/inbound/outbox_worker/runtime.py:82-134 | a committed message was dispatched or stored as a dead letter |
| OutboxWorker.RunPartition | src/foldmind_ai_core/adapters/inbound/outbox_worker/runtime.py:168-180 | over any pattern of failures and redeliveries, no message before the committed offset is lost |
| Text.SortIds | src/foldmind_ai_core/core/application/services/indexing/folder_signal_invalidation_service.py:85-85 | sorting a set of ids lists each once in lexicographic order, whatever order they are drawn in |
| Text.LeqIsLexicographic | src/foldmind_ai_core/core/application/services/indexing/folder_signal_invalidation_service.py:85-85 | one text comes before another if it is a start of it, or has the lower code point where they first differ |

## Left out

- Digests (SHA-256, UUIDv5 of section 5.5 of RFC 9562, canonical JSON) are injective by construction in the folder and chunk models, and parameters in the event model.
- A document or folder id never changes tenant: the conflict clause that overwrites a tenant is not modelled, and commands are admissible only for the tenant of the stored row.
- Of the constraints of the tables, those that stored folder signals meet at `replace_folder_signals` are modelled (keys, references, blank ids and versions). Checks on texts, types and confidences, which the domain models make first, are not.
- Transactions are atomic, as the session provider makes them; row locks and isolation levels are not modelled. Database timestamps are integers that compare like instants.
- Vectors, embedding calls, collection names and payload digests: a point is its chunk or signal. Scores are reals, finite only; floating-point rounding is not modelled.
- The vectors of whole documents and of folders (one point per source) follow the chunk pattern with a single point and would only repeat it.
- ChunkProjection.RunConverges: assumes no message is dead-lettered, since a deletion replayed later is not checked for freshness; dead-letter replay is not modelled.
- Convergence of the graph with the relation table across partitions does not hold by design (deleting a folder drops memberships that re-indexing it does not restore); only the graph invariants are proved.
- Properties of graph nodes are one opaque text, and edge properties are dropped. A folder merged without a source version keeps the old one in the database; here the properties are replaced whole.
- Jobs are values in a list instead of objects shared with the executor; timestamps, inputs and results of jobs are dropped. The planner, the executor and the host are arbitrary inputs that leave plan, step index, retry counts and jobs alone, as the executor and the result service do. A crash inside a step, and errors of the planner, end the run of the graph and are not modelled.
- The rendering of a step key as text is taken to be injective.
- ModelCodec.RoundTrip: a well-typed value lists exactly the declared fields of its model in order (defaults for absent fields are not modelled), and a union is one whose earlier options leave the value alone, as optional fields are.
- The checkpoint schema pass of the workflow state and models that are not registered with the codec.
- The names of payload fields are constructors instead of texts; decoding errors carry no text of their own. Events other than the indexed document, and the flattened outbox record around the payload, are not modelled.
- Lengths of texts are counted in characters, and the byte size of a text is a parameter.
- ContextFormatter.FormatUntrustedContext: the JSON rendering is a parameter of which only the monotonicity is used; `JsonRenderingIsMonotone` proves it of the rendering the source uses. A score is given by its JSON text.
- OutboxWorker.Process: waiting times between retries and logging are dropped; what the dispatcher, the producer and the broker do is arbitrary per attempt.
- HTTP routes, DTOs, settings, tracing, prompts, plan compilation, option parsing, confidence checks and rank merging: plumbing, or members that would only add easier claims.
