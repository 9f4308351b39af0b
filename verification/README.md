# A verified model of the indexing pipeline, search merge, rate limiters, folder walk and token refresh

The project models five parts of the system and proves what they are for.

**Indexing.** Documents, sections and chunks are tables (`Tables`). A `Session` holds the committed
tables, what the open transaction has flushed, its unflushed view, and a script of failures: every operation
that may raise takes the next entry, so all scripts together are all ways of failing at any step (`Sessions`).
`PrepareScript` lists the operations of a prepare and says how it ends under a script. `IndexingPipeline` has
the service methods on that session. `Preparing` and `IndexTransaction` say what one batch and one `index`
call do as functions; `PrepareTheorems`, `PrepareConvergence` and `IndexingRuns` prove what follows for
batches, for repeated batches and for every run.

**Parsing.** `SectionForest` defines the parent of a section as the latest earlier one of a lower level
and proves the forest properties; `DocumentChunker` has the stack loop, which computes that parent, and
the tiling of the text.

**Search.** `RankFusion` has the rank merge with its tight bound of 61 entries; `ChunkGrouping` has the
grouping and the per-document cap.

**Rate limiters.** `RateLimits` proves both limiters against a full request log, and one against the other.

**Folder walk and token refresh.** `DriveWalk` proves that the paginated, bounded recursion returns a
prefix of a depth-first listing, over any folder graph. `TokenRefresh` is the event loop of one page.

Some promises do not hold as stated; the model keeps the code and says exactly when they do:

- One prepare and one round of indexing settle a batch exactly when no document is stranded
  (`OneRunIsEnoughExactly`, `OneRunIsNotEnough`); two always do (`TwoRunsConverge`).
- A prepare is stored or returns nothing, except that the server discards the batch although documents are
  returned, exactly when the first operation to fail is a look-up (`EndsExactly`, `DiscardedDocumentIsReturned`).
- The docstring of `attach_sections_and_chunks` (document_persistence.py:88-91) says that deleting sections
  cascades to their chunks. The foreign key is SET NULL (db.py:743-748), and the code is followed:
  the chunks would stay (`SectionDeleteKeepsChunks`, `StaleChunksExactly`), and the delete in `index` removes them.
- The in-memory limiter reads the clock before it takes the lock: a late request can overshoot the window, each
  by at most one (`ListIsExactExactlyInOrder`, `MemoryWindowBoundWithLate`, `LateRequestOvershoots`).
- The Redis limiter is stricter than the one it falls back to, exactly as `LimitersDisagreeExactly` says.
- Agreement of both retrievers wins only up to 61 entries (`AgreementWinsExactly`).
- A refresh token can be sent after it was exchanged: the page can exclude it exactly when it saw no request with
  that token fail (`SpentTokenIsSentExactly`).

## Model

| member | source | states |
|---|---|---|
| IndexingRuns.EveryRunKeepsRows | nbd_backend/app/indexing_pipeline/indexing_pipeline_service.py:59-284 | over every run of prepare batches and `index` calls, committed at whatever points, from any table with unique hashes whose links stay inside documents: it stays so, and every row that was right at the start or entered on the way is right at the end; right means that its hashes are those of its identity and stored text and that when ready it has exactly the sections and chunks of that text |
| IndexingRuns.EventKeepsRow | nbd_backend/app/indexing_pipeline/indexing_pipeline_service.py:86-143 | a row enters when a batch inserts it, when a batch rewrites it whatever placeholder it held, when it is re-indexed from its own source, or when it is indexed while honest |
| IndexingRuns.PlaceholderEnters | nbd_backend/app/routes/documents_routes.py:237-255 | the row an upload inserts, with the identifier hash as its content hash, enters with the batch of its document |
| IndexingPipeline.SucceededIndexMakesRowOk | nbd_backend/app/indexing_pipeline/indexing_pipeline_service.py:166-241 | after a successful call an honest or re-indexed row is ready and right |
| IndexingRuns.PreparedThenIndexed | nbd_backend/app/indexing_pipeline/indexing_pipeline_service.py:59-241 | after a committed prepare whose documents are all indexed, the row of every first document is ready, stores the text of that document and has exactly its sections and chunks, if it is new, was right, or had other content under that name |
| IndexingRuns.RestartedIsHonest | nbd_backend/app/indexing_pipeline/adapters/file_upload_adapter.py:54-77 | re-indexing an edited document makes the content hash of its row that of the text it stores |
| IndexingRuns.PreparedKeepsRow | nbd_backend/app/indexing_pipeline/indexing_pipeline_service.py:97-143 | a committed batch keeps every right row right, and makes inserted and rewritten ones right |
| IndexingRuns.FinishedKeepsRow | nbd_backend/app/indexing_pipeline/indexing_pipeline_service.py:200-241 | a finished `index` makes its honest row right and keeps every other right row right |
| IndexingRuns.StatusKeepsRow | nbd_backend/app/indexing_pipeline/document_persistence.py:41-45 | moving a row to processing or failed keeps right rows right |
| IndexingRuns.HashPinsText | nbd_backend/app/indexing_pipeline/indexing_pipeline_service.py:166-168 | a row whose content hash is that of a connector document stores that very text |
| IndexingRuns.RewrittenBecomesHonest | nbd_backend/app/indexing_pipeline/indexing_pipeline_service.py:111-116 | a rewritten row has the hashes of its own type, search space and new text, whatever content hash it had: the identifier hash pins type and space, which the rewrite does not store |
| IndexingRuns.PlaceholderIsRewritten | nbd_backend/app/indexing_pipeline/indexing_pipeline_service.py:97-112 | an identifier hash is never a content hash, so a placeholder row always counts as changed |
| IndexingPipeline.Index | nbd_backend/app/indexing_pipeline/indexing_pipeline_service.py:166-284 | whatever raises, the committed tables change by a run of at most two commits: nothing, started, started and finished, or a recorded failure; while the session is live the outcome is recorded, without faults or a taken content hash it is success, and right rows stay right; the caller may have set the content hash without flushing it, and a document without a row changes nothing |
| IndexingRuns.FailedIndexKeepsEverything | nbd_backend/app/indexing_pipeline/indexing_pipeline_service.py:251-279 | after a failed call only the status and timestamp of that row may differ, and its content hash if the caller set it |
| IndexingRuns.SucceededIndexReplacesOne | nbd_backend/app/indexing_pipeline/indexing_pipeline_service.py:200-241 | after a successful call the document has exactly the new parse and every other row, section and chunk is as before |
| IndexingRuns.ContentAfterIndex | nbd_backend/app/indexing_pipeline/indexing_pipeline_service.py:185-241 | a successful call stores the summary, else the fallback, else the text as content, with its embedding, and keeps title, text, metadata and identity |
| IndexingRuns.StatusAfterIndex | nbd_backend/app/indexing_pipeline/indexing_pipeline_service.py:180-241 | the status after a call is that of its outcome: ready, failed with the first 500 characters of the reason, processing when it was cut off, or as before |
| IndexingPipeline.TryIndex | nbd_backend/app/indexing_pipeline/indexing_pipeline_service.py:180-241 | the try block commits the start and then the complete replacement, or stops in between; without a row it commits nothing |
| IndexingPipeline.ReplaceDerived | nbd_backend/app/indexing_pipeline/indexing_pipeline_service.py:185-241 | the second transaction commits content, embedding, sections, chunks and status together, or leaves the committed tables alone |
| IndexingPipeline.StageDerived | nbd_backend/app/indexing_pipeline/indexing_pipeline_service.py:200-238 | chunk delete, parse, embedding and attachment together are the replacement of everything derived |
| IndexingPipeline.RollbackAndPersistFailure | nbd_backend/app/indexing_pipeline/document_persistence.py:29-47 | nothing escapes; either the failed status alone is committed, or nothing and the session is dead; a session left usable shows the committed tables |
| IndexingPipeline.PrepareForIndexing | nbd_backend/app/indexing_pipeline/indexing_pipeline_service.py:59-164 | a stored batch is exactly the diff of the batch, one that is not stored changes nothing; from a live session the ending and the documents returned are exactly those read from table, batch and failure script; from an aborted one the batch is discarded, from a dead one rolled back, with nothing returned; right rows stay right |
| PrepareScript.EndsExactly | nbd_backend/app/indexing_pipeline/indexing_pipeline_service.py:145-164 | the server discards the batch if and only if the first operation to fail is a look-up, and then the ids collected before it are returned; it is rolled back if and only if that operation is a flush, which also fails on a clash, or the commit |
| PrepareScript.DiscardedDocumentIsReturned | nbd_backend/app/indexing_pipeline/indexing_pipeline_service.py:145-156 | a script under which a new document is returned although the server discards its row |
| PrepareScript.DiscardedReturnsSomeTurns | nbd_backend/app/indexing_pipeline/indexing_pipeline_service.py:145-156 | the documents of a discarded batch are those of its first turns, none of which clashed |
| PrepareScript.StoredIsPrepared | nbd_backend/app/indexing_pipeline/indexing_pipeline_service.py:148-156 | when every operation succeeds the batch is stored and is the diff |
| PrepareScript.CleanScriptEnds | nbd_backend/app/indexing_pipeline/indexing_pipeline_service.py:148-164 | without other failures the batch is stored if no flush clashes, else rolled back, and never discarded |
| PrepareScript.FirstFailureMeans | nbd_backend/app/indexing_pipeline/indexing_pipeline_service.py:82-163 | what it means that an operation is the first to fail |
| Sessions.Session.Execute | nbd_backend/app/indexing_pipeline/indexing_pipeline_service.py:90-94 | exactly when a look-up succeeds, and what it leaves: a failed flush makes the session unusable, a failed statement aborts the transaction, which stays aborted |
| Sessions.Session.Commit | nbd_backend/app/indexing_pipeline/indexing_pipeline_service.py:148-149 | exactly when a commit succeeds, and what it stores: of an aborted transaction nothing |
| IndexingPipeline.PrepareOne | nbd_backend/app/indexing_pipeline/indexing_pipeline_service.py:82-146 | one turn is the turn of the diff, or leaves the session as its first failing operation does; in an aborted transaction it changes nothing |
| PrepareTheorems.PreparedTable | nbd_backend/app/indexing_pipeline/indexing_pipeline_service.py:86-143 | every old row is as its first document leaves it, every new row belongs to a first document without a row, and the ids returned are, once each, the rows that are new, changed or not ready; both columns are unique |
| IndexingRuns.ChangedRowIsOwn | nbd_backend/app/indexing_pipeline/indexing_pipeline_service.py:83-119 | a committed prepare changes or returns a row only for a document of the type, unique id and search space of that row |
| IndexingRuns.InsertedRowIsOwn | nbd_backend/app/indexing_pipeline/indexing_pipeline_service.py:127-142 | an inserted row has the identity, text and title of a document of the batch |
| PrepareTheorems.RowOfDocument | nbd_backend/app/indexing_pipeline/indexing_pipeline_service.py:97-119 | column by column, what a committed batch does to the row of a first document, and when the row is returned |
| PrepareTheorems.RowOfNobody | nbd_backend/app/indexing_pipeline/indexing_pipeline_service.py:90-95 | a row that no document of the batch names is as before and is not returned |
| PrepareTheorems.RowOfNewDocument | nbd_backend/app/indexing_pipeline/indexing_pipeline_service.py:127-142 | column by column, what an inserted row holds; it is returned |
| PrepareTheorems.InsertedExactly | nbd_backend/app/indexing_pipeline/indexing_pipeline_service.py:121-142 | a new document is inserted if and only if no old row has its content at its turn and no earlier insertion has it |
| PrepareTheorems.ContentAfter | nbd_backend/app/indexing_pipeline/indexing_pipeline_service.py:121-125 | what content the duplicate check finds after any number of turns, from the table and the batch |
| PrepareTheorems.ReturnedArePending | nbd_backend/app/indexing_pipeline/indexing_pipeline_service.py:105-139 | every returned document is pending |
| PrepareTheorems.TurnConflictsExactly | nbd_backend/app/db.py:662-663 | a turn breaks a unique column exactly when it rewrites a row to content another row has |
| PrepareTheorems.BatchIsLostExactly | nbd_backend/app/indexing_pipeline/indexing_pipeline_service.py:148-164 | a batch is lost exactly when some first document rewrites its row to content that an old row or an insertion has at that turn |
| PrepareConvergence.TwoRunsConverge | nbd_backend/app/indexing_pipeline/indexing_pipeline_service.py:86-143 | after a committed prepare whose documents are all indexed, a second prepare cannot be lost, and after indexing again a third returns nothing and changes nothing |
| PrepareConvergence.OneRunIsEnoughExactly | nbd_backend/app/indexing_pipeline/indexing_pipeline_service.py:86-143 | after one committed prepare whose documents are all indexed, a second prepare returns nothing and changes nothing if and only if no document is stranded: new, skipped as a duplicate of a row that a later document of the batch rewrites, with nothing left that has its content |
| PrepareConvergence.UncoveredExactly | nbd_backend/app/indexing_pipeline/indexing_pipeline_service.py:121-125 | a first document ends up with neither a row nor its content present exactly when it is stranded |
| PrepareConvergence.OneRunIsNotEnough | nbd_backend/app/indexing_pipeline/indexing_pipeline_service.py:121-125 | a batch that strands a document, which the second prepare inserts |
| PrepareConvergence.PrepareThenIndexSettles | nbd_backend/app/indexing_pipeline/indexing_pipeline_service.py:97-117 | one committed prepare, indexed, leaves every row of the batch with the hash and title of its first document, ready |
| PrepareConvergence.SettledPrepares | nbd_backend/app/indexing_pipeline/indexing_pipeline_service.py:86-143 | from a settled table no flush collides, rows are only added, and every first document ends up with a row or with its content present |
| PrepareConvergence.CoveredPrepareIsIdle | nbd_backend/app/indexing_pipeline/indexing_pipeline_service.py:97-125 | from a settled and covered table a prepare is idle |
| IndexingRuns.IndexingAllIndexes | nbd_backend/app/indexing_pipeline/indexing_pipeline_service.py:181-241 | indexing every returned document is what convergence assumes between two prepares |
| Preparing.FirstForMeans | nbd_backend/app/indexing_pipeline/indexing_pipeline_service.py:86-88 | which document of a batch is the first with an identifier |
| Preparing.FindUnique | nbd_backend/app/indexing_pipeline/indexing_pipeline_service.py:90-95 | a row with the identifier if there is one |
| IndexTransaction.ReplacedHoldsOutline | nbd_backend/app/indexing_pipeline/indexing_pipeline_service.py:200-238 | after the replacement no stale chunk or section of the document remains and all new ones are there |
| IndexTransaction.ReplacedLeavesOthers | nbd_backend/app/indexing_pipeline/indexing_pipeline_service.py:200-238 | other documents keep their sections and chunks |
| IndexTransaction.ReplacedKeepsLinks | nbd_backend/app/indexing_pipeline/document_persistence.py:107-163 | section and parent links still stay inside one document |
| IndexTransaction.SectionDeleteKeepsChunks | nbd_backend/app/db.py:743-748 | deleting the sections alone keeps every chunk and only unlinks it |
| IndexTransaction.StaleChunksExactly | nbd_backend/app/indexing_pipeline/document_persistence.py:107-163 | attaching alone leaves exactly the new chunks if and only if the document had none, so the delete in `index` is needed |
| IndexTransaction.StoredTreeIsTheOutline | nbd_backend/app/indexing_pipeline/document_persistence.py:119-142 | the stored tree is the parsed one: distinct ids, the row of a parent is the parent of the row, in the same document and earlier |
| IndexTransaction.StoredChunksHangOnSections | nbd_backend/app/indexing_pipeline/document_persistence.py:144-160 | every stored chunk has the embedding of its own content and hangs on a section row of its document with its heading |
| IndexTransaction.EveryChunkIsStored | nbd_backend/app/indexing_pipeline/document_persistence.py:119-163 | every chunk of the outline is stored and nothing else: as many rows as chunks, each at its place with content, order, digest, embedding and heading, on the row of its section |
| Tables.ChunksOfMeans | nbd_backend/app/db.py:735-740 | the chunks of a document are all rows with its id |
| Tables.UnlinkMeans | nbd_backend/app/db.py:743-748 | deleting sections clears exactly the links to them |
| IndexingPipeline.AttachSectionsAndChunks | nbd_backend/app/indexing_pipeline/document_persistence.py:76-164 | under any failure, success means the sections and chunks of the document are exactly those of the outline, with database ids |
| IndexingPipeline.AttachSection | nbd_backend/app/indexing_pipeline/document_persistence.py:119-160 | one turn inserts the section with the database id of its parent and builds its chunks |
| IndexingPipeline.ParentIsMapped | nbd_backend/app/indexing_pipeline/document_persistence.py:120-123 | every parent id the parser emits is already mapped when it is read |
| IndexingPipeline.EmbedAll | nbd_backend/app/indexing_pipeline/indexing_pipeline_service.py:208-223 | the table built from the zipped lists maps every chunk text to its own embedding, even when texts repeat |
| IndexingPipeline.ZipToMap | nbd_backend/app/indexing_pipeline/indexing_pipeline_service.py:221-223 | repeated texts share one vector, which is theirs |
| IndexingPipeline.CollectTexts | nbd_backend/app/indexing_pipeline/indexing_pipeline_service.py:208-211 | every chunk text is collected |
| Hashing.UniqueIdentifierKeyInjective | nbd_backend/app/indexing_pipeline/document_hashing.py:6-9 | the identifier string determines type, id and search space, whatever colons the id holds |
| IndexingRuns.UniqueHashExactly | nbd_backend/app/indexing_pipeline/document_hashing.py:6-9 | two documents have the same identifier hash if and only if type, unique id and search space agree |
| IndexingRuns.ContentHashExactly | nbd_backend/app/indexing_pipeline/document_hashing.py:12-15 | and the same content hash if and only if search space and text agree |
| Hashing.KeysOfAnExample | nbd_backend/app/indexing_pipeline/document_hashing.py:8-14 | the hashed strings of an example |
| Hashing.ContentKeyInjective | nbd_backend/app/indexing_pipeline/document_hashing.py:12-15 | the content string determines search space and text |
| Hashing.DecimalInjective | nbd_backend/app/indexing_pipeline/document_hashing.py:8 | decimal rendering determines the number |
| DocumentChunker.ParseMarkdownIntoSections | nbd_backend/app/indexing_pipeline/document_chunker.py:98-164 | the parsed sections are the outline of the text in order, each pointing at the temporary id of its parent, all ids distinct |
| DocumentChunker.LinkSections | nbd_backend/app/indexing_pipeline/document_chunker.py:127-164 | the stack loop resolves every parent, with at most as many pops as headings |
| DocumentChunker.TopIsParentId | nbd_backend/app/indexing_pipeline/document_chunker.py:141-145 | after popping, the top of the stack is the parent of the defining property |
| SectionForest.ParentUnique | nbd_backend/app/indexing_pipeline/document_chunker.py:141-145 | the parent is the latest earlier section of a lower level, and nothing else |
| SectionForest.OpenStackIsOpenSections | nbd_backend/app/indexing_pipeline/document_chunker.py:141-149 | the stack holds precisely the sections no later one has closed |
| SectionForest.OpenStackIsStack | nbd_backend/app/indexing_pipeline/document_chunker.py:141-149 | levels on the stack strictly increase, and all between two entries is closed |
| DocumentChunker.ParsedForest | nbd_backend/app/indexing_pipeline/document_chunker.py:127-164 | in the output of the parser, following parent ids from a section leads to an earlier one exactly when all headings after that one, up to the section, have greater levels; chains hold at most six sections |
| DocumentChunker.ParsedParent | nbd_backend/app/indexing_pipeline/document_chunker.py:141-145 | a section points at the latest earlier heading of a lower level, and at none when there is none |
| DocumentChunker.LevelsAreThoseOfHeadings | nbd_backend/app/indexing_pipeline/document_chunker.py:132-153 | the levels that determine the tree are those of the headings found |
| DocumentChunker.LinksAreAncestors | nbd_backend/app/indexing_pipeline/document_chunker.py:141-157 | the parent ids lead through the ancestors, nearest first |
| SectionForest.DescendantsAreABlock | nbd_backend/app/indexing_pipeline/document_chunker.py:127-164 | the descendants of a section are exactly the block up to the next section of at most its level |
| SectionForest.BlocksNestOrAreDisjoint | nbd_backend/app/indexing_pipeline/document_chunker.py:127-164 | two blocks are nested or disjoint |
| SectionForest.AncestorChainsAreShort | nbd_backend/app/indexing_pipeline/document_chunker.py:132 | a section has fewer ancestors than its level, so chains hold at most six sections |
| DocumentChunker.SpansTileTheText | nbd_backend/app/indexing_pipeline/document_chunker.py:136-138 | heading spans and unstripped bodies concatenate to the text from the first heading to the end |
| DocumentChunker.OutlineCoversTheText | nbd_backend/app/indexing_pipeline/document_chunker.py:122-164 | each section has the title, level and type of its heading, stores its span followed by its stripped body, and has the chunks of that body in order; without a heading one section carries the whole text |
| RankFusion.MergeRrfResults | nbd_backend/app/retriever/nfd_docs_hybrid_search.py:92-145 | the output is a correct merge: all and only the documents present, distinct, by non-increasing score, cut as the slice does, each with its own payload |
| RankFusion.BuildRanks | nbd_backend/app/retriever/nfd_docs_hybrid_search.py:98-105 | the rank of a document is its first position |
| RankFusion.CollectData | nbd_backend/app/retriever/nfd_docs_hybrid_search.py:125-133 | the payload is the first entry of a document not known yet |
| RankFusion.MergeScores | nbd_backend/app/retriever/nfd_docs_hybrid_search.py:114-123 | the score adds one term per list that has the document |
| RankFusion.FirstIsAtRank | nbd_backend/app/retriever/nfd_docs_hybrid_search.py:100-129 | the first entry, which gives the payload, is the one at the rank, which gives the score |
| RankFusion.DominanceInOutput | nbd_backend/app/retriever/nfd_docs_hybrid_search.py:114-137 | a document at least as good in both lists and better in one is placed strictly earlier, absence being the worst rank |
| RankFusion.OutputIsTheBest | nbd_backend/app/retriever/nfd_docs_hybrid_search.py:135-143 | nothing left out beats anything kept |
| RankFusion.OutputLength | nbd_backend/app/retriever/nfd_docs_hybrid_search.py:135-143 | `top_k` results when there are that many documents, else all of them, and the documents are those of some entry |
| RankFusion.SharedEntry | nbd_backend/app/retriever/nfd_docs_hybrid_search.py:114-143 | a document first found at given places in both lists has the payload of the primary entry and the sum of both reciprocals |
| RankFusion.SingleEntry | nbd_backend/app/retriever/nfd_docs_hybrid_search.py:114-143 | a document in one list has the payload found there and that one reciprocal |
| RankFusion.AgreementWinsExactly | nbd_backend/app/retriever/nfd_docs_hybrid_search.py:92-145 | on lists of at most `n` distinct documents every shared document beats every single one if and only if `n` is at most 61 |
| RankFusion.AgreementBeatsSingle | nbd_backend/app/retriever/nfd_docs_hybrid_search.py:117-123 | with at most 61 entries per list a shared document scores strictly above a single one |
| RankFusion.AgreementTiesFrom62 | nbd_backend/app/retriever/nfd_docs_hybrid_search.py:117-123 | with 62 distinct documents, two bottom ranks tie with one first rank |
| RankFusion.SharedComeFirst | nbd_backend/app/retriever/nfd_docs_hybrid_search.py:474-479 | with such lists every shared document precedes every single one in the output |
| ChunkGrouping.FetchChunksForDocuments | nbd_backend/app/retriever/nfd_docs_hybrid_search.py:61-89 | each requested document gets exactly its first chunks up to the cap, empty if it has none |
| ChunkGrouping.FirstChunksAreFirst | nbd_backend/app/retriever/nfd_docs_hybrid_search.py:80-87 | these are the first 30 chunks of the document in any interleaving |
| ChunkGrouping.HybridSearch | nbd_backend/app/retriever/chunks_hybrid_search.py:313-421 | the results are the first `top_k` documents in order, each with its best score and its kept chunks |
| ChunkGrouping.GroupByDocument | nbd_backend/app/retriever/chunks_hybrid_search.py:336-348 | documents in order of first appearance, scored by their best row |
| ChunkGrouping.DocsAreDistinct | nbd_backend/app/retriever/chunks_hybrid_search.py:337-345 | each document of a row appears once, and no other does |
| ChunkGrouping.BestScoreIsMaximum | nbd_backend/app/retriever/chunks_hybrid_search.py:343-348 | the score of a document is the maximum of its rows |
| ChunkGrouping.GroupsAreRanked | nbd_backend/app/retriever/chunks_hybrid_search.py:336-351 | for rows in descending score the documents are in non-increasing score |
| ChunkGrouping.CapChunks | nbd_backend/app/retriever/chunks_hybrid_search.py:373-380 | the counting loop keeps exactly the chunks matched or among the first 30 of their document |
| ChunkGrouping.CountsAgree | nbd_backend/app/retriever/chunks_hybrid_search.py:377-380 | counting kept chunks, as the loop does, and counting all chunks agree on what is below 30 |
| ChunkGrouping.CapIsRespected | nbd_backend/app/retriever/chunks_hybrid_search.py:373-380 | a document keeps at most 30 chunks plus its matched ones |
| ChunkGrouping.KeptChunksAreKept | nbd_backend/app/retriever/chunks_hybrid_search.py:375-380 | every matched chunk that was fetched is kept |
| ChunkGrouping.KeptExactly | nbd_backend/app/retriever/chunks_hybrid_search.py:373-380 | a chunk is kept if and only if it was matched or fewer than 30 chunks of its document come before it |
| ChunkGrouping.CappedKeepsOrder | nbd_backend/app/retriever/chunks_hybrid_search.py:374-380 | kept chunks stay in order |
| ChunkGrouping.ResultHasItsChunks | nbd_backend/app/retriever/chunks_hybrid_search.py:369-412 | in the result of a document are exactly its fetched chunks that were hit or are among its first 30 |
| ChunkGrouping.DocsByFirstHit | nbd_backend/app/retriever/chunks_hybrid_search.py:337-345 | documents are listed in the order of their first hits |
| ChunkGrouping.Assemble | nbd_backend/app/retriever/chunks_hybrid_search.py:382-412 | every selected document gets its own kept chunks in order |
| RateLimits.RateLimiter.CheckMemory | nbd_backend/app/app.py:99-128 | the in-memory check decides and records as the request log of the key determines; other keys are untouched |
| RateLimits.RateLimiter.Check | nbd_backend/app/app.py:131-169 | the Redis check likewise, with the in-memory fallback |
| RateLimits.ListIsExactExactlyInOrder | nbd_backend/app/app.py:108-128 | for every limit, the pruned list counts what the full log counts if and only if the request is not late: nothing in its window was out of the window of an arrival in between |
| RateLimits.AcceptanceIsExact | nbd_backend/app/app.py:110-128 | a request in order is accepted exactly when fewer than the limit were accepted in the last window |
| RateLimits.AcceptedExactlyByRecent | nbd_backend/app/app.py:111-128 | that is, when the log has fewer than the limit of requests younger than the window |
| RateLimits.ListIsTheLogInWindow | nbd_backend/app/app.py:111-128 | the stored list is the accepted timestamps inside the window at the last check |
| RateLimits.MemoryWindowBoundWithLate | nbd_backend/app/app.py:108-128 | in any order, a half-open interval of the window length holds at most the limit plus the late arrivals in it |
| RateLimits.MemoryWindowBound | nbd_backend/app/app.py:110-128 | with all requests in order it holds at most the limit |
| RateLimits.LateRequestOvershoots | nbd_backend/app/app.py:108-110 | the clock is read before the lock: one late request makes one window hold three acceptances at limit two, so that bound is reached |
| RateLimits.LateButBounded | nbd_backend/app/app.py:108-128 | a late request need not overshoot: a log with one that keeps the bound for every limit |
| RateLimits.FallbackDoublesTheBound | nbd_backend/app/app.py:131-169 | however Redis comes and goes, a window holds at most twice the limit |
| RateLimits.CounterCountsSinceLastGap | nbd_backend/app/app.py:145-149 | the counter counts all requests, rejected ones too, since the last gap of at least the window |
| RateLimits.RedisSimulatesIntoMemory | nbd_backend/app/app.py:145-169 | whatever the Redis path accepts the in-memory path accepts too |
| RateLimits.RedisWindowBound | nbd_backend/app/app.py:145-169 | so the Redis path keeps the window bound too |
| RateLimits.RedisAcceptsExactly | nbd_backend/app/app.py:145-169 | the Redis path accepts exactly when at most the limit came since the last gap, the new request included |
| RateLimits.LastGapExists | nbd_backend/app/app.py:145-149 | every log that is not empty has a last gap |
| RateLimits.LimitersDisagreeExactly | nbd_backend/app/app.py:110-169 | the two limiters disagree exactly when fewer than the limit were accepted in the last window but more than the limit came since the last gap |
| RateLimits.MemoryAcceptsWhatRedisRejects | nbd_backend/app/app.py:110-169 | an input on which they disagree |
| RateLimits.LockoutLasts | nbd_backend/app/app.py:145-169 | over the Redis limit, a client that keeps calling within the window stays locked out |
| RateLimits.KeysDoNotCollide | nbd_backend/app/app.py:107 | keys of different scopes or clients differ |
| DriveWalk.FetchFolderFilesRecursively | nbd_backend/app/connectors/composio_google_drive_connector.py:1533-1609 | whatever is answered and however answers change, the limit holds, everything returned is a file from a page answered for a folder within the depth, and the walk terminates; a consistent drive, cyclic or not, yields the first files of the depth-limited depth-first listing |
| DriveWalk.FetchPage | nbd_backend/app/connectors/composio_google_drive_connector.py:1567-1603 | one round of the page loop keeps what is fetched plus what is ahead equal to the listing, and the token chain descends |
| DriveWalk.TakePage | nbd_backend/app/connectors/composio_google_drive_connector.py:1579-1599 | the loop over one page keeps what is fetched plus what is ahead equal to the listing, up to the limit |
| DriveWalk.TakeEntry | nbd_backend/app/connectors/composio_google_drive_connector.py:1584-1596 | so does one entry, which is kept if it is a file and descended into if it is a folder |
| DriveWalk.FolderStaysOnTrack | nbd_backend/app/connectors/composio_google_drive_connector.py:1584-1594 | cutting a subfolder off at the remaining count loses nothing of the prefix |
| DriveWalk.ContentIsAllPages | nbd_backend/app/connectors/composio_google_drive_connector.py:1566-1603 | what a consistent drive has in a folder is the concatenation of its pages, following every token that is not empty |
| DriveWalk.PagedDriveIsConsistent | nbd_backend/app/connectors/composio_google_drive_connector.py:1566-1603 | every drive that pages through listings meets the assumptions of the walk, however its folders are nested |
| DriveWalk.AheadMeans | nbd_backend/app/connectors/composio_google_drive_connector.py:1601-1603 | an absent or empty token ends the listing |
| DriveWalk.WalkMeans | nbd_backend/app/connectors/composio_google_drive_connector.py:1579-1596 | the listing, entry by entry: files as they come, folders replaced by what is below them |
| DriveWalk.DepthIsCounted | nbd_backend/app/connectors/composio_google_drive_connector.py:1555-1560 | how depth and count limits cut the listing, on an example |
| TokenRefresh.AuthUtils.RefreshAccessToken | nbd_web/lib/auth-utils.ts:203-248 | a caller joins the kept promise, gets null, or starts a request, and nothing else changes |
| TokenRefresh.AuthUtils.OnHeaders | nbd_web/lib/auth-utils.ts:226-230 | a refusal clears both tokens and settles with null |
| TokenRefresh.AuthUtils.OnBody | nbd_web/lib/auth-utils.ts:232-238 | a complete pair is stored and its access token returned; an incomplete one stores nothing |
| TokenRefresh.AuthUtils.Finally | nbd_web/lib/auth-utils.ts:241-244 | flag and promise are reset as the promise settles |
| TokenRefresh.OneRequestInFlight | nbd_web/lib/auth-utils.ts:203-215 | in every reachable state at most one request is open, every caller then joins it and no request starts; otherwise a caller with a stored token starts one |
| TokenRefresh.ResultsAreFinal | nbd_web/lib/auth-utils.ts:205-207 | a settled promise never changes, so all joiners see the same result |
| TokenRefresh.SpentTokenIsSentExactly | nbd_web/lib/auth-utils.ts:209-223 | a starting request may carry a token already exchanged, for all the page can tell, if and only if the page saw a request with the stored token fail |
| TokenRefresh.SpentIsReplyLost | nbd_web/lib/auth-utils.ts:209-223 | it does carry one exactly when the reply to that exchange was lost |
| TokenRefresh.TokensAreSentOnce | nbd_web/lib/auth-utils.ts:209-223 | no token is sent twice unless its earlier request failed |
| TokenRefresh.LostReplyResendsSpentToken | nbd_web/lib/auth-utils.ts:239-244 | a run in which a reply is lost and the next request carries the spent token |
| TokenRefresh.SettlingStoresThePair | nbd_web/lib/auth-utils.ts:226-240 | success stores the pair issued for that very request and returns its access token, a refusal clears both tokens, a failure keeps both |
| TokenRefresh.OnlyCompletePairsAreStored | nbd_web/lib/auth-utils.ts:232-238 | a reply that lacks a token stores nothing and settles with null, a complete one is stored |
| TokenRefresh.AnswersDecide | nbd_web/lib/auth-utils.ts:226-241 | an answer that is not ok clears both tokens, one that is ok changes none yet, and a failure changes none |
| TokenRefresh.CallerGetsItsPromise | nbd_web/lib/auth-utils.ts:205-215 | a caller that finds no request open starts one with the stored token and is given its promise, or null without a token |
| TokenRefresh.WritersDecideTheNextToken | nbd_web/lib/auth-utils.ts:95-124 | the next request carries the refresh token stored last; after clearing none starts |
| TokenRefresh.ResultIsTheIssuedToken | nbd_web/lib/auth-utils.ts:232-236 | a successful result is the access token the server issued for that request |
| TokenRefresh.EveryRunKeepsInvariant | nbd_web/lib/auth-utils.ts:203-248 | the invariant behind these, over every interleaving of callers, responses, failures and other writers |

## Left out

Assumptions about what the model does not contain:

- Libraries: the heading expression, stripping, lower-casing, plain text, title keywords, the chunker, the
  digest and the embedder are tables of deterministic functions. `Sound` assumes that headings are ordered,
  non-empty, non-overlapping spans of levels 1 to 6, and that SHA-256 is injective.
- IndexingPipeline.Index: requires that the row has the content hash of the connector document, or that the
  document was rebuilt from the row's own source, as `reindex` does; a second worker that changes the row
  before the call is not modelled.
- IndexingRuns.EveryRunKeepsRows: says nothing of rows that other code stored and the pipeline never inserted,
  rewrote, re-indexed or indexed while honest, such as ready rows of the older file processors. Editing a
  row's source is not an event of a run; re-indexing it afterwards is.
- The drive: `FiniteChains` assumes that page tokens do not run in circles inside one folder, without which
  the original does not terminate either. The page size is part of each request, and any answer to it is allowed.
- Tokens: other writers of the page store only new tokens, and the server issues new ones; it need not
  refuse spent ones. Other tabs share storage but not the module variables and are not part of this model.

Not modelled:

- Cancellation, a commit whose outcome is unknown, and an exception that escapes from the rollback in
  `prepare_for_indexing`, which the model turns into an empty result on an unusable session.
- Concurrent sessions. A conflict with another writer is a scripted failure.
- The choice of error message: the message of a failure is arbitrary, cut at 500 characters.
- Columns that carry constants or are not read here: `chunk_type`, chunk and section metadata,
  `connector_id`, `created_by_id`, editor state. Document ids are positions in the table, section ids and
  temporary ids are unused numbers, and one call has one timestamp.
- `should_use_code_chunker`: the parser does not pass it on, in the original either.
- DocumentChunker.LinkSections: takes the contents of the sections as computed beforehand; the original
  computes them in the same loop.
- Rounding of scores: they are reals. The order of ties is left open, as the original sorts a set.
- The limits of login, registration and password reset: a limiter is given the policy of each scope.
- Reading a document id from a result dictionary, the document dictionaries in search results and the
  joining of chunk texts; the ids and chunk lists are modelled.
- The queries themselves: their rows are inputs.
- RateLimits.MemoryWindowBound: requests in order suffice for the bound but are not necessary for it
  (`LateButBounded`); with late requests it is `MemoryWindowBoundWithLate`.
- RateLimits.RateLimiter.Check: takes Redis to expire keys by the same clock, and an unavailable Redis to
  have counted nothing; the constant prefix of Redis keys is dropped.
- Browser storage that raises when it is written to, between the two token setters.
- Redirects, headers and the retry in `authenticatedFetch`, and rotation of refresh tokens on the server.
- Delta synchronisation, routes, permissions, migrations and the user interface: plumbing around the parts above.
