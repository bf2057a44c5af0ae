# Verification of the local graph RAG pipeline

This project models the parts of the repository that keep state across crashes, threads and
re-runs, and proves what they promise. `dafny verify dfyconfig.toml` checks all of it.

| Files | What they model |
|---|---|
| `Records`, `Integrity`, `GraphStore` | the SQLite tables, every write transaction as a function and as a method of a store class that works statement by statement and rolls back, and what each transaction keeps |
| `Extraction`, `Extractor` | batching, normalising and the extraction cache |
| `Ingestion`, `IngestionSafety`, `IngestionTheorems`, `IngestionRecovery`, `IngestionContents`, `Indexer` | ingestion over SQLite and Qdrant: a state machine in which every transaction and every Qdrant call is a step that may be the last, may fail, and may apply to a part of its points; its invariant; the theorems over all runs; and the indexer class whose every call is proved to be such a step |
| `Scan`, `Reindex` | the walk over directories that may fail to list or enter, which tracked paths count as deleted, and a whole run fed by that walk |
| `Clusters`, `Neighborhood`, `Summaries` | community placement, budgeted breadth-first expansion, the summary cache by content |
| `Text`, `Slug`, `Splitter`, `Ink`, `Markdown`, `SourceLines`, `PythonSource`, `Chunkers`, `GitHistory` | entity ids, recursive splitting with overlap, fence-aware sections, which characters of a Python file its chunks hold, chunking of every file type, reading and rendering git history |
| `Bridge`, `Permits`, `Connections` | the thread-to-async streaming bridge, admission by permits, and the connection registry, each as interleaved steps |

A run of a protocol is any sequence of enabled steps from its start. Assumptions are parameters
of the model: `World` and `Model` hold the hash, the chunker, the LLM as a function of its request,
the matcher of names in text; `Lawful` says that the two hashes are injective. What fails is
chosen freely at every call, except that a store said to be `reliable` never does, and an indexer
said to be `calm` can read and embed every file and has every request answered.

Results that differ from the documentation:

- `index_documents.py:271-277` says that a crash between the two deletes heals on the next run. A
  file indexed without failure is whole again, and after a complete run without failures so is
  every file found, except one that lacked vectors and was taken for current when the run began
  (`Indexers.Indexer.IndexFile`, `Indexers.Indexer.RunOnce`). Such a file, left by restoring the
  fingerprinted content after the crash (`IngestionRecovery.TornFileStaysSkipped`), stays as it is
  through every run until it is edited or deleted (`IngestionRecovery.CurrentIsNeverTouched`).
  Exactly the files in that window lack vectors (`IngestionTheorems.NoOrphanVectors`).
- `chunkers.py:121-126` leaves out bare imports on purpose, but they are not all that is left out.
  A comment behind a statement on its line is in no chunk (`PythonSource.TrailingCommentIsLost`),
  and where str.splitlines breaks a line that the parser does not, comments are lost and code is
  said twice (`PythonSource.FormFeedShiftsLines`). `PythonSource.NothingLostIff` says exactly when
  nothing but imports is lost.
- `chunkers.py:194` calls `buf_len` the length of the join. It is the length without leading empty
  paragraphs (`Chunkers.JoinWithoutTrim`), so a packed chunk can exceed the maximum before it is
  stripped (`Chunkers.PackedCanExceedMaximum`).
- `chunkers.py:187` and `chunkers.py:217` promise that Markdown chunks fit within the maximum. Also
  after stripping they do so for every section and document exactly when the overlap is 0 or the
  maximum has room for size, overlap and one separator (`Chunkers.MaximumKeptIff`). The settings
  check allows others: under size 2, overlap 1 and maximum 2 the section `a bb` comes out whole
  (`Chunkers.WideSectionExceeds`).
- A stream can end normally although its last piece was dropped after a put waited too long
  (`Bridge.SilentTruncation`), although the generator was abandoned after such a put whose piece
  still got through (`Bridge.AbandonedGenerator`), or although the generator raised and its error
  was dropped (`Bridge.SilentError`). `Bridge.NormalEndIsCompleteIff` says exactly when.
- `git_history.py:60-61` indents bodies so that they cannot open a section. A subject can: git prints
  no line feed there, but for str.splitlines U+0085, among others, ends a line, and a subject with
  one and a heading behind it opens two sections that no commit has
  (`GitHistory.BrokenSubjectOpensSections`, `GitHistory.RenderBrokenSubject`). Every line of the
  document is read back as it was written exactly when repository name, hashes, dates, subjects and
  shown file names hold no line break (`GitHistory.RenderThenSplit`); reading the log makes file
  names single lines (`GitHistory.LogToSections`).
- `summarizer.py:36-43` promises that a content-only change invalidates a summary. It does unless a
  field holds a line feed or the separator of fields (`Summaries.SameContentIff`); such a field can
  make two communities look alike (`Summaries.LineBreakCollides`).

## Model

| member | source | states |
|---|---|---|
| Records.TopType | src/local_graph_rag/graph/record_store.py:35-39 | the entity type shown is the most common non-null type among the mentions, ties to the smallest, and null exactly when no mention has a type |
| Records.TopTypeUnique | src/local_graph_rag/graph/record_store.py:35-39 | such a first type exists and is unique, so the order of mentions cannot matter |
| Records.TopDescription | src/local_graph_rag/graph/record_store.py:40-44 | the description shown is the longest non-empty one, ties to the smallest document, and null exactly when there is none |
| Records.TopDescriptionUnique | src/local_graph_rag/graph/record_store.py:40-44 | that choice exists and is unique |
| Records.OneMentionShown | src/local_graph_rag/graph/record_store.py:35-44 | an entity that one document alone mentions shows that document's type and, unless it is empty, its description |
| TextOrder.LeqIff | src/local_graph_rag/graph/record_store.py:37-43 | the order that breaks ties is that of code points: a text comes before its extensions and before any that is larger where they first differ |
| Integrity.UpsertEntitiesSound | src/local_graph_rag/graph/record_store.py:59-83 | the transaction keeps references, names and the derived columns of all entities although it refreshes only its own ids, and touches no other document's rows |
| Integrity.UpsertEntitiesRecords | src/local_graph_rag/graph/record_store.py:59-83 | id by id: the last row of an id is what the document says of it, the first row of a new id names it, everything said before stays except what this document said of these ids, and an entity no other document mentions shows the last row of its id |
| Integrity.UpsertRelationshipsSound | src/local_graph_rag/graph/record_store.py:85-93 | with mentioned endpoints the transaction keeps every invariant and changes only the document's relationships |
| Integrity.WeightIsCount | src/local_graph_rag/graph/record_store.py:8-13 | a relationship's weight grows by exactly the number of times it is given, from nothing if it is new |
| Integrity.RegisterChunksSound | src/local_graph_rag/graph/record_store.py:95-101 | with fresh ids the transaction adds exactly the document's chunks, numbered in order, and keeps every invariant |
| Integrity.LinkChunksSound | src/local_graph_rag/graph/record_store.py:109-117 | links from the document's chunks to entities it mentions add exactly those links and keep every invariant |
| Integrity.DeleteFileDataSound | src/local_graph_rag/graph/record_store.py:128-156 | deletion leaves nothing of the file but its cache, everything of the others, and every surviving entity as its remaining mentions say |
| Integrity.DeletionErases | src/local_graph_rag/graph/record_store.py:128-156 | row by row: exactly the mentions, relationships, chunks, links to chunks and fingerprint of the file are gone, every other row is unchanged, cached replies stay |
| Integrity.DerivedAfterDelete | src/local_graph_rag/graph/record_store.py:137-156 | refreshing only touched ids leaves no entity's type or description out of date |
| Integrity.UnreferencedIffUnmentioned | src/local_graph_rag/graph/record_store.py:21-28 | after the references are dropped an entity satisfies the unreferenced condition exactly when no document mentions it |
| Integrity.TouchedAreMentioned | src/local_graph_rag/graph/record_store.py:49-55 | the four-way union of touched ids is exactly the set of entities the file mentions |
| Integrity.DeletionKeepsForeignKeys | src/local_graph_rag/graph/record_store.py:137-165 | after every single statement of the deletion and of the purge all foreign keys hold, so none can fail |
| Integrity.EntityStatementsKeepForeignKeys | src/local_graph_rag/graph/record_store.py:59-83 | after every inserted entity, every upserted mention and the refresh all foreign keys hold |
| Integrity.RelationshipStatementsKeepForeignKeys | src/local_graph_rag/graph/record_store.py:85-93 | with existing endpoints all foreign keys hold after every upserted relationship |
| Integrity.LinkStatementsKeepForeignKeys | src/local_graph_rag/graph/record_store.py:109-117 | with existing chunks and entities all foreign keys hold after any part of the links |
| Integrity.PurgeRestores | src/local_graph_rag/graph/record_store.py:158-165 | purging a file from tables that agree with earlier ones on everything else restores those tables exactly |
| Integrity.SameMentionsSameEntities | src/local_graph_rag/graph/record_store.py:30-47 | equal mentions give equal entity ids, types and descriptions, whatever order wrote them |
| Stores.GraphStore.Finish | src/local_graph_rag/graph/store.py:140-152 | a transaction commits what was written or leaves the tables as they were at its begin, also when the commit fails; it commits if nothing fails |
| Stores.GraphStore.UpsertEntities | src/local_graph_rag/graph/record_store.py:59-83 | the statements together are the specified transaction, all or nothing: for every id the last of its rows is what the document says of it, the first names a new entity, an entity no other document mentions shows that last row; the returned ids are the rows' own in order; an empty slug raises |
| Stores.GraphStore.UpsertRelationships | src/local_graph_rag/graph/record_store.py:85-93 | all or nothing, every relationship given weighs as often more as it is given and no other changes |
| Stores.GraphStore.RegisterChunks | src/local_graph_rag/graph/record_store.py:95-101 | id i becomes chunk i of the file and every other chunk stays, all or nothing |
| Stores.GraphStore.LinkChunks | src/local_graph_rag/graph/record_store.py:109-117 | exactly the given links are added, duplicates ignored, all or nothing |
| Stores.GraphStore.DeleteFileRows | src/local_graph_rag/graph/record_store.py:137-156 | the seven statements in order amount to the specified deletion, which takes exactly the rows of the file |
| Stores.GraphStore.PurgeFile | src/local_graph_rag/graph/record_store.py:158-165 | exactly the rows and cached extractions of the file go, in one transaction |
| Extraction.NormalizedMeaning | src/local_graph_rag/graph/extractor.py:152-172 | an id is kept exactly when some raw entity has it and it is not empty; its name is the first, its description the first longest, its type the first given |
| Extraction.NormalizedInOrder | src/local_graph_rag/graph/extractor.py:152-172 | the rows come in the order in which their ids first occur, one for each id that is not empty |
| Extraction.UsableInOrder | src/local_graph_rag/graph/extractor.py:175-185 | a relationship with all three fields and known endpoints is kept as often as it is given, in the order given, and no other is |
| Extraction.GroupsPartition | src/local_graph_rag/graph/extractor.py:188-202 | the batches hold all chunks once in order, each within the token limit unless it is a single chunk |
| Extraction.GroupsAreGreedy | src/local_graph_rag/graph/extractor.py:188-202 | a batch ends only where the next chunk, at a token for four characters, does not fit |
| Extraction.BatchesMeaning | src/local_graph_rag/graph/extractor.py:188-202 | these conditions and the separator between chunks make up the batches |
| Extraction.AfterBatchesSound | src/local_graph_rag/graph/extractor.py:205-234 | a file's batches keep the cache sound; the raw entities are those of the model's replies to the answered batches, one after the other, and likewise the relationships; failure is reported exactly when a batch was not answered |
| Extraction.ExtractMeaning | src/local_graph_rag/graph/extractor.py:252-287 | with every batch answered: chunks make batches as long as the limit allows, the replies are put together in order with every entry as often as given, and what is kept of them is the rows and relationships in the order and multiplicity given |
| Extraction.AnsweredAreCached | src/local_graph_rag/graph/extractor.py:205-234 | an answered batch is replayed from then on: the cache holds the model's reply under its file, number and request |
| Extraction.OtherRepliesStay | src/local_graph_rag/graph/extractor.py:205-234 | no cached reply but those to the file's own batches changes |
| Extraction.LookupIsModelReply | src/local_graph_rag/graph/record_store.py:177-186 | a cache hit is the model's own reply to exactly this request |
| Extraction.CacheTransparency | src/local_graph_rag/graph/extractor.py:252-287 | from any cache left by past sessions of other files, models and prompts, cut short or purged, an extraction without failure equals one with an empty cache, and failure is reported exactly when a batch failed |
| Extractor.BuildBatches | src/local_graph_rag/graph/extractor.py:188-202 | the loop computes these batches: all chunks in order, closed only where the next does not fit |
| Extractor.NormalizeEntities | src/local_graph_rag/graph/extractor.py:152-172 | one row for each id in the order of first occurrence, with the first spelling, the first type given and the first longest description |
| Extractor.NormalizeRelationships | src/local_graph_rag/graph/extractor.py:175-185 | exactly the relationships with all three fields and known endpoints are kept, in order and as often as given |
| Extractor.LoadOrExtractBatch | src/local_graph_rag/graph/extractor.py:205-234 | an answer is the cached or the model's reply, and the cache changes as the batch step says |
| Extractor.ExtractEntitiesForFile | src/local_graph_rag/graph/extractor.py:252-287 | every batch is answered or fails on its own; the result is what the replies to the answered batches hold, put together in order, entities merged by id, usable relationships as often and in the order given; failure is reported exactly when a batch failed, never if model and store answer |
| IngestionSafety.ActionKeeps | src/local_graph_rag/ingest/index_documents.py:236-343 | every step, whatever part of it applied, keeps the whole invariant |
| IngestionSafety.QdrantDeleteKeeps | src/local_graph_rag/ingest/index_documents.py:135-138 | a delete that applies to any part of a file's points leaves no orphan and touches no other file |
| IngestionSafety.LinksCommitKeeps | src/local_graph_rag/ingest/index_documents.py:205-233 | linking completes the file's rows to exactly those its content determines |
| IngestionTheorems.NoOrphanVectors | src/local_graph_rag/ingest/index_documents.py:135-138 | in every reachable state each vector is registered under its own file and number, and a fingerprinted file has all its vectors if and only if it is not torn |
| IngestionTheorems.EveryTraceIsTracked | src/local_graph_rag/graph/record_store.py:206-213 | in every reachable state any mention, relationship, link, vector, fingerprint or cached reply of a file makes the file appear in the list of all paths, and nothing else does |
| IngestionTheorems.ReferencesHold | src/local_graph_rag/graph/store.py:27-44 | in every reachable state all foreign keys hold, an entity exists exactly when mentioned, and endpoints and links of a file are mentioned by that file |
| IngestionTheorems.NoStatementBreaksForeignKeys | src/local_graph_rag/graph/store.py:27-44 | in every reachable state no statement of the transaction that the job runs next, be it deletion, registration, upsert or linking, leaves a foreign key broken |
| IngestionTheorems.MaterialisedView | src/local_graph_rag/graph/record_store.py:30-47 | in every reachable state every entity shows the type and description that all its current mentions, document by document, determine |
| IngestionTheorems.IncrementalEqualsFromScratch | src/local_graph_rag/ingest/index_documents.py:301-343 | two reachable states over the same disk in which every file's fingerprint is current and nothing else is tracked agree on mentions, weights, links, entity ids, types and descriptions, however many crashes and edits lie behind them |
| IngestionTheorems.SearchableIsWanted | src/local_graph_rag/ingest/index_documents.py:286-298 | what is searchable of a current file that is not torn is exactly its chunks, each under its number |
| IngestionContents.HistoryIsNeverExtracted | src/local_graph_rag/ingest/index_documents.py:253-259 | in every reachable state no mention, relationship, link or cached reply belongs to a git history document |
| IngestionContents.CurrentChunks | src/local_graph_rag/ingest/index_documents.py:286-298 | a current file, history or not, has exactly one chunk for each of its pieces |
| IngestionContents.CurrentIsExtracted | src/local_graph_rag/ingest/index_documents.py:236-268 | of every other current file the tables hold exactly what extraction yields from all of its pieces: a mention for each entity with its type and description, each relationship weighed by how often the replies give it, and a link wherever a name of three characters or more occurs in a piece |
| IngestionRecovery.PurgeUndoesIngest | src/local_graph_rag/graph/record_store.py:158-165 | after any work on one file alone, cut short anywhere, purging it restores every table and vector of a state that held nothing of it, names, types and descriptions of shared entities included |
| IngestionRecovery.CleanRunCatchesUp | src/local_graph_rag/ingest/index_documents.py:407-444 | from every reachable state some run without faults reaches a caught-up one over the same disk, so catching up is always possible; what every run of the indexer achieves is stated at RunOnce |
| IngestionRecovery.FromScratchExists | src/local_graph_rag/ingest/index_documents.py:301-343 | every disk can be indexed into an empty store with nothing torn, so the equality with indexing from scratch is never vacuous |
| IngestionRecovery.TornFileStaysSkipped | src/local_graph_rag/ingest/index_documents.py:271-279 | a crash between the two deletes followed by restoring the old content leads to a state in which the file counts as current, cannot be indexed, and has no vector |
| IngestionRecovery.CurrentIsNeverTouched | src/local_graph_rag/ingest/index_documents.py:310-316 | through every run in which a current file is neither edited nor deleted no job for it begins and all its rows and vectors, or their lack, stay exactly as they are |
| IngestionRecovery.WorkTouchesOnly | src/local_graph_rag/ingest/index_documents.py:236-279 | work on one file leaves every row and vector of every other file as it was |
| Indexers.Indexer.DeleteVectors | src/local_graph_rag/ingest/index_documents.py:135-138 | the call is the protocol's delete step, also when it fails in part |
| Indexers.Indexer.CleanupChangedFile | src/local_graph_rag/ingest/index_documents.py:271-279 | vectors go before rows, and on success the file is ready to be written anew |
| Indexers.Indexer.MatchEntityChunks | src/local_graph_rag/ingest/index_documents.py:205-233 | the pairs are exactly the chunks and entities whose name has three characters or more and occurs there |
| Indexers.Indexer.WriteIndexData | src/local_graph_rag/ingest/index_documents.py:236-268 | every prefix of the writes is a run of the protocol on this file alone, git history being embedded but never extracted; when all succeeded without extraction failure the fingerprint is the new hash and the file has all its vectors; without faults they do succeed |
| Indexers.Indexer.IndexFile | src/local_graph_rag/ingest/index_documents.py:301-343 | skipped, or indexed without failure, means the file is current and lacks vectors exactly if it did before and was taken for current then; a file that was current, or cannot be read or embedded, changes nothing; without faults a file is skipped if it was current or yields no pieces and indexed without failure otherwise |
| Indexers.Indexer.PurgeDeleted | src/local_graph_rag/ingest/index_documents.py:427-432 | the loop stops tracking exactly the stale paths, or stops at an error, and never touches another file |
| Indexers.Indexer.IndexFiles | src/local_graph_rag/ingest/index_documents.py:434-444 | without failures every file listed is current and lacks vectors exactly if it did before and was current then; files not listed or already current are left exactly as they were |
| Indexers.Indexer.RunOnce | src/local_graph_rag/ingest/index_documents.py:407-454 | a run that completes without failures makes every file found current, heals every one that lacks vectors unless it was taken for current, and leaves nothing tracked but those and the unscanned ones; however it goes, current files found and unscanned files not found are left exactly as they were; without faults it does complete without failures |
| Indexers.Indexer.CatchUp | src/local_graph_rag/ingest/index_documents.py:407-454 | a complete run without failures over exactly the files on disk ends caught up, and its stores agree with every caught-up store over this disk, one indexed from empty among them, on all that IncrementalEqualsFromScratch compares; without faults every run is such a one |
| Reindexing.Reindex | src/local_graph_rag/ingest/index_documents.py:407-444 | with the scan's own result: a file that an index path leads to keeps everything the stores hold of it if it is current or the walk did not reach it, however scan and run fail; after a completed run nothing is tracked but what was found or lies out of sight |
| Scan.AcceptFiles | src/local_graph_rag/ingest/index_documents.py:346-373 | exactly the accepted files of the directory, or none when inspecting one raises, which it does exactly when the directory cannot be entered and names a file to inspect |
| Scan.WalkTree | src/local_graph_rag/ingest/index_documents.py:350-373 | the files are exactly those found and the unscanned directories exactly those where the walk fails, in any tree |
| Scan.LeadsIff | src/local_graph_rag/ingest/index_documents.py:350-373 | the walk leads exactly to the safe files not ignored at the end of a way through directories that are no links and neither excluded nor ignored, on a recursive path if there are any |
| Scan.CollectFiles | src/local_graph_rag/ingest/index_documents.py:376-404 | files and unscanned paths of all index paths, one that shows no file being unscanned as a whole |
| Scan.FindStale | src/local_graph_rag/ingest/index_documents.py:419-421 | the stale paths are exactly the tracked ones neither found nor under an unscanned path |
| Scan.LeadsIsFoundOrFails | src/local_graph_rag/ingest/index_documents.py:350-373 | an accepted file reachable through non-excluded directories is found unless the walk failed at a directory above it |
| Scan.HeldIsNeverStale | src/local_graph_rag/ingest/index_documents.py:376-404 | such a file is never purged, whatever fails |
| Scan.NothingShownNothingStale | src/local_graph_rag/ingest/index_documents.py:376-404 | nothing below an index path that shows no file is purged |
| Scan.ReadableStaleIff | src/local_graph_rag/ingest/index_documents.py:419-421 | when every directory can be read the stale paths are exactly the tracked ones no index path holds |
| Clusters.BallIsDistance | src/local_graph_rag/graph/community_store.py:31-37 | the entities placed by round r are exactly those a chain of at most r co-occurrences leads to |
| Clusters.AffinityTable | src/local_graph_rag/graph/community_store.py:41-46 | the table holds exactly the unplaced entities next to placed ones, with the exact sum of weights for each community |
| Clusters.OneMoreEdge | src/local_graph_rag/graph/community_store.py:41-46 | a co-occurrence of an unplaced entity with a member of a community adds exactly its weight to the score, whichever way round |
| Clusters.BestOf | src/local_graph_rag/graph/community_store.py:50 | the community with the largest affinity, ties to the lowest |
| Clusters.AttachRound | src/local_graph_rag/graph/community_store.py:40-52 | a round places the whole frontier, each entity by the placements before the round, and nothing else moves |
| Clusters.UnplacedInOrder | src/local_graph_rag/graph/community_store.py:53-60 | what is left to cluster are the co-occurrences among unplaced entities, each as often and in the order given |
| Clusters.Cluster | src/local_graph_rag/graph/community_store.py:28-60 | the loop ends; the result partitions the relationship and co-occurrence nodes; an entity is placed exactly when a chain of co-occurrences leads to it, in the round of its shortest distance, with its best community then; the rest are Louvain's communities of the unplaced edges, and no co-occurrence joins one to a placed entity |
| Neighborhood.HopMeaning | src/local_graph_rag/graph/community_store.py:165-191 | an unlimited hop reaches exactly the unchosen neighbours of the frontier, each once |
| Neighborhood.NextHop | src/local_graph_rag/graph/community_store.py:165-191 | a hop under a budget is the first entries of the unlimited one, for whatever ranking |
| Neighborhood.RankingIsUnique | src/local_graph_rag/graph/community_store.py:167-177 | the ranking is the one list of an entity's neighbours, each once, by summed weight of the relationships in both directions, ties by id |
| Neighborhood.OneMoreEdge | src/local_graph_rag/graph/community_store.py:167-177 | a relationship adds its whole weight to the tie of the two entities it joins, whichever way it points, and makes them neighbours |
| Neighborhood.HopIsNextLayer | src/local_graph_rag/graph/community_store.py:165-191 | a hop adds the unchosen neighbours of the frontier, each once, in the order of the first round and, in a round, the first parent that finds them; a parent finds a neighbour in the round given by how many of its unchosen neighbours are heavier, or as heavy with a smaller id |
| Neighborhood.LayerOrder | src/local_graph_rag/graph/community_store.py:165-191 | of two entities a hop adds, one comes before the other exactly when its least pair of rank and parent is smaller |
| Neighborhood.HeavierComesFirst | src/local_graph_rag/graph/community_store.py:165-191 | of two neighbours of a single seed the heavier comes first, whichever way the relationships point |
| Neighborhood.Expand | src/local_graph_rag/graph/community_store.py:117-141 | over the relationships themselves the selection is, up to the budget, the seeds and then layer by layer what each hop adds to all layers before, in that order |
| Neighborhood.UnlimitedMeaning | src/local_graph_rag/graph/community_store.py:134-141 | without a budget the selection is, without duplicates, exactly the ball of that many hops around the seeds |
| Neighborhood.ExpandNeighborhood | src/local_graph_rag/graph/community_store.py:134-141 | the loop with its early exits selects the first entries of the unlimited search |
| Neighborhood.SelectionWithinBudget | src/local_graph_rag/graph/community_store.py:117-141 | no duplicates, never more than the budget, inside the ball, exactly the ball when the budget is not reached, and a prefix of the selection for any larger budget |
| Summaries.ContentIsOrderIndependent | src/local_graph_rag/graph/summarizer.py:36-54 | the hashed content does not depend on the order in which members and relationships are read |
| Summaries.SameContentIff | src/local_graph_rag/graph/summarizer.py:36-54 | if no field holds a line feed or the field separator, two communities have the same text to hash exactly when members and relationships agree up to order and to missing against empty fields |
| Summaries.LineBreakCollides | src/local_graph_rag/graph/summarizer.py:45-54 | a member whose description holds a line feed and field separators hashes like two members |
| Summaries.Summarizer.SummariesByHash | src/local_graph_rag/graph/summarizer.py:91-92 | every entry is a stored row under its own hash, and every hashed row's hash has an entry |
| Summaries.Summarizer.SummarizeCommunity | src/local_graph_rag/graph/summarizer.py:95-140 | a community without entities is passed over; for another a stored summary of the same content under any id is reused without a model call, otherwise the model is asked once; the row then describes the community, and no other row changes |
| Summaries.Summarizer.SummarizeEach | src/local_graph_rag/graph/summarizer.py:143-166 | the model is asked exactly about the communities whose content no stored summary has; those that went well are the ones counted as summarized, the failures are counted, and all others are counted as skipped |
| Summaries.Summarizer.SummarizeAll | src/local_graph_rag/graph/summarizer.py:143-172 | after a run without failures only active ids are stored and the row of each community that has entities carries its current hash; the model is asked once for each content not stored, for every such community when forced, and the three counts are exact |
| Summaries.Summarizer.SummarizeRenumbered | src/local_graph_rag/graph/summarizer.py:95-172 | when the hash of every community that has entities is stored under any renumbering, nothing is asked and each such id ends with a summary given for exactly its own content |
| Slug.SlugIsWords | src/local_graph_rag/graph/store_utils.py:6-8 | an id is the name's maximal runs of letters and digits joined by single underscores |
| Slug.WordsHold | src/local_graph_rag/graph/store_utils.py:6-8 | the runs hold exactly the letters a to z and digits of the name, in order |
| Slug.SameSlugIff | src/local_graph_rag/graph/store_utils.py:6-8 | two names are one entity if and only if those runs agree |
| Slug.SlugIsStable | src/local_graph_rag/graph/store_utils.py:6-8 | the id of an id is itself |
| Splitter.DropToOverlap | src/local_graph_rag/ingest/chunkers.py:44-47 | parts are dropped from the front until what is left fits the overlap, and not one more |
| Splitter.MergeSplits | src/local_graph_rag/ingest/chunkers.py:33-54 | the chunks are the specified ones, joins of contiguous windows that cover all parts, end later and later and never start earlier; each is as long as fits and carries as much as the overlap allows; none exceeds size, overlap and separator together |
| Splitter.GreedyIsUnique | src/local_graph_rag/ingest/chunkers.py:33-54 | these conditions leave only one possible list of windows |
| Splitter.FreshPartsCover | src/local_graph_rag/ingest/chunkers.py:33-54 | what is new in each window, in order, is all of the parts up to separators |
| Splitter.ChooseSeparator | src/local_graph_rag/ingest/chunkers.py:57-64 | the first separator that occurs in the text, the empty one always doing so, and those after it |
| Splitter.SmallPartsMerged | src/local_graph_rag/ingest/chunkers.py:57-82 | when no part exceeds the size the result is the greedy merge of the parts |
| Splitter.SplitByBlocks | src/local_graph_rag/ingest/chunkers.py:57-82 | any text is split part by part in order: neighbouring parts that fit are merged together, and each part that does not is split at the separators after the chosen one |
| Splitter.TextAtMost | src/local_graph_rag/ingest/chunkers.py:57-82 | however deep the recursion, no chunk exceeds the size by more than the overlap and one separator, and without overlap none exceeds the size |
| Splitter.RecursiveSplit | src/local_graph_rag/ingest/chunkers.py:57-82 | the result is the specified one; the new parts of the chunks concatenate to the text with newlines and spaces erased, no chunk exceeds size and overlap by more than a separator, and the whole-part fallback is never reached |
| Splitter.ChunkText | src/local_graph_rag/ingest/chunkers.py:85-88 | a blank text gives no chunk, any other loses nothing |
| Markdown.OnePassIsDeclarative | src/local_graph_rag/ingest/chunkers.py:148-183 | the one-pass open fence is set exactly on the lines that lie in a fenced block by section 4.5 of CommonMark, and is the fence that opened it |
| Markdown.HeaderIff | src/local_graph_rag/ingest/chunkers.py:148 | a header is one to six number signs and a space |
| Markdown.FenceOfIff | src/local_graph_rag/ingest/chunkers.py:149 | a fence is at most three spaces, a run of at least three backticks or tildes, and the rest of the line |
| Markdown.SplitSections | src/local_graph_rag/ingest/chunkers.py:166-180 | the loop cuts exactly before header lines outside all fences |
| Markdown.SectionsPartition | src/local_graph_rag/ingest/chunkers.py:166-180 | in order, the sections are all of the lines |
| Markdown.SectionsStartAtCuts | src/local_graph_rag/ingest/chunkers.py:166-180 | every section after the first starts at a header line outside all fences, so no block is cut |
| Markdown.CutsStartSections | src/local_graph_rag/ingest/chunkers.py:166-180 | every such header line starts a section |
| Text.SplitAtTerminator | src/local_graph_rag/ingest/chunkers.py:162 | a line ends at the first break, CR LF being one break, and the rest is split like any text |
| Inks.InkOfLines | src/local_graph_rag/ingest/chunkers.py:162 | splitting into lines drops line terminators and nothing else |
| Chunkers.SectionIsMeant | src/local_graph_rag/ingest/chunkers.py:186-213 | a section that fits is one chunk; otherwise its paragraphs in order are joined, a chunk ending only where the next paragraph does not fit or is itself over the maximum, in which case it is split as text |
| Chunkers.DocumentIsMeant | src/local_graph_rag/ingest/chunkers.py:216-224 | the chunks of a document are those of its sections, which begin exactly at the headers outside code blocks; blank sections have none |
| Chunkers.SplitOversizedSection | src/local_graph_rag/ingest/chunkers.py:186-213 | the chunks are those that SectionIsMeant describes; nothing but whitespace is lost |
| Chunkers.MaximumKeptIff | src/local_graph_rag/ingest/chunkers.py:186-224 | under valid settings every chunk of every section, and of every Markdown document, is within the maximum once stripped if and only if the overlap is 0 or size, overlap and one separator fit the maximum |
| Chunkers.WideSectionExceeds | src/local_graph_rag/ingest/chunkers.py:186-213 | under any other valid settings a word as long as the overlap and one of full size make a section that comes out whole, longer than the maximum |
| Chunkers.TrimmedStrip | src/local_graph_rag/ingest/chunkers.py:194-208 | leading empty paragraphs add only what stripping removes |
| Chunkers.JoinWithoutTrim | src/local_graph_rag/ingest/chunkers.py:194-208 | a packed chunk is longer than the length counted for it by exactly the separators that follow leading empty paragraphs |
| Chunkers.PackedCanExceedMaximum | src/local_graph_rag/ingest/chunkers.py:194-208 | a section and valid limits for which a packed chunk has eight characters where the maximum is four |
| Chunkers.PackedWithinIff | src/local_graph_rag/ingest/chunkers.py:186-213 | the chunks of a section hold its paragraphs in order, each chunk within the maximum but for separators not counted; all are within it exactly when each has room for those, and always when no paragraph is empty |
| Chunkers.ChunkMarkdown | src/local_graph_rag/ingest/chunkers.py:216-224 | the chunks are those that DocumentIsMeant and MaximumKeptIff are about, section by section, and lose nothing of the document but whitespace |
| Chunkers.ChunkPython | src/local_graph_rag/ingest/chunkers.py:96-140 | the chunks are, in order, the pieces of the segments, tagged with their definitions; a file without segments or that does not parse is chunked as text |
| SourceLines.RowsAgreeIff | src/local_graph_rag/ingest/chunkers.py:102 | str.splitlines and the parser put a character on the same line exactly when no line break known to the former alone comes before it |
| PythonSource.TimesEmitted | src/local_graph_rag/ingest/chunkers.py:102-138 | in any file that parses each character is emitted once for lying on a line with no statement's number and once for lying within the columns of a statement that is no import |
| PythonSource.NothingLostIff | src/local_graph_rag/ingest/chunkers.py:115-138 | every character but spaces is emitted once, or not at all when it belongs to an import, if and only if no odd line break comes before the end of the last statement and nothing stands beside a statement on its own lines |
| PythonSource.TrailingCommentIsLost | src/local_graph_rag/ingest/chunkers.py:129-135 | the comment of `X=1 #n` is in no chunk |
| PythonSource.FormFeedShiftsLines | src/local_graph_rag/ingest/chunkers.py:102-107 | a form feed in front of a comment: the comment is in no chunk and the statement below it is said twice |
| PythonSource.SegmentIs | src/local_graph_rag/ingest/chunkers.py:129-131 | cutting a statement out of the parser's lines gives exactly the text from its first column to its last, so the fallback to whole lines is not reached |
| PythonSource.OwnersMeaning | src/local_graph_rag/ingest/chunkers.py:115-138 | each stretch that is emitted holds the columns of one statement that is no import or the whole lines between two statements; the statements so held are all that are no imports, each once and in order |
| Chunkers.AllSegmentsCut | src/local_graph_rag/ingest/chunkers.py:96-138 | the segments are, one by one, the stretches of the text that those lemmas count |
| Chunkers.AllSegmentsTied | src/local_graph_rag/ingest/chunkers.py:119-138 | each segment carries the name of the statement whose columns it holds, and none if it is a gap |
| Chunkers.SegmentsNamed | src/local_graph_rag/ingest/chunkers.py:109-138 | stripped for the index, the chunks come stretch by stretch, all chunks of a statement under its name, a stretch that fits being one chunk |
| Chunkers.SegmentsSaySpoken | src/local_graph_rag/ingest/chunkers.py:115-138 | where the two line tables agree the segments say all of the text but what is on a statement's lines outside the columns of kept statements |
| Chunkers.OnlyImportsLeftOut | src/local_graph_rag/ingest/chunkers.py:115-138 | if moreover nothing stands beside a statement on its lines, they say all of the text but the imports |
| Chunkers.ChunkFile | src/local_graph_rag/ingest/index_documents.py:282-283 | for every file type and text no chunk is empty or unstripped or longer than the larger of the maximum and size plus overlap plus two; together the chunks say all of the text, or for a Python file that parses its segments, which where the line tables agree are all but what is on a statement's lines outside kept statements; the chunks of a Python file come in order from its statements and the gaps between them, each under the name of the statement whose columns its text comes from and without a name from a gap; all other files and fallbacks have no names; Markdown and other text give the chunks specified, stripped, Markdown within the maximum where the settings leave room |
| GitHistory.ParseLog | src/local_graph_rag/ingest/git_history.py:38-50 | one commit for each record in order, its file names being single lines, or the error exactly when some record has not five fields |
| GitHistory.ParseInvertsLog | src/local_graph_rag/ingest/git_history.py:25-50 | reading what git writes gives back commits free of the two separators, up to stripping subject and body |
| GitHistory.RenderHistory | src/local_graph_rag/ingest/git_history.py:53-67 | line by line: title, recent changes with the first fifteen commits in the order given, and for every commit its heading, its body indented where not blank, and its first fifteen file names with the number of the rest |
| GitHistory.DigitsValue | src/local_graph_rag/ingest/git_history.py:66 | that number is written in decimal |
| GitHistory.RenderThenSplit | src/local_graph_rag/ingest/git_history.py:53-67 | splitting the rendered text gives back title, recent changes and one section per commit with exactly the lines written if and only if repository name, hashes, dates, subjects and shown file names hold no line break, whatever the bodies |
| GitHistory.BrokenSubjectOpensSections | src/local_graph_rag/ingest/git_history.py:53-67 | a subject with U+0085 and a heading behind it gives two sections more than the document of its one commit should have |
| GitHistory.RenderBrokenSubject | src/local_graph_rag/ingest/git_history.py:53-67 | one commit, a subject git can print, five sections instead of three |
| GitHistory.LogToSections | src/local_graph_rag/ingest/git_history.py:38-67 | from log text to sections: the same, with nothing to ask of file names, which reading the log makes single lines |
| GitHistory.StrippedSectionStartsWithHeading | src/local_graph_rag/ingest/chunkers.py:180-183 | joined and stripped for the chunker, a commit's section still starts with its heading |
| Bridge.StepKeeps | src/local_graph_rag/web/rag_executor.py:166-193 | every step of worker, loop, consumer and watcher keeps the order of items and the account of what was dropped |
| Bridge.EmittedIsPrefix | src/local_graph_rag/web/rag_executor.py:155-238 | in every state of every run what the consumer emitted is a prefix of what the generator produced, and the queue holds at most 32 items |
| Bridge.NormalEndIsCompleteIff | src/local_graph_rag/web/rag_executor.py:185-238 | a stream that ended normally is the whole answer of a generator that returned and raised nothing, if and only if no put of a piece or an error was given up or cancelled while the worker waited for it |
| Bridge.EndMeansAllKept | src/local_graph_rag/web/rag_executor.py:214-238 | a normal end misses at most the last of the pieces produced so far |
| Bridge.ShownErrorIsReal | src/local_graph_rag/web/rag_executor.py:185-238 | an error shown to the client is the one the generator raised, behind every piece it produced |
| Bridge.SilentTruncation | src/local_graph_rag/web/rag_executor.py:176-193 | a run in which one put waits too long and the stream ends normally without its piece |
| Bridge.AbandonedGenerator | src/local_graph_rag/web/rag_executor.py:176-193 | a run in which a put waits too long, its piece still gets through, and the stream ends normally although the generator was abandoned |
| Bridge.SilentError | src/local_graph_rag/web/rag_executor.py:176-193 | a run in which the generator raises, its error is dropped, and the stream ends normally |
| Bridge.CalmRunNeverSticks | src/local_graph_rag/web/rag_executor.py:185-238 | while nothing raises, times out or disconnects some step is always possible until everything produced has been emitted |
| Bridge.RunsAreBounded | src/local_graph_rag/web/rag_executor.py:155-238 | the number of steps is bounded by the number of pieces, so without a new piece every run ends, whatever fails |
| Bridge.StopsSoon | src/local_graph_rag/web/rag_executor.py:166-181 | once the consumer has timed out or the worker has been told to stop, the generator yields at most one more piece, however the run goes on |
| Bridge.EndIsSent | src/local_graph_rag/web/rag_executor.py:185-193 | while no put fails and nobody says stop, a worker that has finished, after an error too, has sent the end marker |
| Permits.PermitsConserved | src/local_graph_rag/web/rag_executor.py:89-124 | free permits, held permits and jobs in flight always add up to the limit |
| Permits.RunningWithinLimit | src/local_graph_rag/web/rag_executor.py:95-107 | running jobs never exceed the limit, and all permits are free again when all requests are gone |
| Permits.NeverQueuesIff | src/local_graph_rag/settings.py:171-177 | every submitted job finds a worker in every run if and only if the limit is at most the number of workers |
| Connections.StepKeeps | src/local_graph_rag/common/sqlite_store.py:22-60 | every step of opening, pruning, registering, caching, closing and exiting keeps the registry's invariant |
| Connections.RegistryWhenUnlocked | src/local_graph_rag/common/sqlite_store.py:22-60 | whenever the lock is free a live thread's connection is cached exactly when registered, registered ones are open, a live thread has at most one, and every open one is registered or in the hands of the thread opening it |
| Connections.CachedIsOpen | src/local_graph_rag/common/sqlite_store.py:22-27 | a cached connection is open and no other thread's unless close() is at work |
| Connections.ClosedWhileCached | src/local_graph_rag/common/sqlite_store.py:54-60 | a run in which one thread is closing and another, idle, has its connection cached and closed |
| Connections.CachedIsOpenIff | src/local_graph_rag/common/sqlite_store.py:54-60 | at every moment of every run a cached connection is open if and only if close() is not at work or has not come to its entry yet |
| Connections.CloseLeavesNothing | src/local_graph_rag/common/sqlite_store.py:54-60 | after close() only connections still being opened are open, and none is cached |

## Left out

- IngestionTheorems.IncrementalEqualsFromScratch: display names are not compared, because the first writer's name stays and so depends on history; chunk ids are compared through their file and number; vectors only for files that are not torn.
- IngestionTheorems.NoOrphanVectors: assumes fresh ids, one indexer at a time, and that the file does not change between hashing and reading.
- PythonSource.TimesEmitted: the parser is a parameter, assumed to place statements in order within the text; columns count characters, where the parser counts bytes of UTF-8.
- Chunkers.PackedWithinIff: when a section has an empty paragraph, the condition is about the room left in each chunk, not about the section's text alone.
- Summaries.Summarizer.SummarizeRenumbered: content is what the code hashes; display names and weights enter the prompt but not the hash, so they may change without a new summary.
- Bridge.StepKeeps: time is not modelled, a timeout may strike at any moment; exceptions that are not subclasses of `Exception` are not modelled.
- Indexers.Indexer.RunOnce: the files found and the unscanned paths are parameters, which Reindexing.Reindex takes from the scan; the order of the stale paths is free.
- Clusters.Cluster: weights are exact reals, without rounding; Louvain is assumed only to partition its nodes.
- Neighborhood.Expand: weights are exact reals; the relationships returned beside the entities are not modelled.
- The hash function, the chunker, the model and the settings stay the same between the runs of the ingestion theorems; the cache theorem lets model and prompt change.
- Reading co-occurrence weights and relationship graphs from SQL, and writing communities back: single queries.
- Schema migrations, the legacy rows they convert, and tables written before mentions existed.
- Qdrant collections, embeddings and vector search: a map from ids to payloads stands for the collection.
- The scan's symbolic links are never followed; path normalisation is the identity.
- The synchronisation of git repositories on disk, web routes, authentication, retrieval and prompts.
- Unicode: lower-casing is done before the slug model starts; whitespace and line breaks are the fixed sets of Python's str methods.
