# A Dafny model of the FAISS vector-store lifecycle of a RAG chatbot

This project models the three files that hold the ingestion and retrieval
core of a retrieval-augmented chatbot written in Python on LangChain:

- `src/loaders/document_loader.py` (module `DocumentLoader`,
  `document_loader.dfy`): the suffix-to-loader dispatch table, loading and
  metadata stamping, the processed-documents ledger file with its
  `splitlines` lookup and its append, single-file and recursive-directory
  processing with skip-if-processed, batching, and saving an upload.
- `src/vectorstores/faiss_store.py` (module `FaissStore`,
  `faiss_store.dfy`): the FAISS façade. The engine's content is a map from
  docstore id to document. The index directory is a shared object that
  holds the last saved snapshot. The model covers loading or creating the
  store with its placeholder document, `{source}_{uuid}` id generation,
  batched insertion with partial failure, deletion by id and by source
  prefix, clearing, retrievers and searches, and the process-wide
  singleton.
- `src/chains/faiss_conversational_chain.py` (module
  `ConversationalChain`, `conversational_chain.dfy`): the retrieval tool
  with its remembered documents, the conversation history (seeding,
  message assembly, truncation to `MAX_HISTORY_LENGTH * 2`), extraction of
  the answer from the agent's result, `get_history`, adding an upload to
  the store, and the session registry.

Two support modules are shared:

- `common.dfy` (module `Common`): `Option`, `Result`, the exceptions as an
  `Error` datatype, `Document`, and Python string helpers.
- `uuids.dfy` (module `Uuids`): `uuid.uuid4()` as a generator that never
  repeats a string and never yields a `_`.

Objects whose fields the code reassigns are classes with `modifies`
clauses: `DocumentLoaderService` (the ledger), `FaissVectorStore` (the
engine content and the snapshot), `RetrievalTool`, `Chain`,
`SessionRegistry`, `StoreHolder` and `UuidSource`. Each state-changing
method is proved against a function of the old state: `ProcessFileOutcome`,
`DirectoryOutcome`, `AddOutcome`, `InsertBatches`, `DeleteOutcome`,
`DeleteBySourceOutcome`, `NextHistory` and `ExtractAnswer`. The
properties are proved as lemmas about those functions. Pure
computations are functions, for example `SplitLines` (Python's
`str.splitlines`), `Slices` (`[s[i:i+n] for i in range(0, len(s), n)]`)
and `Truncate` (`h[-2m:]`).

External capabilities are parameters:

- the format loaders (`Reader`, which yields `None` when a loader raises);
- the text splitter (`Splitter`);
- whether the embedding provider succeeds on a batch (`Embedder`);
- similarity ranking;
- the agent, a function from the message list to its result;
- the retriever's lookup.

## Behaviour the model makes explicit

- The ledger is written as soon as a file loads and splits
  (`document_loader.py:128-131`). This happens before, and whether or not,
  the chunks reach the vector store. Recording a source only after its
  chunks are stored would need the opposite order. `ProcessFileIdempotent`
  therefore needs only a successful load. In `Chain.AddDocuments` the ledger holds
  the path even when the store raises.
- Lookup is `doc_id in f.read().splitlines()`. An id that contains any
  of Python's line-break characters is never found, however often it is
  recorded (`BrokenIdNeverProcessed`). For other ids, recording and then
  looking up succeeds (`RecordedIsProcessed`).
- `delete_by_source([p])` deletes every id that starts with `p + "_"`.
  Deleting source `a` therefore also deletes the chunks of `a_b.txt`,
  and in general of every source that starts with `a_` (`PrefixOverMatch`). Overlapping paths put the same id into the delete
  list twice (`OverlappingPathsRepeatIds`).
- A batch size of 0 raises from `range()`. A negative batch size creates no
  batch: `add_documents` saves the unchanged store and returns True while
  storing nothing (`AddNegativeBatchStoresNothing`).
- When a batch raises, the earlier batches stay in the in-memory engine
  but the snapshot is not rewritten (`AddFailureKeepsEarlierBatches`).
- `MAX_HISTORY_LENGTH = 0` keeps the whole history, because `h[-0:]` is
  `h[0:]` (`TruncateZeroKeepsAll`). A negative value drops the oldest
  entries instead of bounding the history (`TruncateNegativeDropsOldest`).
- The retrieval tool keeps the retriever it was built with. After
  `add_documents` only the chain's own retriever is replaced. `clear`
  replaces the FAISS object, which the model tracks as an `engine`
  counter, so retrievers made earlier point at the old object.
- `call` takes the tool's last documents even when they come from an
  earlier turn. It retrieves afresh only when the tool's remembered list
  is empty.

## Model

| member | source | states |
|---|---|---|
| Uuids.Hex | src/vectorstores/faiss_store.py:105 | a generated uuid is non-empty and holds no '_' |
| Uuids.HexInjective | src/vectorstores/faiss_store.py:105 | distinct draws give distinct uuid strings |
| Uuids.NotYetIssued | src/vectorstores/faiss_store.py:105 | a string drawn later was not issued by any earlier draw |
| Uuids.UuidSource.NewUuid | src/vectorstores/faiss_store.py:105 | `uuid4()` returns a string never returned before, without '_', and records it as issued |
| DocumentLoader.BaseName | src/loaders/document_loader.py:79 | `Path(p).name` is the longest '/'-free suffix of p |
| DocumentLoader.RFind | src/loaders/document_loader.py:59 | the last position of a character, or -1, with no later occurrence |
| DocumentLoader.NameSuffixSpec | src/loaders/document_loader.py:59 | `path.suffix` is the name's tail from its last '.', which is neither its first nor its last character, with no other '.'; it is empty exactly when the name has no '.' after its first character or ends with '.' |
| DocumentLoader.LowerSpec | src/loaders/document_loader.py:59 | `.lower()` leaves no ASCII capital, keeps every other character, and lowering twice changes nothing more |
| DocumentLoader.JoinPathName | src/loaders/document_loader.py:201 | a file saved under `DOCUMENTS_DIR / name` has file name `name` |
| DocumentLoader.WithFileFieldsSpec | src/loaders/document_loader.py:76-81 | the metadata update sets source, file_name and file_type, overriding loader values, and keeps every other key |
| DocumentLoader.UnsupportedSuffix | src/loaders/document_loader.py:58-63 | `load_document` raises the unsupported-type error exactly when the lower-cased suffix is outside the seven in SUPPORTED_LOADERS |
| DocumentLoader.SplitLines | src/loaders/document_loader.py:152 | no line produced by `splitlines` contains a line break |
| DocumentLoader.SplitLinesAppend | src/loaders/document_loader.py:152 | the lines of a newline-terminated text followed by more text are the lines of each part, concatenated |
| DocumentLoader.RecordedLines | src/loaders/document_loader.py:155-163 | appending an id and a newline adds exactly that id as the ledger's last line and keeps the file newline-terminated |
| DocumentLoader.RecordedIsProcessed | src/loaders/document_loader.py:139-163 | after `_record_processed_document(id)`, `_is_document_processed(id)` holds |
| DocumentLoader.BrokenIdNeverProcessed | src/loaders/document_loader.py:149-153 | an id containing a line break is never reported as processed |
| DocumentLoader.SlicesFrom | src/loaders/document_loader.py:177-178 | the batches from position i start with `documents[i:i+batch_size]` cut at the end |
| DocumentLoader.SlicesConcat | src/loaders/document_loader.py:176-182 | the batches joined back together give the input list |
| DocumentLoader.SlicesCount | src/loaders/document_loader.py:177 | there are ceil(n / batch_size) batches |
| DocumentLoader.SlicesLengths | src/loaders/document_loader.py:177-179 | every batch has batch_size elements except a last, non-empty, possibly shorter one |
| DocumentLoader.SlicesAligned | src/vectorstores/faiss_store.py:115-116 | document batches and id batches of equal-length inputs have the same count and the same lengths |
| DocumentLoader.SlicesPrefix | src/loaders/document_loader.py:177-179 | the first j batches joined give the first j*batch_size elements (all of them at the end) |
| DocumentLoader.ProcessFileSpec | src/loaders/document_loader.py:108-137 | a skipped file and a load error return [] and leave the ledger unchanged; a successful load returns its chunks and adds the path as one new ledger line, even with no chunks |
| DocumentLoader.ProcessFileIdempotent | src/loaders/document_loader.py:119-131 | two consecutive skipping calls whose first load succeeds: the second returns [] and changes nothing |
| DocumentLoader.DirectoryOutcomeStep | src/loaders/document_loader.py:101-104 | walking i+1 entries is walking i entries and then processing entry i |
| DocumentLoader.EligibleOnlyFilters | src/loaders/document_loader.py:102 | the filter keeps exactly the files whose lower-cased suffix is supported |
| DocumentLoader.DirectoryOnlyEligible | src/loaders/document_loader.py:101-104 | directories and unsupported files contribute no chunk and no ledger line |
| DocumentLoader.StepLedger | src/loaders/document_loader.py:102-104 | one entry leaves the ledger as it was or appends that entry's path |
| DocumentLoader.RecordedKeepsLines | src/loaders/document_loader.py:162-163 | appending to a newline-terminated ledger keeps each line already in it |
| DocumentLoader.StepKeepsLines | src/loaders/document_loader.py:102-104 | one entry keeps the ledger newline-terminated and keeps each of its lines |
| DocumentLoader.LedgerKeepsLines | src/loaders/document_loader.py:101-104 | a directory walk never removes a ledger line: one present after i entries is present at the end |
| DocumentLoader.DirectoryRecordsLoaded | src/loaders/document_loader.py:87-106 | without skipping, every supported file that loads is in the ledger after the walk |
| DocumentLoader.DocumentLoaderService.constructor | src/loaders/document_loader.py:41-43 | the service starts with the given splitter, ledger file and documents directory |
| DocumentLoader.DocumentLoaderService.LoadDocument | src/loaders/document_loader.py:45-85 | dispatch on the suffix, load, stamp every document in place, split; errors as in LoadResult |
| DocumentLoader.DocumentLoaderService.IsDocumentProcessed | src/loaders/document_loader.py:139-153 | a processed id implies the ledger file exists and the id has no line break |
| DocumentLoader.DocumentLoaderService.RecordProcessedDocument | src/loaders/document_loader.py:155-163 | the ledger becomes its old text (or nothing) followed by the id and a newline |
| DocumentLoader.DocumentLoaderService.ProcessFile | src/loaders/document_loader.py:108-137 | returns the chunks and leaves the ledger as ProcessFileOutcome says |
| DocumentLoader.DocumentLoaderService.ProcessDirectory | src/loaders/document_loader.py:87-106 | the chunks of the eligible files in visiting order, and the ledger, as DirectoryOutcome says |
| DocumentLoader.DocumentLoaderService.BatchProcessDocuments | src/loaders/document_loader.py:165-182 | batch size 0 raises, a negative one gives no batch, a positive one gives the slices |
| DocumentLoader.DocumentLoaderService.SaveUploadedFile | src/loaders/document_loader.py:184-208 | a missing upload raises; otherwise the path is the documents directory joined with the upload's name |
| FaissStore.PairsKeys | src/vectorstores/faiss_store.py:125 | adding a batch with ids introduces exactly those ids |
| FaissStore.PairsValues | src/vectorstores/faiss_store.py:125 | each distinct id maps to the document at its own position |
| FaissStore.EngineAddSpec | src/vectorstores/faiss_store.py:125 | the engine accepts a batch exactly when it embeds, counts agree and ids are distinct and new; then it adds exactly those pairs and keeps the rest |
| FaissStore.EngineDelete | src/vectorstores/faiss_store.py:215 | deletion fails exactly when some listed id is not stored; otherwise exactly the listed ids are removed and the rest kept |
| FaissStore.ExtendsCompose | src/vectorstores/faiss_store.py:120-125 | two successful batches in a row add the concatenated pairs |
| FaissStore.InsertCommitted | src/vectorstores/faiss_store.py:120-126 | when every batch succeeds, all pairs of all batches are added |
| FaissStore.InsertFailed | src/vectorstores/faiss_store.py:120-126 | when batch k raises, exactly the pairs of batches 0..k-1 are in the engine |
| FaissStore.AddNothing | src/vectorstores/faiss_store.py:95-97 | an empty document list returns False and changes neither engine nor snapshot |
| FaissStore.AddRejectsEarly | src/vectorstores/faiss_store.py:110-115 | a count mismatch or a zero batch size raises before anything is inserted or saved |
| FaissStore.AddCommitsAll | src/vectorstores/faiss_store.py:113-132 | a successful add stores documents[i] under ids[i] for every i, keeps every stored document, and saves the result |
| FaissStore.AddNegativeBatchStoresNothing | src/vectorstores/faiss_store.py:115-132 | a negative batch size returns True, stores nothing and saves the unchanged store |
| FaissStore.AddFailureKeepsEarlierBatches | src/vectorstores/faiss_store.py:120-126 | after a failed batch the snapshot is untouched and a whole number of earlier batches, short of all, is in the engine |
| FaissStore.GeneratedIdParts | src/vectorstores/faiss_store.py:104-106 | a generated id `{source}_{uuid}` determines its source and its uuid |
| FaissStore.DeleteSpec | src/vectorstores/faiss_store.py:200-222 | `delete` returns True exactly when ids are given and all stored; then they are removed and the rest saved; otherwise nothing changes |
| FaissStore.MatchesOfSpec | src/vectorstores/faiss_store.py:247-250 | the inner loop collects exactly the ids that start with `p_` |
| FaissStore.CollectMatchesSpec | src/vectorstores/faiss_store.py:245-250 | the nested loops collect exactly the ids that match some path |
| FaissStore.DeleteBySourceSpec | src/vectorstores/faiss_store.py:224-265 | exactly the matching ids are removed, others kept, and the store saved; False with no change when no path is given or nothing matches |
| FaissStore.GeneratedIdMatchesSource | src/vectorstores/faiss_store.py:104-106 | every generated id is selected by deleting its own source |
| FaissStore.PrefixOverMatch | src/vectorstores/faiss_store.py:249 | when source q starts with `p_` (as `a_b.txt` does for `a`), deleting source p selects and removes every id generated for q |
| FaissStore.OverlappingPathsRepeatIds | src/vectorstores/faiss_store.py:246-250 | overlapping source paths put one id into the delete list twice |
| FaissStore.GenerateIds | src/vectorstores/faiss_store.py:100-107 | one id per document, `{source}_{fresh uuid}`, all distinct |
| FaissStore.ReopenAfterSuccess | src/vectorstores/faiss_store.py:50-58 | after `add_documents`, `delete` or `delete_by_source` returns True, a store object created afresh from the index directory holds exactly the content the engine holds |
| FaissStore.FaissVectorStore.constructor | src/vectorstores/faiss_store.py:30-68 | a saved snapshot is loaded unchanged; otherwise the store holds exactly one document, the placeholder text with empty metadata, under a fresh id, and is saved |
| FaissStore.FaissVectorStore.GetRetriever | src/vectorstores/faiss_store.py:70-81 | a retriever over the current FAISS object whose k is TOP_K when k is missing or 0, and k otherwise |
| FaissStore.FaissVectorStore.Search | src/vectorstores/faiss_store.py:138-149 | the ranking of the current content, with TOP_K when k is missing or 0, and k otherwise |
| FaissStore.FaissVectorStore.SearchWithScore | src/vectorstores/faiss_store.py:151-162 | the scored ranking of the current content, with TOP_K when k is missing or 0, and k otherwise |
| FaissStore.FaissVectorStore.Save | src/vectorstores/faiss_store.py:164-173 | the snapshot becomes the current content |
| FaissStore.FaissVectorStore.AddDocuments | src/vectorstores/faiss_store.py:83-134 | result, engine content and snapshot as AddOutcome says, with generated ids fresh and distinct when none are given |
| FaissStore.FaissVectorStore.CommitBatches | src/vectorstores/faiss_store.py:120-126 | the batch loop's outcome and engine content are InsertBatches of the old content |
| FaissStore.FaissVectorStore.Delete | src/vectorstores/faiss_store.py:200-222 | result, engine content and snapshot as DeleteOutcome says |
| FaissStore.FaissVectorStore.AllIds | src/vectorstores/faiss_store.py:242 | every stored id exactly once |
| FaissStore.FaissVectorStore.DeleteBySource | src/vectorstores/faiss_store.py:224-265 | result, engine content and snapshot as DeleteBySourceOutcome says |
| FaissStore.FaissVectorStore.Clear | src/vectorstores/faiss_store.py:267-274 | a new FAISS object holding exactly one document, the placeholder text with empty metadata, under a fresh id, and saved |
| FaissStore.StoreHolder.Get | src/vectorstores/faiss_store.py:280-290 | the first call creates the store with the given TOP_K, loading the saved snapshot or creating and saving the placeholder store; later calls return the same store and touch nothing |
| ConversationalChain.DialogueOnlyAppend | src/chains/faiss_conversational_chain.py:116-123 | the role filter splits over concatenation, so order is kept |
| ConversationalChain.DialogueOnlySpec | src/chains/faiss_conversational_chain.py:116-123 | exactly the user and assistant entries are passed on |
| ConversationalChain.DialogueOnlyWhole | src/chains/faiss_conversational_chain.py:116-123 | a history of user and assistant entries is passed on whole |
| ConversationalChain.BuildMessagesSpec | src/chains/faiss_conversational_chain.py:114-126 | the system prompt first, the question last, the dialogue history in order in between |
| ConversationalChain.PySliceFrom | src/chains/faiss_conversational_chain.py:163 | Python's `s[start:]` is a suffix of s |
| ConversationalChain.TruncateKeepsRecent | src/chains/faiss_conversational_chain.py:161-163 | with a positive limit m the history keeps its last min(n, 2m) entries |
| ConversationalChain.TruncateZeroKeepsAll | src/chains/faiss_conversational_chain.py:161-163 | a zero limit keeps the whole history |
| ConversationalChain.TruncateNegativeDropsOldest | src/chains/faiss_conversational_chain.py:161-163 | a negative limit m drops the oldest -2m entries |
| ConversationalChain.NextHistoryEndsWithTurn | src/chains/faiss_conversational_chain.py:157-163 | unless the limit is negative, the history ends with the question and the answer just given |
| ConversationalChain.NextHistoryBounded | src/chains/faiss_conversational_chain.py:161-163 | with a positive limit m the history holds at most 2m entries |
| ConversationalChain.NextHistoryDialogue | src/chains/faiss_conversational_chain.py:108-163 | a history of user and assistant entries stays one |
| ConversationalChain.FirstCallSeeds | src/chains/faiss_conversational_chain.py:109-112 | the first call leaves the two seed entries followed by the turn |
| ConversationalChain.TextParts | src/chains/faiss_conversational_chain.py:142 | no more texts than parts |
| ConversationalChain.TextPartsSpec | src/chains/faiss_conversational_chain.py:140-143 | list content keeps the text of exactly the dict parts that have one |
| ConversationalChain.LastAI | src/chains/faiss_conversational_chain.py:134-138 | the position of the last AIMessage, or -1 when there is none |
| ConversationalChain.AIMessagesLast | src/chains/faiss_conversational_chain.py:134-138 | the filtered list is empty exactly when there is no AIMessage, else it ends with the last one |
| ConversationalChain.ExtractAnswerSpec | src/chains/faiss_conversational_chain.py:131-148 | the answer is the last AIMessage's content, the fixed apology without one, or else the "answer" field or the result's string form |
| ConversationalChain.FormatRetrievedSpec | src/chains/faiss_conversational_chain.py:43-48 | the tool reports no documents exactly when none were found; otherwise it opens with the first wrapped document and closes with the last |
| ConversationalChain.ToChatMessagesRoundTrip | src/chains/faiss_conversational_chain.py:206-220 | `get_history` reads back as the entries of a known role, unaltered and in order |
| ConversationalChain.ToChatMessages | src/chains/faiss_conversational_chain.py:209-218 | no more messages than entries, each a Human, AI or System message with text content |
| ConversationalChain.RetrievalTool.constructor | src/chains/faiss_conversational_chain.py:34-36 | the tool holds the given retriever and no documents |
| ConversationalChain.RetrievalTool.Run | src/chains/faiss_conversational_chain.py:38-48 | remembers the retrieved documents and returns their formatted text |
| ConversationalChain.RetrievalTool.GetLastDocs | src/chains/faiss_conversational_chain.py:50-52 | the documents of the last retrieval |
| ConversationalChain.Chain.constructor | src/chains/faiss_conversational_chain.py:57-96 | empty history; the chain and its tool share a retriever over the store with TOP_K |
| ConversationalChain.Chain.Call | src/chains/faiss_conversational_chain.py:98-176 | the answer is extracted from the agent's reply to the assembled messages; there is one source per document, with its content and metadata, taken from the tool's last documents or a fresh retrieval; the history is NextHistory |
| ConversationalChain.Chain.AddDocuments | src/chains/faiss_conversational_chain.py:178-200 | save the upload, process it with skipping, add non-empty chunks with batch size 10, refresh the retriever on success; the history and the FAISS object are unchanged |
| ConversationalChain.Chain.ClearMemory | src/chains/faiss_conversational_chain.py:202-204 | the history becomes empty |
| ConversationalChain.Chain.GetHistory | src/chains/faiss_conversational_chain.py:206-220 | the messages read back as the history's entries of a known role, unaltered and in order |
| ConversationalChain.SessionRegistry.constructor | src/chains/faiss_conversational_chain.py:223 | no sessions |
| ConversationalChain.SessionRegistry.GetConversationalChain | src/chains/faiss_conversational_chain.py:225-229 | a known session's chain is returned as is; an unknown one gets a new chain with empty history, the given loader, store, prompt and limit, and a TOP_K retriever shared with its tool |
| ConversationalChain.SessionRegistry.ClearSession | src/chains/faiss_conversational_chain.py:231-235 | only that session's chain changes: its history is emptied and the session forgotten |

## Left out

- Disk I/O is not modelled as I/O: the ledger file, the index directory
  and the uploads are values held by objects. Write failures, encodings
  (the ledger is opened as UTF-8 text) and the upload's bytes are not
  modelled.
- Universal-newline translation when the ledger is read is not modelled.
  It only turns "\r\n" and "\r" into "\n", which `splitlines` treats the
  same way.
- Paths are assumed normalised: no trailing '/', no "//" and no "."
  parts. `pathlib`'s normalisation and `str(Path(...))` are not modelled.
- `directory.rglob("*")` is a parameter listing the entries in visiting
  order. How the walk orders them is not modelled.
- The LangChain format loaders, the text splitter and the embedding model
  are opaque parameters. Their contents, and `{"encoding": "utf-8"}` for
  TextLoader, are not modelled.
- DocumentLoader.Lower: lowers only the ASCII letters A to Z, while
  Python's `str.lower()` covers all of Unicode and can change a string's
  length (`'İ'.lower()` has two characters). The dispatch decision is the
  same, because no other character lowers into a letter of the seven
  suffixes. Only the suffix shown in the unsupported-type error can differ.
- FaissStore.FaissVectorStore.Search: FAISS similarity ranking is an
  opaque function, so the contract states only which content and which k
  are passed on.
- FaissStore.FaissVectorStore.SearchWithScore: the same holds for the
  scored ranking.
- The FAISS engine's own behaviour comes from LangChain's wrapper, which
  is not part of this model:
  - the refusals (duplicate or already-stored ids on add, missing ids on
    delete) are modelled as all-or-nothing per call;
  - a repeated id in one delete list is taken to be removed once;
  - a partly applied engine call is not modelled.
- The placeholder store is assumed to embed successfully. An embedding
  failure in `_load_or_create_vector_store` or `clear` is not modelled.
- The `self.vector_store is None` branch of `add_documents`
  (`faiss_store.py:121-122`) is not modelled, because the store object is
  never None after construction. For the same reason, the falsy branch of
  `if self.vector_store:` (`faiss_store.py:129-134`) is taken never to
  happen.
- `save(path)` with an explicit path other than the index directory is not
  modelled.
- FaissStore.FaissVectorStore.AllIds returns the stored ids in an
  unspecified order, not in the engine's insertion order. Only the
  order of the delete list depends on this, and the set of removed ids
  does not.
- The uuid is a counter rendered in hexadecimal instead of a random
  value. The model relies only on its freshness and on the absence of
  '_'.
- The agent is not modelled: the chat model, its decisions to call the
  tool, and the SummarizationMiddleware that rewrites long conversations.
  It is a function from the assembled messages to its result. The tool's
  runs during a call are `RetrievalTool.Run` calls made before
  `Chain.Call`. ConversationalChain.Chain.Call therefore reads the tool's
  documents as they stand when the agent has finished.
- ConversationalChain.Chain.Call: the agent and the retriever are taken
  never to raise. In the code the two seed entries are added to an empty
  history (`faiss_conversational_chain.py:109-112`) before either is called
  (lines 129 and 155), so an exception from either leaves them in the
  history. The model's Call always completes.
- ConversationalChain.Chain.AddDocuments states only that some ids were
  used when the chunks reached the store, not which ones. The store's own
  AddDocuments states that those ids are fresh and distinct.
- Module-level helpers are not modelled: `get_document_loader`,
  `is_document_processed` and `record_processed_document`
  (`document_loader.py:210-246`). The ledger operations they wrap are
  modelled as members of `DocumentLoaderService`.
- `print` output, the LLM configuration, and the creation of the index
  directory at import time are not modelled.
