# Retrieval-augmented chat bot core, modelled in Dafny

This project models the decision logic of a retrieval-augmented chat bot. The bot is an Express
service that keeps document and metadata embeddings in a Milvus vector store and answers chat
queries over server-sent events. The model covers these parts:

- **Chat endpoint.** `getResponse` and `getChatDetail`:
  - request validation;
  - bot lookup with fallback;
  - the system prompt built from a bot's intent schema;
  - the document search restricted to the chat's own rows and the bot's public rows (for ids without `"` or `\`, see "## Left out");
  - the similarity threshold;
  - query augmentation with the top three documents;
  - the completion message list;
  - the event stream (`references`, `content`, `error`, `done`);
  - the two rows the turn adds to the message log.
- **Embedding endpoints.** `generateEmbeddings` (text or `.txt`/`.md` uploads, optionally stored),
  `retrieveMetaData` (metadata search, threshold, first-occurrence dedup by `cid` and the outlier
  filter) and `generateMetadataEmbeddings` (validation in front of IPFS manifest ingestion).
- **Ingestion.** `processEmbeddings` stores scraped pages as public documents. `processMetadataEmbeddings`
  walks an IPFS `meta.json` manifest. It skips malformed or unaddressable entries and skips entries
  whose `(chat_id, cid)` is already stored. It stores the rest and reports one result per entry.
- **Vector store policy.** Collection setup with the provider's dimension. The dedup gate that
  skips a public row when one of its five nearest public neighbours of the same bot scores above
  0.98. The existence check.
- **GloVe embedder.** The lexical part:
  - Levenshtein distance, a dynamic program over a 2-D array, proved equal to the recursive edit distance;
  - the closest-word search with its length-dependent threshold;
  - punctuation stripping, whitespace splitting and lower-casing;
  - averaging of the resolved word vectors.
- **Configuration tables.** The per-provider thresholds and dimensions, and the completion models.

Each stateful part is imperative Dafny. The vector store (`MilvusService.MilvusStore`) and the
message table (`MessageStore.MessageLog`) are classes whose methods update their fields. Loops
become `while`/`for` loops with invariants. Each method is proved equal to a specification
function, such as `Respond`, `Ingest`, `Generate`, `EditDistance` or `ClosestWord`. The properties
the code promises are proved as lemmas about those functions.

The embedders, the completion backend, the approximate-nearest-neighbour ranking, HTTP fetches,
clocks and uuids are parameters:

- an embedder is `string -> Option<Vector>`, with `None` when it throws;
- the ranker is `MilvusService.Ranker`;
- the completion result is `ChatController.Completion`;
- fetched JSON and the fresh id are ordinary arguments.

Floating-point numbers are modelled as exact reals.

## Model

| member | source | states |
|---|---|---|
| Seqs.FindIndex | src/controllers/embeddingControllers.ts:67-69 | the index returned satisfies the predicate and no earlier index does; `None` exactly when no element satisfies it |
| Seqs.Filter | src/utils/helper.ts:38 | every kept element is an input element satisfying the predicate, every satisfying input element is kept, the result is never longer |
| Seqs.FilterIsSubsequence | src/utils/helper.ts:38 | `filter` keeps the survivors in their original order |
| Seqs.FilterMember | src/utils/helper.ts:38 | an element survives `filter` exactly when it satisfies the predicate |
| Seqs.Take | src/controllers/chatController.ts:133 | `slice(0, n)` is the prefix of length `min(n, length)` |
| Strings.JoinSnoc | src/services/ragService.ts:16 | joining one more part appends the separator and that part |
| Strings.JoinContainsParts | src/services/ragService.ts:16 | every part occurs in the joined string |
| Strings.ToLowerChar | src/controllers/embeddingControllers.ts:87 | a capital of Basic Latin or the Latin-1 Supplement maps to the letter 32 code points above it, every other character is unchanged, and no such capital remains |
| Strings.IsLatinCapital | src/controllers/embeddingControllers.ts:87 | the capitals of Basic Latin and the Latin-1 Supplement, the letters `toLowerCase` moves 32 code points up |
| Strings.ToLower | src/controllers/embeddingControllers.ts:87 | lower-casing keeps the length and maps each character independently |
| Strings.ToLowerIdempotent | src/services/gloveService.ts:120 | lower-casing twice equals lower-casing once |
| Strings.ToLowerExample | src/services/gloveService.ts:120 | "NAÏVE" lower-cases to "naïve" |
| Strings.LastSegmentSpec | src/controllers/embeddingControllers.ts:118 | `split(".").pop()` is the longest suffix without a dot: all of the name when it has no dot, else preceded by a dot |
| Strings.LastSegmentOfAppend | src/controllers/embeddingControllers.ts:118 | the extension of `base.ext` is `ext` whenever `ext` has no dot |
| Strings.Join | src/services/ragService.ts:16 | `join`: the parts with the separator between neighbours (properties in `JoinSnoc` and `JoinContainsParts`) |
| Strings.LastSegment | src/controllers/embeddingControllers.ts:118 | `split(".").pop()` (characterised by `LastSegmentSpec`) |
| RequestFields.Truthy | src/controllers/chatController.ts:31 | JavaScript truthiness of an optional string field: present and non-empty |
| RequestFields.Interpolate | src/controllers/chatController.ts:48 | a field inside a template literal: its value, or `undefined` when absent |
| RequestFields.Flag | src/controllers/embeddingControllers.ts:87 | `field?.toLowerCase() === "true"` (properties in `FlagIgnoresCase` and `FlagExamples`) |
| RequestFields.FlagIgnoresCase | src/controllers/embeddingControllers.ts:87 | the `save`/`is_public` flag reads a value and its lower-cased form alike |
| RequestFields.FlagExamples | src/controllers/embeddingControllers.ts:89 | "true" in any letter case sets a flag; "yes", "1", "" and an absent field do not |
| BotDetail.GetBotConfig | src/utils/botDetail.ts:3-10 | a bot is returned exactly when the list is non-empty, and it is one of the list; a non-empty matching id selects a bot with that id; no id or no match falls back to the first bot |
| BotDetail.GetBotConfigFindsFirst | src/utils/botDetail.ts:4-6 | when the first bot carrying a non-empty id is at `k`, that bot is returned |
| BotDetail.GetBotConfigIdMatches | src/utils/botDetail.ts:3-10 | the returned bot has the requested id iff the id is given and some bot has it, or the first bot happens to have it |
| BotDetail.FindBot | src/utils/botDetail.ts:5 | `config.BOT.find` by id: the index of the first bot with that id |
| ModelConfig.EmbeddingConfigFor | config/modelConfig.ts:14-35 | a configuration exists exactly for openai, tensorflow, glove and miniLM, and its thresholds lie in [0, 1] |
| ModelConfig.CompletionConfigFor | config/modelConfig.ts:45-52 | a configuration exists exactly for openai and deepseek |
| ModelConfig.EmbeddingTableIsTotal | config/modelConfig.ts:1-2 | the tables have exactly the provider names of the two service types as keys |
| ModelConfig.Thresholds | config/modelConfig.ts:14-35 | document/metadata thresholds are 0.6/0.4, 0.3/0.4, 0.2/0.2 and 0.5/0.7 |
| ModelConfig.CompletionModels | config/modelConfig.ts:45-52 | the completion models are gpt-4o and deepseek-chat |
| OutlierFilter.Similarities | src/utils/helper.ts:27 | one similarity per result, in order |
| OutlierFilter.Sum | src/utils/helper.ts:27-31 | the `reduce((sum, r) => sum + ..., 0)` sum, from the left |
| OutlierFilter.Mean | src/utils/helper.ts:27 | the sum of the similarities divided by their number |
| OutlierFilter.Variance | src/utils/helper.ts:30-31 | the population variance: the mean squared deviation from the mean |
| OutlierFilter.AboveLowerBound | src/utils/helper.ts:32-38 | the keep test `s >= mean - stdDev * 0.5` without the square root (equivalence in `AboveLowerBoundIsSqrtFree`) |
| OutlierFilter.KeepTest | src/utils/helper.ts:38 | the `filter` callback: `AboveLowerBound` with the mean and variance of all results |
| OutlierFilter.FilterOutliers | src/utils/helper.ts:23-39 | fewer than two results are returned unchanged |
| OutlierFilter.AboveLowerBoundIsSqrtFree | src/utils/helper.ts:32-35 | the square-root-free test used by the model is equivalent to `s >= mean - stdDev * 0.5` for the true standard deviation |
| OutlierFilter.FilterOutliersSpec | src/utils/helper.ts:23-39 | for two or more results: the output is an order-preserving subsequence, and a result is kept iff its similarity is at least mean minus half the population standard deviation |
| OutlierFilter.MaximumKept | src/utils/helper.ts:27-38 | a result of maximal similarity is never filtered out |
| OutlierFilter.ArgMax | src/utils/helper.ts:27-38 | the index returned holds a maximal similarity |
| OutlierFilter.FilterOutliersNonEmpty | src/utils/helper.ts:23-39 | a non-empty input yields a non-empty output |
| OutlierFilter.FilterOutliersExample | src/utils/helper.ts:23-39 | similarities 0.9, 0.85, 0.2 keep 0.9 and 0.85 |
| RagService.Round4Error | src/services/ragService.ts:12 | rounding to four decimals moves a value by at most 0.00005 |
| RagService.Round4Exact | src/services/ragService.ts:12 | a value with four decimals is unchanged by rounding |
| RagService.Round4Idempotent | src/services/ragService.ts:12 | rounding twice equals rounding once |
| RagService.Round4 | src/services/ragService.ts:12 | `parseFloat(x.toFixed(4))` on exact reals, halves rounded away from zero (error bound in `Round4Error`) |
| RagService.Segments | src/services/ragService.ts:8-9 | one `title: content` segment per document, in order |
| RagService.Segment | src/services/ragService.ts:9 | the text `${doc.title}: ${doc.content}` |
| RagService.References | src/services/ragService.ts:8-13 | one reference per document, in order, with its title and its similarity rounded to four decimals |
| RagService.AugmentedQuery | src/services/ragService.ts:16-17 | the fixed header, the joined segments and the question line (contents in `AugmentedQueryContents`) |
| RagService.AugmentQueryWithDocuments | src/services/ragService.ts:1-20 | returns the augmented query and one reference per document, in order, with title and rounded similarity |
| RagService.AugmentedQueryContents | src/services/ragService.ts:16-17 | every document's segment occurs in the augmented query, which ends with the question |
| RagService.AugmentNoDocuments | src/services/ragService.ts:16-17 | without documents only the fixed header and question prefix surround the query |
| RagService.AugmentOneDocument | src/services/ragService.ts:9-17 | one document contributes exactly the segment `T: C` |
| ResponseService.BuildMessages | src/services/responseService.ts:14-26 | the list is the system prompt, then the forwarded history messages, then the user message when non-empty |
| ResponseService.Forwarded | src/services/responseService.ts:17-21 | a history entry is sent when its role is `user` or `ai` and its message is truthy |
| ResponseService.AsMessage | src/services/responseService.ts:18-20 | `user` is sent as `user`, `ai` as `assistant` |
| ResponseService.HistoryMessages | src/services/responseService.ts:16-22 | the messages the history contributes, in order (stated by `HistoryMessagesAreForwarded`) |
| ResponseService.Trailer | src/services/responseService.ts:24-26 | the final user message, present exactly when the message is truthy |
| ResponseService.HistoryMessagesAreForwarded | src/services/responseService.ts:16-22 | the history contributes exactly the `user`/`ai` entries with a non-empty message, in order, `ai` sent as `assistant` |
| ResponseService.HistoryMessageRoles | src/services/responseService.ts:16-22 | every history message has role `user` or `assistant` and non-empty content |
| ResponseService.MessageListShape | src/services/responseService.ts:14-26 | the list starts with the system prompt, its length is 1 + forwarded turns + (1 if the user message is non-empty), and it ends with the user message iff that message is non-empty |
| MilvusService.Admitted | src/services/milvusService.ts:117 | the rows a filter expression admits are exactly the stored rows satisfying it |
| MilvusService.Admits | src/services/milvusService.ts:117 | the two filter expressions on a row: `is_public == true and bot_id == ...`, and `chat_id == ... or (...)` as in src/controllers/chatController.ts:69 |
| MilvusService.AmongRows | src/services/milvusService.ts:111-119 | a search result names one of the rows the filter admits |
| MilvusService.SearchIn | src/services/milvusService.ts:111-119 | a search succeeds exactly on a present, loaded collection with a query of its dimension; it returns at most `limit` hits, each a stored row the filter admits |
| MilvusService.InsertInto | src/services/milvusService.ts:133-145 | an insert succeeds exactly on a present collection with a vector of its dimension, and appends the row |
| MilvusService.InsertKeepsWellFormed | src/services/milvusService.ts:133-145 | an insert keeps every row at the collection's dimension |
| MilvusService.WellFormed | src/services/milvusService.ts:35-52 | every row of a collection has the dimension of its `embedding` field |
| MilvusService.EmbeddingDimension | src/services/milvusService.ts:23-33 | a dimension exists exactly for the four providers; any other name fails with "Invalid embedding service" |
| MilvusService.Dimensions | src/services/milvusService.ts:23-33 | the dimensions are 1536, 512, 50 and 384, and a provider has a dimension iff it has a configuration entry |
| MilvusService.SetupCollection | src/services/milvusService.ts:35-52 | setup leaves the collection loaded; an absent one is created empty with the dimension; an existing one keeps its dimension and rows |
| MilvusService.SetupCollectionIdempotent | src/services/milvusService.ts:35-52 | setting a collection up twice equals setting it up once |
| MilvusService.SetupKeepsWellFormed | src/services/milvusService.ts:35-52 | setup keeps the dimension invariant |
| MilvusService.GatedInsert | src/services/milvusService.ts:98-151 | a store fails exactly when the collection is missing, the vector has the wrong dimension, or a public row meets an unloaded collection; the failure carries the function's error message; an insert appends exactly the row, and anything else leaves the collection unchanged |
| MilvusService.IsDuplicate | src/services/milvusService.ts:122-124 | a neighbour counts as a duplicate when its score is strictly above 0.98 |
| MilvusService.PrivateInsertAppends | src/services/milvusService.ts:108-145 | a private row is appended without any search |
| MilvusService.PublicInsertSkipsDuplicates | src/services/milvusService.ts:108-130 | a public row gets at most five neighbours, all public rows of its bot, and is skipped iff one scores above 0.98 |
| MilvusService.GatedInsertKeepsWellFormed | src/services/milvusService.ts:98-151 | a store keeps the dimension invariant |
| MilvusService.Gate | src/services/milvusService.ts:108-145 | the shared search-filter-insert steps compute the gate's result and new collection |
| MilvusService.MilvusStore.constructor | src/services/milvusService.ts:4-6 | a fresh server has neither collection |
| MilvusService.MilvusStore.Valid | src/services/milvusService.ts:35-52 | each present collection's rows match its dimension |
| MilvusService.MilvusStore.SetupMilvusCollection | src/services/milvusService.ts:11-96 | an unknown provider fails before touching anything; otherwise both collections are set up with the provider's dimension |
| MilvusService.MilvusStore.StoreEmbeddingInMilvus | src/services/milvusService.ts:98-151 | the document collection and the result follow the dedup gate; the metadata collection is unchanged |
| MilvusService.MilvusStore.StoreMetadataEmbeddingInMilvus | src/services/milvusService.ts:153-208 | the metadata collection and the result follow the dedup gate; the document collection is unchanged |
| MilvusService.MilvusStore.CheckIfCidExistsInMilvus | src/services/milvusService.ts:210-226 | true iff the collection is present and loaded and holds a row of that chat and cid |
| MilvusService.CidExists | src/services/milvusService.ts:210-226 | the existence query: the collection is present and loaded and holds a row of that chat and cid |
| MilvusService.SameChatAndCid | src/services/milvusService.ts:212 | the query `chat_id == ... && cid == ...` on a row |
| MessageStore.ChatHistory | src/controllers/chatController.ts:104-107 | the rows returned are rows of the log for that chat, and every row of that chat is returned |
| MessageStore.OfChat | src/controllers/chatController.ts:104-106 | the `where: { chat_id }` condition |
| MessageStore.ChatHistoryAppend | src/controllers/chatController.ts:145-151 | appending a row of another chat leaves a chat's history unchanged; a row of the chat lands at its end |
| MessageStore.MessageLog.constructor | src/db/db.ts:9-34 | a new table is empty |
| MessageStore.MessageLog.Create | src/controllers/chatController.ts:145-151 | a `Message.create` that succeeds appends exactly the given row |
| MessageStore.MessageLog.FindAll | src/controllers/chatController.ts:103-107 | `Message.findAll` for one chat: its `ChatHistory` |
| SystemPrompt.IntentListAppend | src/utils/helper.ts:44-51 | the intent text of a concatenation is the concatenation of the intent texts |
| SystemPrompt.IntentListAt | src/utils/helper.ts:44-51 | the intent text splits around intent `k` into the text before it, its block and the text after it |
| SystemPrompt.CreateSystemPrompt | src/utils/helper.ts:41-83 | with no configured bot it fails as reading `BOT_INTRO` of `undefined`; otherwise it returns the header, each intent's line and detail lines, the introduction of `getBotConfig(botId)` and the fixed instructions |
| SystemPrompt.IntentLine | src/utils/helper.ts:45 | the line `- "name": description` of an intent |
| SystemPrompt.DetailLine | src/utils/helper.ts:48 | the indented line `  - "name": description` of a detail |
| SystemPrompt.DetailLines | src/utils/helper.ts:46-50 | the detail lines of an intent, in order |
| SystemPrompt.IntentBlock | src/utils/helper.ts:45-50 | an intent's line followed by its detail lines |
| SystemPrompt.IntentList | src/utils/helper.ts:44-51 | the blocks of the intents, in order (split by `IntentListAt`) |
| SystemPrompt.Closing | src/utils/helper.ts:53-81 | the bold bot introduction followed by the fixed instructions |
| SystemPrompt.ListIntents | src/utils/helper.ts:42-51 | the loop yields the header followed by the intent text |
| SystemPrompt.BlockAppended | src/utils/helper.ts:44-51 | one turn of the loop extends the intent text by intent `k`'s block |
| SystemPrompt.AppendDetails | src/utils/helper.ts:46-49 | the inner loop appends one indented line per detail |
| SystemPrompt.SystemPromptListsIntents | src/utils/helper.ts:41-83 | every intent's block occurs in the prompt |
| SystemPrompt.SystemPrompt | src/utils/helper.ts:41-83 | the prompt text for a bot's intents and introduction (contents in `SystemPromptListsIntents`) |
| ChatController.FilterDocuments | src/controllers/chatController.ts:89-99 | the loop yields the retained `(similarity, doc)` pairs |
| ChatController.RetainedIsThresholdFilter | src/controllers/chatController.ts:89-99 | the retained documents are exactly the search results scoring at least the threshold, in search order |
| ChatController.RetainedMeetThreshold | src/controllers/chatController.ts:89-99 | every retained similarity meets the threshold |
| ChatController.AsDocument | src/controllers/chatController.ts:90-97 | a retained hit as the pair of its score and its title and content |
| ChatController.AtLeast | src/controllers/chatController.ts:91 | the test `similarity >= documentSimilarityThreshold` |
| ChatController.Retained | src/controllers/chatController.ts:89-99 | the `(similarity, doc)` pairs of the hits at or above the threshold (characterised by `RetainedIsThresholdFilter`) |
| ChatController.ContentEventsCarryTranscript | src/controllers/chatController.ts:165-171 | the `content` events carry exactly the concatenation of the deltas |
| ChatController.ContentEventsNonEmpty | src/controllers/chatController.ts:165-171 | empty deltas send no event; every event sent is a non-empty `content` event |
| ChatController.ContentEvents | src/controllers/chatController.ts:165-171 | one `content` event per non-empty delta, in order |
| ChatController.Transcript | src/controllers/chatController.ts:165-168 | `completeResponse`: the concatenation of the deltas |
| ChatController.Contents | src/controllers/chatController.ts:124-126 | the concatenated payloads of the `content` events a client receives |
| ChatController.NormaliseStream | src/controllers/chatController.ts:154-177 | the chunk loop yields the events and the complete response of the completion result |
| ChatController.StreamOutput | src/controllers/chatController.ts:154-177 | the events and transcript of a completion result (properties in `StreamOutputCarriesTranscript`) |
| ChatController.AsHistory | src/controllers/chatController.ts:135 | one history entry per stored row, in order |
| ChatController.AsHistoryEntry | src/controllers/chatController.ts:135 | a stored row as `generateResponse` reads it: its role, and its message with null as the empty string |
| ChatController.UserRow | src/controllers/chatController.ts:145-151 | the row stored for the user's query |
| ChatController.AiRow | src/controllers/chatController.ts:181-187 | the row stored for the complete response |
| ChatController.Admit | src/controllers/chatController.ts:31-50 | failures are JSON errors; an admitted request has a truthy `chat_id` and the bot `getBotConfig` selects |
| ChatController.BotKey | src/controllers/chatController.ts:38 | the `botId` handed to `getBotConfig`, with an absent field read as the empty string |
| ChatController.SchemaNotFound | src/controllers/chatController.ts:48 | the 404 message naming the bot id as a template literal prints it |
| ChatController.Retrieve | src/controllers/chatController.ts:55-99 | any failure of embedding, search or configuration lookup is a 500; a success returns at most ten documents, each at or above the provider's document threshold |
| ChatController.Prepare | src/controllers/chatController.ts:132-140 | the references and the message to answer (stated by `ReferencesOfTopThree`) |
| ChatController.Outgoing | src/controllers/chatController.ts:135-138 | the completion request: system prompt, the chat's forwarded history, the message to answer |
| ChatController.Answer | src/controllers/chatController.ts:129-197 | the stream phase with its two `Message.create` calls, each of which may throw (properties in `AnswerEventOrder` and `AnswerStoresTranscript`) |
| ChatController.Respond | src/controllers/chatController.ts:18-208 | `getResponse` as a function of the request, the collaborators, the document collection and the log (properties in `RespondEventOrder` and `RespondStoresTranscript`) |
| ChatController.GetResponse | src/controllers/chatController.ts:18-208 | the reply, and the rows appended to the message log, are those of `Respond` with the real system prompt |
| ChatController.RespondAdmitted | src/controllers/chatController.ts:55-197 | after admission, the reply and the appended rows are those of `Respond` |
| ChatController.RetrieveDocuments | src/controllers/chatController.ts:55-99 | embedding, search and the threshold loop compute `Retrieve` |
| ChatController.Converse | src/controllers/chatController.ts:129-197 | the stream phase's events and appended rows are those of `Answer`, including a `Message.create` that throws after the references (internal error, no `done`) |
| ChatController.MissingChatIdRejected | src/controllers/chatController.ts:31-34 | without `chat_id` the reply is 400 "chat_id is required." and nothing is logged, whatever the collaborators, the store and the log |
| ChatController.RespondStreamsOnlyInAnswer | src/controllers/chatController.ts:18-208 | a JSON error logs nothing; an event stream means validation and retrieval succeeded |
| ChatController.Framed | src/controllers/chatController.ts:129-197 | a stream after the first write: references, content events, at most one stream error just before the closing event |
| ChatController.WellOrdered | src/controllers/chatController.ts:129-190 | a stream framed and closed by `done` |
| ChatController.Aborted | src/controllers/chatController.ts:143-196 | a stream framed and closed by the internal error of the outer catch |
| ChatController.AnswerEventOrder | src/controllers/chatController.ts:129-197 | a failed completion call gives exactly the one error event and logs nothing; otherwise the events are `references`, content events, at most one stream error, and then `done` exactly when both rows were logged, or the internal error when a write threw; `references` occurs only first |
| ChatController.AnswerStoresTranscript | src/controllers/chatController.ts:143-188 | a successful completion call logs the user's query unless that write throws, and then the AI turn equal to the concatenated `content` payloads sent unless that write throws, also when the stream broke off |
| ChatController.StreamOutputCarriesTranscript | src/controllers/chatController.ts:154-177 | the events of a completion result carry exactly its transcript |
| ChatController.BrokenStreamReportsError | src/controllers/chatController.ts:173-190 | once the user row is stored, a stream that breaks off ends with the stream error and then `done`, or the internal error when the AI row cannot be stored |
| ChatController.RespondEventOrder | src/controllers/chatController.ts:110-197 | every event stream of `getResponse` is well ordered with both rows logged, cut short by a failed write (references, content so far, internal error, no `done`) with at most the user row logged, or the single completion-call error with nothing logged |
| ChatController.RespondStoresTranscript | src/controllers/chatController.ts:143-188 | once references were sent, the log gains the user's query unless its write throws, and then the AI turn holding the concatenated `content` payloads unless that write throws |
| ChatController.ReferencesOfTopThree | src/controllers/chatController.ts:132-140 | without retained documents the bare query is answered with no references; otherwise the references are the first min(3, n) documents' titles with rounded similarities |
| ChatController.SearchStaysVisible | src/controllers/chatController.ts:63-71 | the chat search returns at most ten hits, each a row of this chat or a public row of the requested bot |
| ChatController.GetChatDetail | src/controllers/chatController.ts:210-253 | a chat with no rows gets 404; otherwise one entry per row in order, with role and timestamp, and the title for `file` rows or the message otherwise |
| ChatController.AsDetail | src/controllers/chatController.ts:223-238 | a `file` row shows role, title and timestamp; any other row shows role, message and timestamp |
| InitEmbeddingService.FileName | src/services/initEmbeddingService.ts:62 | a name found is non-empty and belongs to a link carrying the cid |
| InitEmbeddingService.Addressable | src/services/initEmbeddingService.ts:55-69 | an entry passes both skip checks: a truthy cid and description, and a file name for its cid |
| InitEmbeddingService.EntryUrl | src/services/initEmbeddingService.ts:71 | the entry's URL `${link}/${fileName}` |
| InitEmbeddingService.Reports | src/services/initEmbeddingService.ts:55-89 | the result entries an entry may give, by the checks it passes |
| InitEmbeddingService.ErrorMessage | src/services/initEmbeddingService.ts:20-46 | the message of each error the service throws itself |
| InitEmbeddingService.Step | src/services/initEmbeddingService.ts:51-90 | an entry without cid or description, or whose cid names no file, is reported and changes nothing; an existing `(chat_id, cid)` is reported as skipped and changes nothing; a new addressable entry that succeeds is reported as stored with its URL, and a stored entry was new and addressable; a failure comes only from a new addressable entry and changes nothing |
| InitEmbeddingService.ProcessMetadataEmbeddings | src/services/initEmbeddingService.ts:14-96 | the metadata collection and the outcome are those of `ProcessMetadata`; the document collection is unchanged |
| InitEmbeddingService.IngestFiles | src/services/initEmbeddingService.ts:48-90 | the manifest loop computes `Ingest` |
| InitEmbeddingService.Ingest | src/services/initEmbeddingService.ts:48-90 | the manifest loop as a function of the entries so far (properties in `OneResultPerEntry` and the lemmas below) |
| InitEmbeddingService.Manifest | src/services/initEmbeddingService.ts:20-46 | the directory fetch, the `meta.json` lookup and fetch, and the `files` checks, each failure with its message |
| InitEmbeddingService.ProcessMetadata | src/services/initEmbeddingService.ts:14-96 | `processMetadataEmbeddings`: the manifest, then the loop, then the report |
| InitEmbeddingService.IngestSnoc | src/services/initEmbeddingService.ts:51-90 | the run over one more entry is the previous run followed by that entry's step |
| InitEmbeddingService.IngestEntry | src/services/initEmbeddingService.ts:52-89 | one loop iteration computes `Step` |
| InitEmbeddingService.IngestFailureSticks | src/services/initEmbeddingService.ts:72-76 | a thrown error ends the run: later entries change neither the collection nor the outcome |
| InitEmbeddingService.OneResultPerEntry | src/services/initEmbeddingService.ts:51-90 | a finished run reports exactly one result per manifest entry, in order, of the kind the entry calls for, with the URL `link/fileName` |
| InitEmbeddingService.IngestOnlyAppends | src/services/initEmbeddingService.ts:51-90 | a run keeps the existing rows as a prefix, and keeps the dimension and load state |
| InitEmbeddingService.CidExistsMonotone | src/services/initEmbeddingService.ts:72 | a `(chat_id, cid)` that exists keeps existing while rows are only appended |
| InitEmbeddingService.PrivateRunRecordsEveryEntry | src/services/initEmbeddingService.ts:51-90 | after a finished private run on a loaded collection, every addressable entry's `(chat_id, cid)` exists |
| InitEmbeddingService.StepOnlyAppends | src/services/initEmbeddingService.ts:52-89 | one step keeps the rows as a prefix, and keeps the dimension and load state |
| InitEmbeddingService.PrivateStepRecords | src/services/initEmbeddingService.ts:72-76 | a successful private step on an addressable entry leaves its `(chat_id, cid)` stored |
| InitEmbeddingService.RunOverRecordedEntries | src/services/initEmbeddingService.ts:72-89 | when every addressable entry already exists, a run changes nothing and stores nothing |
| InitEmbeddingService.PrivateIngestionIdempotent | src/services/initEmbeddingService.ts:51-90 | rerunning a finished private run on the loaded collection it produced changes nothing and stores nothing |
| InitEmbeddingService.ProcessEmbeddings | src/services/initEmbeddingService.ts:6-12 | a failed scrape fails with the store unchanged; otherwise the document collection and the outcome are those of `StorePages` |
| InitEmbeddingService.StorePagesSnoc | src/services/initEmbeddingService.ts:8-11 | storing one more page after a successful run is that page's store |
| InitEmbeddingService.StorePages | src/services/initEmbeddingService.ts:8-11 | the page loop as a function of the pages so far (properties in `StoredPagesArePublicDefault`) |
| InitEmbeddingService.StorePage | src/services/initEmbeddingService.ts:9-10 | embedding one page and storing it as a public row of chat "default", titled with its URL |
| InitEmbeddingService.EmbedPage | src/services/initEmbeddingService.ts:9-10 | the loop body computes `StorePage` |
| InitEmbeddingService.StorePagesFailureSticks | src/services/initEmbeddingService.ts:8-11 | a failed page ends the run: later pages change nothing |
| InitEmbeddingService.StoredPagesArePublicDefault | src/services/initEmbeddingService.ts:6-12 | existing rows are kept as a prefix; every added row is public, of chat "default" and the given bot, titled with a scraped page's URL and holding its text |
| DocumentUpload.EmbedOne | src/controllers/embeddingControllers.ts:98-134 | an entry names the file, carries its content, the embedding of that content and the chat id, and says whether it was stored; a 500 happens exactly when embedding fails or, when saving, the store fails; without `save` nothing is stored, with it the row is appended or skipped as a duplicate |
| DocumentUpload.GenerateEmbeddings | src/controllers/embeddingControllers.ts:83-150 | the document collection and the reply are those of `Generate`; the metadata collection is unchanged |
| DocumentUpload.EmbedFileList | src/controllers/embeddingControllers.ts:114-135 | the file loop computes `EmbedFiles` |
| DocumentUpload.EmbedFiles | src/controllers/embeddingControllers.ts:114-135 | the file loop as a function of the files so far (properties in `EntryPerFile` and the lemmas below) |
| DocumentUpload.Generate | src/controllers/embeddingControllers.ts:83-150 | `generateEmbeddings` on the document collection (properties in the lemmas below) |
| DocumentUpload.Settings | src/controllers/embeddingControllers.ts:86-90 | the request's chat id or the fresh one, and the `save` and `is_public` flags |
| DocumentUpload.Supported | src/controllers/embeddingControllers.ts:118-119 | the extension after the last `.` is `txt` or `md` (examples in `SupportedExamples`) |
| DocumentUpload.UnsupportedType | src/controllers/embeddingControllers.ts:120 | the 400 message naming the rejected file |
| DocumentUpload.Embed | src/controllers/embeddingControllers.ts:98-110 | the body shared by the text branch and the file loop computes `EmbedOne` |
| DocumentUpload.EmbedFilesFailureSticks | src/controllers/embeddingControllers.ts:116-122 | a rejected or failed file ends the loop: later files change nothing |
| DocumentUpload.BothInputsRejected | src/controllers/embeddingControllers.ts:92-95 | text together with a non-empty file list gets 400 and stores nothing |
| DocumentUpload.NoInputRejected | src/controllers/embeddingControllers.ts:136-138 | neither text nor files gets 400 and stores nothing |
| DocumentUpload.EntryPerFile | src/controllers/embeddingControllers.ts:114-135 | a finished file loop reports one entry per file, in order, with its name, content, the embedding of its content and the chat id, and every file had a supported type |
| DocumentUpload.TextInputEntry | src/controllers/embeddingControllers.ts:98-111 | text input yields the single entry `text_input.txt` holding the text |
| DocumentUpload.UnsupportedFileRejected | src/controllers/embeddingControllers.ts:117-121 | the first unsupported file gets 400 naming it, keeping what the earlier files stored |
| DocumentUpload.WithoutSaveNothingStored | src/controllers/embeddingControllers.ts:126 | without `save` the file loop stores nothing |
| DocumentUpload.GenerateWithoutSave | src/controllers/embeddingControllers.ts:87 | a request without `save` leaves the document collection unchanged |
| DocumentUpload.PrivateSaveAppendsEachFile | src/controllers/embeddingControllers.ts:114-135 | a finished private save appends exactly one private row per file, in order, with its name, content, chat id and bot id |
| DocumentUpload.PrivateRowOf | src/controllers/embeddingControllers.ts:124-130 | the private row a saved file becomes: its name as title, its content, the chat and bot ids |
| DocumentUpload.SupportedExamples | src/controllers/embeddingControllers.ts:118-119 | `notes.md`, `readme.txt` and `txt` pass; `graph.png` and `README` do not |
| MetadataSearch.AboveThreshold | src/controllers/embeddingControllers.ts:53-65 | never more entries than hits |
| MetadataSearch.AsResult | src/controllers/embeddingControllers.ts:57-62 | a hit as a response entry: cid, url, score as similarity, description |
| MetadataSearch.Similarity | src/controllers/embeddingControllers.ts:71 | the `similarity` field the outlier filter reads |
| MetadataSearch.ScoresAtLeast | src/controllers/embeddingControllers.ts:56 | the test `similarity >= metadataSimilarityThreshold` |
| MetadataSearch.CollectResults | src/controllers/embeddingControllers.ts:48-65 | the threshold loop yields the collected entries |
| MetadataSearch.AboveThresholdIsFilter | src/controllers/embeddingControllers.ts:53-65 | the collected entries are exactly the hits scoring at least the threshold, in search order |
| MetadataSearch.AboveThresholdMeets | src/controllers/embeddingControllers.ts:53-65 | every collected similarity meets the threshold |
| MetadataSearch.FirstOfCidIsFindIndex | src/controllers/embeddingControllers.ts:67-69 | "no earlier entry has this cid" is the test `index === findIndex(same cid)` |
| MetadataSearch.SameCid | src/controllers/embeddingControllers.ts:68 | the `findIndex` callback `t => t.cid === item.cid` |
| MetadataSearch.FirstOfCid | src/controllers/embeddingControllers.ts:67-69 | no earlier entry has the same cid |
| MetadataSearch.DistinctCids | src/controllers/embeddingControllers.ts:67-69 | no two entries share a cid |
| MetadataSearch.KeepFirsts | src/controllers/embeddingControllers.ts:67-69 | the filter over the first `n` entries keeps at most `n` |
| MetadataSearch.KeepFirstsElements | src/controllers/embeddingControllers.ts:67-69 | every kept entry is the first of its cid |
| MetadataSearch.KeepFirstsComplete | src/controllers/embeddingControllers.ts:67-69 | every first occurrence is kept |
| MetadataSearch.KeepFirstsDistinct | src/controllers/embeddingControllers.ts:67-69 | no two kept entries share a cid |
| MetadataSearch.KeepFirstsInOrder | src/controllers/embeddingControllers.ts:67-69 | the kept entries appear in the input's order |
| MetadataSearch.UniqueByCid | src/controllers/embeddingControllers.ts:67-69 | `uniqueResults` (characterised by `UniqueByCidSpec`) |
| MetadataSearch.UniqueByCidSpec | src/controllers/embeddingControllers.ts:67-69 | the dedup result is a subsequence of the input (order kept), has distinct cids, holds only first occurrences, and keeps every cid of the input |
| MetadataSearch.UniqueByCidKeepsFirsts | src/controllers/embeddingControllers.ts:67-69 | each kept entry is an input entry that no earlier entry shares a cid with |
| MetadataSearch.UniqueByCidKeepsEveryCid | src/controllers/embeddingControllers.ts:67-69 | every cid of the input survives the dedup |
| MetadataSearch.FilterKeepsDistinct | src/controllers/embeddingControllers.ts:71 | filtering keeps cids distinct |
| MetadataSearch.RetrieveMetaData | src/controllers/embeddingControllers.ts:13-81 | the reply is `Retrieval` on the metadata collection |
| MetadataSearch.Retrieval | src/controllers/embeddingControllers.ts:13-81 | `retrieveMetaData` as a function of the request and the metadata collection (properties in `RetrievedMetadata`) |
| MetadataSearch.OutliersAmongInputs | src/controllers/embeddingControllers.ts:71 | the outlier filter returns only entries it was given |
| MetadataSearch.RefineKeeps | src/controllers/embeddingControllers.ts:67-71 | dedup then outlier filtering never grows the list, keeps cids distinct, and keeps every similarity at or above the threshold |
| MetadataSearch.Refine | src/controllers/embeddingControllers.ts:67-71 | dedup by cid, then the outlier filter |
| MetadataSearch.RetrievedMetadata | src/controllers/embeddingControllers.ts:13-81 | a successful retrieval returns at most ten entries with distinct cids, each scoring at least the provider's metadata threshold |
| MetadataSearch.DedupExample | src/controllers/embeddingControllers.ts:67-69 | on two entries sharing a cid, the first of them is kept |
| MetadataUpload.GenerateMetadataEmbeddings | src/controllers/embeddingControllers.ts:152-177 | the metadata collection and the reply are those of `IngestMetadata`; the document collection is unchanged |
| MetadataUpload.IngestMetadata | src/controllers/embeddingControllers.ts:152-177 | `generateMetadataEmbeddings`: validation, then `ProcessMetadata` (properties in `MetadataRequestValidated`) |
| MetadataUpload.MetadataRequestValidated | src/controllers/embeddingControllers.ts:160-168 | no link gets the 400 about the link; a link without `chat_id` gets the 400 about the chat id; a report requires both |
| MetadataUpload.RepeatedPrivateIngestion | src/controllers/embeddingControllers.ts:152-177 | the same private request sent twice to a loaded collection stores nothing the second time |
| GloveService.Min3 | src/services/gloveService.ts:73-77 | the minimum is one of the three values and at most each |
| GloveService.EditDistance | src/services/gloveService.ts:54-83 | the distance to an empty string is the other string's length |
| GloveService.Dist | src/services/gloveService.ts:54-83 | the edit distance of two prefixes by the Levenshtein recurrence |
| GloveService.DistStep | src/services/gloveService.ts:68-80 | the recurrence the table follows: equal last characters copy the diagonal, otherwise 1 plus the minimum of the three neighbours |
| GloveService.FillCell | src/services/gloveService.ts:70-77 | filling an entry sets it to the edit distance of its prefixes and keeps the table invariant |
| GloveService.FillRow | src/services/gloveService.ts:69-79 | filling row `i` makes rows `0..i` hold the prefix distances |
| GloveService.LevenshteinDistance | src/services/gloveService.ts:54-83 | the dynamic program returns the edit distance |
| GloveService.EditDistanceProperties | src/services/gloveService.ts:54-83 | the distance is 0 iff the strings are equal, and at most the longer length |
| GloveService.FirstBest | src/services/gloveService.ts:97-103 | the strict `<` scan keeps the first entry at minimal distance |
| GloveService.FindClosestWord | src/services/gloveService.ts:86-106 | the scan returns `ClosestWord` |
| GloveService.ClosestWord | src/services/gloveService.ts:86-106 | the closest-word search as a function (characterised by `ClosestWordSpec`) |
| GloveService.Threshold | src/services/gloveService.ts:95 | 2 for words of up to five characters, else 3 |
| GloveService.ClosestWordSpec | src/services/gloveService.ts:86-106 | a match is returned iff some entry lies within the threshold (2 for words up to 5 characters, else 3); it is then an entry at minimal distance with no earlier entry as close |
| GloveService.StripLeadingSpec | src/services/gloveService.ts:112 | `^\W+` removes a run of non-word characters and keeps a suffix that starts with a word character |
| GloveService.StripTrailingSpec | src/services/gloveService.ts:112 | `\W+$` removes a run of non-word characters and keeps a prefix that ends with a word character |
| GloveService.StripLeading | src/services/gloveService.ts:112 | `^\W+` removal (characterised by `StripLeadingSpec`) |
| GloveService.StripTrailing | src/services/gloveService.ts:112 | `\W+$` removal (characterised by `StripTrailingSpec`) |
| GloveService.IsWordChar | src/services/gloveService.ts:112 | the characters of `\w`: ASCII letters, digits and underscore |
| GloveService.CleanWord | src/services/gloveService.ts:109-113 | the cleaned word occurs in the word, starts and ends with word characters, and is empty iff the word has none |
| GloveService.CleanWordIdempotent | src/services/gloveService.ts:109-113 | cleaning twice equals cleaning once |
| GloveService.SkipSpaces | src/services/gloveService.ts:117 | what remains is a suffix that does not start with whitespace |
| GloveService.IsSpace | src/services/gloveService.ts:117 | the characters of JavaScript `\s`: the ASCII controls tab to carriage return, space, and the Unicode space separators, line terminators and BOM |
| GloveService.SplitOnWhitespace | src/services/gloveService.ts:117 | `split(/\s+/)` yields at least one piece, none containing whitespace |
| GloveService.Words | src/services/gloveService.ts:117-120 | the pieces lower-cased and cleaned, and after `filter(Boolean)` no word is empty |
| GloveService.GetWordEmbedding | src/services/gloveService.ts:44-51 | fails iff nothing is loaded; otherwise the word's own vector, or `None` when the word is not in the table |
| GloveService.Resolve | src/services/gloveService.ts:130-143 | a resolved vector is one of the table's vectors |
| GloveService.ResolveAll | src/services/gloveService.ts:130-143 | never more vectors than words, each from the table, all of one length |
| GloveService.ResolveExact | src/services/gloveService.ts:131-132 | a word in the table resolves to its own vector without a fuzzy search |
| GloveService.ResolveAllDropsUnresolved | src/services/gloveService.ts:130-143 | exactly one vector per resolved word |
| GloveService.ResolveWords | src/services/gloveService.ts:130-143 | the mapping loop computes `ResolveAll` |
| GloveService.Average | src/services/gloveService.ts:149-158 | the average has the first vector's length, and component `i` is the sum of the components `i` divided by the number of vectors |
| GloveService.ColumnSum | src/services/gloveService.ts:152-156 | the sum of component `i` over the vectors, as the accumulating loop computes it |
| GloveService.TextVectors | src/services/gloveService.ts:117-143 | the resolved vectors of a text's words |
| GloveService.GetTextEmbedding | src/services/gloveService.ts:115-159 | fails when nothing is loaded or no word resolves; otherwise it returns the component-wise mean of the resolved vectors |

## Left out

- Loading the GloVe file (`loadGloveEmbeddings`) and `getFirstTxtFile` read the filesystem. The table is given as a `GloveTable` value, or `None` when not loaded.
- `GetTextEmbedding`, `Resolve`, `ResolveAll`, `ResolveWords`: these require every vector of the table to have one length, as in a GloVe file. For ragged vectors the code indexes past the end, which produces `NaN`; this is not modelled.
- `Average`: requires its vectors to share the first vector's length, for the same reason.
- JavaScript prototype keys in the word table (such as `constructor`) are not modelled. A word is in the table exactly when it is one of its keys.
- Levenshtein distance and `\w`/`\s` work on `char`s. UTF-16 surrogate pairs are not distinguished.
- ToLowerChar, ToLower, Words: `toLowerCase` is modelled for the capitals of Basic Latin and the Latin-1 Supplement only. Capitals of other scripts (Latin Extended, Greek, Cyrillic, ...) are left unchanged, and mappings that change the length (such as `İ` to `i̇`) are not modelled, so a word with such a capital may miss its exact table entry.
- A request to `getResponse` without `query` is not modelled: `ChatRequest.query` is a plain string. In the code an absent query is passed on as `undefined` to `getEmbedding` and, when that succeeds, to `Message.create`.
- Floating point is modelled as exact reals. `toFixed(4)` followed by `parseFloat` is `RagService.Round4`, which rounds halves away from zero on the exact value, as `toFixed` does; binary rounding artefacts are not modelled. The outlier filter compares squares instead of taking `Math.sqrt`. `OutlierFilter.AboveLowerBoundIsSqrtFree` proves the two tests equivalent for the true square root.
- The fixed instructions of the system prompt are one string constant. `ChatController.Respond` and the lemmas about it take the prompt builder as a parameter. `ChatController.GetResponse` instantiates it with `SystemPrompt.SystemPrompt`, so the lemmas hold for the real prompt.
- The embedding providers are left out: OpenAI, TensorFlow, MiniLM and the dispatch in `embeddingService.ts`. Each embedder is a parameter that yields a vector or fails. The completion backend (`completionService.ts`) is a parameter that yields a string, a chunk stream that may break off, or a failure.
- The approximate-nearest-neighbour ranking, cosine scores and index parameters are a `Ranker` parameter. Only its results among the rows the filter admits are kept, at most `limit` of them.
- Milvus schema details are not modelled: field lengths, the auto-generated id and the index type. A collection that already exists keeps its dimension even when the configured provider now differs, as in the code.
- `MilvusService.MilvusStore.StoreEmbeddingInMilvus` and `StoreMetadataEmbeddingInMilvus` do not model the SDK's own error codes. Every search or insert failure becomes the function's error message.
- VisibleTo, PublicOfBot, CidExists: the code builds every Milvus filter by pasting `chat_id`, `bot_id` and `cid` into a string without escaping (src/controllers/chatController.ts:69, src/controllers/embeddingControllers.ts:34, src/services/milvusService.ts:117, 173 and 212). The model compares the ids exactly, as the filters are meant to. Ids containing `"` or `\` are not modelled. In the code such an id makes the expression malformed, so the search fails with a 500 and the existence check answers `false`. It can also change the expression's meaning: the chat id `x" or chat_id != "` admits every chat's rows.
- SearchStaysVisible: holds for the filter as written out above; for a `chat_id` or `bot_id` containing `"` the code's search can admit rows of other chats.
- PublicInsertSkipsDuplicates: the neighbours are public rows of the bot for the same reason; a `bot_id` containing `"` changes the code's filter.
- CheckIfCidExistsInMilvus: a chat id or cid containing `"` makes the code's query malformed, so the code answers `false` where the model finds the row. A rerun then stores the entry again, so `InitEmbeddingService.PrivateIngestionIdempotent` and `MetadataUpload.RepeatedPrivateIngestion` hold in the code only for ids without `"`.
- `MilvusService.CidExists`: a query the store rejects is reported as `false`, as the code's catch does. A missing or unloaded collection therefore looks empty. This is why `InitEmbeddingService.PrivateIngestionIdempotent` needs a loaded collection.
- `InitEmbeddingService.PrivateIngestionIdempotent` is stated for private ingestion only. For a public entry the dedup gate may skip the insert of a near-duplicate. The entry is then still reported as "Embedding generated and stored in Milvus.", as in the code, but a rerun will embed it again.
- The HTTP layer of `processMetadataEmbeddings` is reduced to whole-response values. A rejected request is `RequestFailed`. A directory listing without `links`, which would throw a `TypeError`, is not modelled.
- `meta.json` entries whose `cid` or `description` is present but not a string are not modelled. Falsy fields are the empty string.
- The scraper `scrapeGitbook` is left out. `processEmbeddings` receives its page list, or `None` when scraping fails.
- The request fields `save` and `is_public` are optional strings. A present non-string value, which makes `toLowerCase` throw, is not modelled. In the upload endpoints `bot_id` is a plain string. In the chat and metadata searches an absent `bot_id` prints as `"undefined"` in the filter expression (`RequestFields.Interpolate`).
- The extension check follows the code, not the intent. A file named just `txt` or `md` passes, and the test is case-sensitive (`NOTES.MD` is refused).
- In the code, a request with `files` present but empty and no text gets 200 with no results, and an upload rejected part-way keeps the rows already stored. The model states both as written.
- A failure inside ingestion (embedding or store) aborts the whole run with a 500, as the code does. It does not become a per-entry error.
- The non-streaming branch of `getResponse` cannot be reached, because `streamMode` is forced to `true`. It is not modelled.
- The logging, the timing measurements, the response headers and `res.end()` have no effect on the result and are left out.
- `Message.findAll` ordering by `timestamp` is modelled as insertion order. The user and AI rows of one turn are both stamped with the `now` parameter. A `Message.create` that throws in the stream phase is modelled through `Backends.accepts`; a `Message.findAll` that throws, which the code answers with a 500, is not modelled.
- A failure while reading the intent schema is modelled as an absent schema path (404). The JSON parsing of the schema file is not modelled.
- `retrieveMetaData` reads the configuration threshold after the search. An unknown provider therefore also answers 500, and the model keeps that order.
- Setup of the bots and the Express routing (`setupBotsService.ts`, `app.ts`, the route files) lie outside the modelled core.
