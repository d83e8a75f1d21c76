/**
 * The chat endpoint of src/controllers/chatController.ts: `getResponse` validates the request,
 * builds the system prompt, retrieves and filters documents, asks the completion backend and
 * streams the answer as server-sent events while logging both turns; `getChatDetail` returns a
 * chat's stored turns.
 */
module ChatController {
  import opened Wrappers
  import opened Vectors
  import opened RequestFields
  import Seqs
  import ModelConfig
  import BotDetail
  import SystemPrompt
  import RagService
  import ResponseService
  import MilvusService
  import MessageStore

  /** The body fields `getResponse` reads; `None` is a field that is absent. */
  datatype ChatRequest = ChatRequest(query: string, chatId: Option<string>, botId: Option<string>)

  /**
   * What the completion backend returns: a whole string, or a stream of chunk deltas (the empty
   * string for a chunk without content) that may break off with an error after the deltas it
   * delivered; or the call itself fails.
   */
  datatype Completion = Whole(text: string) | Chunks(deltas: seq<string>, breaks: bool) | CallFailed

  /** A server-sent event. */
  datatype Event =
    | References(refs: seq<RagService.DocReference>)
    | Content(text: string)
    | Error(message: string)
    | Done

  /** A JSON error with its status, or a 200 event stream. */
  datatype Reply = JsonError(status: nat, error: string) | EventStream(events: seq<Event>)

  /**
   * The collaborators of the endpoint: the configured bots, the intent schema files by path (a
   * missing or unparsable file is absent), the configured embedding service, the embedder (`None`
   * when it throws), the document search, the completion backend, and the database's verdict on
   * each row `Message.create` is asked to store (`false` when the call throws).
   */
  datatype Backends = Backends(
    bots: seq<BotDetail.Bot>,
    schemas: map<string, seq<SystemPrompt.Intent>>,
    service: string,
    embed: string -> Option<Vector>,
    rank: MilvusService.Ranker<MilvusService.DocumentFields>,
    complete: seq<ResponseService.ChatMessage> -> Completion,
    accepts: MessageStore.StoredMessage -> bool)

  const ChatIdRequired := "chat_id is required."

  const InternalError := "Internal server error."

  const StreamInternalError := "Internal server error"

  const StreamError := "Error processing stream"

  /** How many results the document search asks for, and how many retained documents augment the query. */
  const SearchLimit := 10

  const AugmentLimit := 3

  /** The `botId` handed to `getBotConfig`: an absent field is falsy like the empty string. */
  function BotKey(botId: Option<string>): string
  {
    if botId.Some? then botId.value else ""
  }

  function SchemaNotFound(botId: Option<string>): string
  {
    "Intent schema not found for bot " + Interpolate(botId)
  }

  // ---------------------------------------------------------------------------
  // Document filter
  // ---------------------------------------------------------------------------

  function AsDocument(h: MilvusService.Hit<MilvusService.DocumentFields>): (real, RagService.Doc)
  {
    (h.score, RagService.Doc(h.record.fields.title, h.record.fields.content))
  }

  function AtLeast(threshold: real): MilvusService.Hit<MilvusService.DocumentFields> -> bool
  {
    (h: MilvusService.Hit<MilvusService.DocumentFields>) => h.score >= threshold
  }

  /** The search results scoring at least `threshold`, as `(similarity, doc)` pairs, in search order. */
  function Retained(hits: seq<MilvusService.Hit<MilvusService.DocumentFields>>, threshold: real)
    : seq<(real, RagService.Doc)>
  {
    if hits == [] then []
    else
      var last := hits[|hits| - 1];
      Retained(hits[..|hits| - 1], threshold) + (if last.score >= threshold then [AsDocument(last)] else [])
  }

  /** The filter loop of `getResponse`. */
  method FilterDocuments(hits: seq<MilvusService.Hit<MilvusService.DocumentFields>>, threshold: real)
    returns (highSimilarityDocs: seq<(real, RagService.Doc)>)
    ensures highSimilarityDocs == Retained(hits, threshold)
  {
    highSimilarityDocs := [];
    for i := 0 to |hits|
      invariant highSimilarityDocs == Retained(hits[..i], threshold)
    {
      assert hits[..i + 1][..i] == hits[..i];
      var similarity := hits[i].score;
      if similarity >= threshold {
        highSimilarityDocs := highSimilarityDocs + [(similarity, RagService.Doc(hits[i].record.fields.title, hits[i].record.fields.content))];
      }
    }
    assert hits[..|hits|] == hits;
  }

  /** The retained documents are exactly the results at or above the threshold, in order. */
  lemma {:induction false} RetainedIsThresholdFilter(hits: seq<MilvusService.Hit<MilvusService.DocumentFields>>, threshold: real)
    ensures |Retained(hits, threshold)| == |Seqs.Filter(hits, AtLeast(threshold))|
    ensures forall k :: 0 <= k < |Retained(hits, threshold)| ==>
              Retained(hits, threshold)[k] == AsDocument(Seqs.Filter(hits, AtLeast(threshold))[k])
  {
    if hits != [] {
      var init, last := hits[..|hits| - 1], hits[|hits| - 1];
      RetainedIsThresholdFilter(init, threshold);
      assert hits == init + [last];
      Seqs.FilterAppend(init, [last], AtLeast(threshold));
      assert Seqs.Filter([last], AtLeast(threshold)) == if last.score >= threshold then [last] else [] by {
        assert [last][1..] == [];
      }
    }
  }

  /** Every retained similarity meets the threshold. */
  lemma {:induction false} RetainedMeetThreshold(hits: seq<MilvusService.Hit<MilvusService.DocumentFields>>, threshold: real)
    ensures forall k :: 0 <= k < |Retained(hits, threshold)| ==> Retained(hits, threshold)[k].0 >= threshold
  {
    if hits != [] {
      RetainedMeetThreshold(hits[..|hits| - 1], threshold);
    }
  }

  // ---------------------------------------------------------------------------
  // Stream normalisation
  // ---------------------------------------------------------------------------

  /** One `content` event per non-empty delta, in order. */
  function ContentEvents(deltas: seq<string>): seq<Event>
  {
    if deltas == [] then []
    else
      var last := deltas[|deltas| - 1];
      ContentEvents(deltas[..|deltas| - 1]) + (if last != "" then [Content(last)] else [])
  }

  /** The concatenation of the deltas. */
  function Transcript(deltas: seq<string>): string
  {
    if deltas == [] then "" else Transcript(deltas[..|deltas| - 1]) + deltas[|deltas| - 1]
  }

  /** The concatenation of the payloads of the `content` events. */
  function Contents(events: seq<Event>): string
  {
    if events == [] then ""
    else
      var last := events[|events| - 1];
      Contents(events[..|events| - 1]) + (if last.Content? then last.text else "")
  }

  lemma {:induction false} ContentsAppend(a: seq<Event>, b: seq<Event>)
    ensures Contents(a + b) == Contents(a) + Contents(b)
  {
    if b == [] {
      assert a + b == a;
    } else {
      assert (a + b)[..|a + b| - 1] == a + b[..|b| - 1];
      ContentsAppend(a, b[..|b| - 1]);
    }
  }

  /** The `content` events of a stream carry exactly its transcript. */
  lemma {:induction false} ContentEventsCarryTranscript(deltas: seq<string>)
    ensures Contents(ContentEvents(deltas)) == Transcript(deltas)
  {
    if deltas != [] {
      var init, last := deltas[..|deltas| - 1], deltas[|deltas| - 1];
      ContentEventsCarryTranscript(init);
      var tail := if last != "" then [Content(last)] else [];
      ContentsAppend(ContentEvents(init), tail);
      assert Contents(tail) == last by {
        if last != "" {
          assert tail[..0] == [];
        }
      }
      assert ContentEvents(deltas) == ContentEvents(init) + tail;
    }
  }

  /** Every event made from the deltas is a `content` event with a non-empty payload. */
  lemma {:induction false} ContentEventsNonEmpty(deltas: seq<string>)
    ensures forall k :: 0 <= k < |ContentEvents(deltas)| ==>
              ContentEvents(deltas)[k].Content? && ContentEvents(deltas)[k].text != ""
  {
    if deltas != [] {
      var init, last := deltas[..|deltas| - 1], deltas[|deltas| - 1];
      ContentEventsNonEmpty(init);
      var tail := if last != "" then [Content(last)] else [];
      var events := ContentEvents(deltas);
      assert events == ContentEvents(init) + tail;
      forall k | 0 <= k < |events|
        ensures events[k].Content? && events[k].text != ""
      {
        if k >= |ContentEvents(init)| {
          assert events[k] == tail[k - |ContentEvents(init)|];
        }
      }
    }
  }

  /** The events and the transcript a completion result gives: one event for a string, one per non-empty delta for a stream. */
  function StreamOutput(completion: Completion): (seq<Event>, string)
    requires !completion.CallFailed?
  {
    match completion
    case Whole(text) => ([Content(text)], text)
    case Chunks(deltas, breaks) =>
      (ContentEvents(deltas) + (if breaks then [Error(StreamError)] else []), Transcript(deltas))
  }

  /** The chunk loop of `getResponse`: `completeResponse +=` and a `content` event per non-empty delta. */
  method NormaliseStream(completion: Completion) returns (events: seq<Event>, completeResponse: string)
    requires !completion.CallFailed?
    ensures (events, completeResponse) == StreamOutput(completion)
  {
    if completion.Whole? {
      return [Content(completion.text)], completion.text;
    }
    var deltas := completion.deltas;
    events, completeResponse := [], "";
    for i := 0 to |deltas|
      invariant events == ContentEvents(deltas[..i])
      invariant completeResponse == Transcript(deltas[..i])
    {
      assert deltas[..i + 1][..i] == deltas[..i];
      var content := deltas[i];
      if content != "" {
        completeResponse := completeResponse + content;
        events := events + [Content(content)];
      }
    }
    assert deltas[..|deltas|] == deltas;
    if completion.breaks {
      events := events + [Error(StreamError)];
    }
    assert events == StreamOutput(completion).0;
    assert completeResponse == StreamOutput(completion).1;
  }

  // ---------------------------------------------------------------------------
  // getResponse
  // ---------------------------------------------------------------------------

  /** A stored turn as `generateResponse` reads it: a null message is falsy. */
  function AsHistoryEntry(m: MessageStore.StoredMessage): ResponseService.HistoryEntry
  {
    ResponseService.HistoryEntry(
      if m.role == "user" then ResponseService.User
      else if m.role == "ai" then ResponseService.Ai
      else ResponseService.Other(m.role),
      if m.message.Some? then m.message.value else "")
  }

  function AsHistory(rows: seq<MessageStore.StoredMessage>): (h: seq<ResponseService.HistoryEntry>)
    ensures |h| == |rows| && forall k :: 0 <= k < |rows| ==> h[k] == AsHistoryEntry(rows[k])
  {
    seq(|rows|, k requires 0 <= k < |rows| => AsHistoryEntry(rows[k]))
  }

  function UserRow(chatId: string, query: string, now: int): MessageStore.StoredMessage
  {
    MessageStore.StoredMessage(chatId, "user", "message", None, Some(query), now)
  }

  function AiRow(chatId: string, transcript: string, now: int): MessageStore.StoredMessage
  {
    MessageStore.StoredMessage(chatId, "ai", "message", None, Some(transcript), now)
  }

  /** The message to answer and the references to announce: the top three retained documents, or the bare query. */
  function Prepare(query: string, docs: seq<(real, RagService.Doc)>): (seq<RagService.DocReference>, string)
  {
    if |docs| > 0 then
      var top := Seqs.Take(docs, AugmentLimit);
      (RagService.References(top), RagService.AugmentedQuery(query, top))
    else ([], query)
  }

  /** A request that passed validation: its chat, the bot it addresses and that bot's intents. */
  datatype Admission = Admission(chatId: string, bot: BotDetail.Bot, intents: seq<SystemPrompt.Intent>)

  /**
   * Validation: 400 without `chat_id`, 500 when `getBotConfig` yields nothing (the `TypeError` of
   * reading a field of `undefined`), 404 when the bot's intent schema cannot be read.
   */
  function Admit(req: ChatRequest, env: Backends): (r: Result<Admission, Reply>)
    ensures r.Failure? ==> r.error.JsonError?
    ensures r.Success? ==> Truthy(req.chatId) && r.value.chatId == req.chatId.value
    ensures r.Success? ==> Some(r.value.bot) == BotDetail.GetBotConfig(env.bots, BotKey(req.botId))
  {
    if !Truthy(req.chatId) then Failure(JsonError(400, ChatIdRequired))
    else
      var bot := BotDetail.GetBotConfig(env.bots, BotKey(req.botId));
      if bot.None? then Failure(JsonError(500, InternalError))
      else if bot.value.schemaPath !in env.schemas then Failure(JsonError(404, SchemaNotFound(req.botId)))
      else Success(Admission(req.chatId.value, bot.value, env.schemas[bot.value.schemaPath]))
  }

  /**
   * Retrieval: embed the query, search the rows visible to the chat, and keep the results at or
   * above the provider's document threshold. A failure of any step is a 500.
   */
  function Retrieve(env: Backends, documents: Option<MilvusService.Collection<MilvusService.DocumentFields>>,
                    chatId: string, botId: Option<string>, query: string)
    : (r: Result<seq<(real, RagService.Doc)>, Reply>)
    ensures r.Failure? ==> r == Failure(JsonError(500, InternalError))
    ensures r.Success? ==>
              && ModelConfig.EmbeddingConfigFor(env.service).Some?
              && |r.value| <= SearchLimit
              && forall k :: 0 <= k < |r.value| ==>
                   r.value[k].0 >= ModelConfig.EmbeddingConfigFor(env.service).value.documentSimilarityThreshold
  {
    var embedding := env.embed(query);
    if embedding.None? then Failure(JsonError(500, InternalError))
    else
      var search := MilvusService.SearchIn(documents, MilvusService.VisibleTo(chatId, Interpolate(botId)),
                                           embedding.value, SearchLimit, env.rank);
      var config := ModelConfig.EmbeddingConfigFor(env.service);
      if search.Failure? || config.None? then Failure(JsonError(500, InternalError))
      else
        var threshold := config.value.documentSimilarityThreshold;
        RetainedIsThresholdFilter(search.value, threshold);
        RetainedMeetThreshold(search.value, threshold);
        Success(Retained(search.value, threshold))
  }

  /**
   * How the system prompt is made from a bot's intents and introduction. `getResponse` uses
   * `SystemPrompt.SystemPrompt`; the properties below hold whatever the prompt text is.
   */
  type PromptBuilder = (seq<SystemPrompt.Intent>, string) -> string

  /** The completion request: the system prompt, the chat's forwarded turns, the message to answer. */
  function Outgoing(prompt: PromptBuilder, a: Admission, log: seq<MessageStore.StoredMessage>, userMessage: string)
    : seq<ResponseService.ChatMessage>
  {
    [ResponseService.ChatMessage("system", prompt(a.intents, a.bot.intro))]
    + ResponseService.HistoryMessages(AsHistory(MessageStore.ChatHistory(log, a.chatId)))
    + ResponseService.Trailer(userMessage)
  }

  /**
   * The stream phase: a failed completion call sends one error event and logs nothing; otherwise
   * references are sent and the user turn is logged, the content events follow and the AI turn is
   * logged, then `done`. A `Message.create` that throws ends the stream with the internal error
   * instead, after what was already sent, and without `done`.
   */
  function Answer(chatId: string, query: string, refs: seq<RagService.DocReference>, completion: Completion,
                  accepts: MessageStore.StoredMessage -> bool, now: int)
    : (Reply, seq<MessageStore.StoredMessage>)
  {
    if completion.CallFailed? then (EventStream([Error(StreamInternalError)]), [])
    else
      var user := UserRow(chatId, query, now);
      if !accepts(user) then (EventStream([References(refs), Error(StreamInternalError)]), [])
      else
        var (events, transcript) := StreamOutput(completion);
        var ai := AiRow(chatId, transcript, now);
        if !accepts(ai) then (EventStream([References(refs)] + events + [Error(StreamInternalError)]), [user])
        else (EventStream([References(refs)] + events + [Done]), [user, ai])
  }

  /**
   * What `getResponse` answers, and the rows it appends to the message log, for a request, the
   * collaborators, the document collection and the log's rows. All rows are stamped `now`.
   */
  function Respond(prompt: PromptBuilder, req: ChatRequest, env: Backends,
                   documents: Option<MilvusService.Collection<MilvusService.DocumentFields>>,
                   log: seq<MessageStore.StoredMessage>, now: int)
    : (Reply, seq<MessageStore.StoredMessage>)
  {
    match Admit(req, env)
    case Failure(reply) => (reply, [])
    case Success(a) =>
      match Retrieve(env, documents, a.chatId, req.botId, req.query)
      case Failure(reply) => (reply, [])
      case Success(docs) =>
        var (refs, userMessage) := Prepare(req.query, docs);
        Answer(a.chatId, req.query, refs, env.complete(Outgoing(prompt, a, log, userMessage)), env.accepts, now)
  }

  /** `getResponse` in stream mode. */
  method GetResponse(req: ChatRequest, env: Backends, store: MilvusService.MilvusStore,
                     log: MessageStore.MessageLog, now: int)
    returns (reply: Reply)
    modifies log
    ensures reply == Respond(SystemPrompt.SystemPrompt, req, env, store.documents, old(log.messages), now).0
    ensures log.messages == old(log.messages) + Respond(SystemPrompt.SystemPrompt, req, env, store.documents, old(log.messages), now).1
  {
    var admitted := Admit(req, env);
    if admitted.Failure? {
      return admitted.error;
    }
    var a := admitted.value;
    var systemPrompt := SystemPrompt.CreateSystemPrompt(a.intents, env.bots, BotKey(req.botId));
    reply := RespondAdmitted(SystemPrompt.SystemPrompt, systemPrompt.value, a, req, env, store, log, now);
  }

  /** The rest of `getResponse` once the request is admitted and its system prompt `system` is built. */
  method RespondAdmitted(prompt: PromptBuilder, system: string, a: Admission, req: ChatRequest, env: Backends,
                         store: MilvusService.MilvusStore, log: MessageStore.MessageLog, now: int)
    returns (reply: Reply)
    requires Admit(req, env) == Success(a) && system == prompt(a.intents, a.bot.intro)
    modifies log
    ensures reply == Respond(prompt, req, env, store.documents, old(log.messages), now).0
    ensures log.messages == old(log.messages) + Respond(prompt, req, env, store.documents, old(log.messages), now).1
  {
    var retrieved := RetrieveDocuments(env, store, a.chatId, req.botId, req.query);
    if retrieved.Failure? {
      return retrieved.error;
    }
    var highSimilarityDocs := retrieved.value;
    var chatHistory := AsHistory(log.FindAll(a.chatId));
    var refs: seq<RagService.DocReference>, userMessage: string;
    if |highSimilarityDocs| > 0 {
      var top := Seqs.Take(highSimilarityDocs, AugmentLimit);
      userMessage, refs := RagService.AugmentQueryWithDocuments(req.query, top);
    } else {
      userMessage, refs := req.query, [];
    }
    assert |highSimilarityDocs| > 0 ==> refs == RagService.References(Seqs.Take(highSimilarityDocs, AugmentLimit));
    assert (refs, userMessage) == Prepare(req.query, highSimilarityDocs);
    var messages := ResponseService.BuildMessages(system, chatHistory, userMessage);
    assert messages == Outgoing(prompt, a, old(log.messages), userMessage);
    reply := Converse(a.chatId, req.query, refs, env.complete(messages), env.accepts, now, log);
  }

  /** Embedding, search and the threshold loop. */
  method RetrieveDocuments(env: Backends, store: MilvusService.MilvusStore, chatId: string, botId: Option<string>, query: string)
    returns (r: Result<seq<(real, RagService.Doc)>, Reply>)
    ensures r == Retrieve(env, store.documents, chatId, botId, query)
  {
    var queryEmbedding := env.embed(query);
    if queryEmbedding.None? {
      return Failure(JsonError(500, InternalError));
    }
    var searchResults := MilvusService.SearchIn(store.documents, MilvusService.VisibleTo(chatId, Interpolate(botId)),
                                                queryEmbedding.value, SearchLimit, env.rank);
    if searchResults.Failure? {
      return Failure(JsonError(500, InternalError));
    }
    var config := ModelConfig.EmbeddingConfigFor(env.service);
    if config.None? {
      return Failure(JsonError(500, InternalError));
    }
    var highSimilarityDocs := FilterDocuments(searchResults.value, config.value.documentSimilarityThreshold);
    return Success(highSimilarityDocs);
  }

  /**
   * The stream phase: announce the references, log the user turn, relay the content, log the AI
   * turn, finish; a rejected write jumps to the outer catch, which sends the internal error.
   */
  method Converse(chatId: string, query: string, refs: seq<RagService.DocReference>, responseStream: Completion,
                  accepts: MessageStore.StoredMessage -> bool, now: int, log: MessageStore.MessageLog)
    returns (reply: Reply)
    modifies log
    ensures reply == Answer(chatId, query, refs, responseStream, accepts, now).0
    ensures log.messages == old(log.messages) + Answer(chatId, query, refs, responseStream, accepts, now).1
  {
    if responseStream.CallFailed? {
      return EventStream([Error(StreamInternalError)]);
    }
    var events := [References(refs)];
    var user := UserRow(chatId, query, now);
    if !accepts(user) {
      return EventStream(events + [Error(StreamInternalError)]);
    }
    log.Create(user);
    var content, completeResponse := NormaliseStream(responseStream);
    events := events + content;
    var ai := AiRow(chatId, completeResponse, now);
    if !accepts(ai) {
      return EventStream(events + [Error(StreamInternalError)]);
    }
    log.Create(ai);
    events := events + [Done];
    reply := EventStream(events);
  }

  // ---------------------------------------------------------------------------
  // Properties of getResponse
  // ---------------------------------------------------------------------------

  /**
   * A stream that got past the first write: the references first, then content events, at most
   * one stream error just before the final event `last`.
   */
  predicate Framed(events: seq<Event>, last: Event)
  {
    && |events| >= 2
    && events[0].References?
    && events[|events| - 1] == last
    && forall k :: 1 <= k < |events| - 1 ==>
         events[k].Content? || (events[k] == Error(StreamError) && k == |events| - 2)
  }

  /** A stream that completed with `done`. */
  predicate WellOrdered(events: seq<Event>)
  {
    Framed(events, Done)
  }

  /** A stream that a failed database write cut short: it ends with the internal error, without `done`. */
  predicate Aborted(events: seq<Event>)
  {
    Framed(events, Error(StreamInternalError))
  }

  /**
   * A request without `chat_id` is rejected with 400 whatever the collaborators would do: nothing
   * is embedded, searched or logged.
   */
  lemma MissingChatIdRejected(prompt: PromptBuilder, prompt': PromptBuilder, req: ChatRequest, env: Backends, env': Backends,
                              documents: Option<MilvusService.Collection<MilvusService.DocumentFields>>,
                              log: seq<MessageStore.StoredMessage>, now: int)
    requires !Truthy(req.chatId)
    ensures Respond(prompt, req, env, documents, log, now) == (JsonError(400, ChatIdRequired), [])
    ensures Respond(prompt, req, env, documents, log, now) == Respond(prompt', req, env', None, [], 0)
  {
  }

  /** Only the stream phase answers with events; validation and retrieval failures are JSON errors that log nothing. */
  lemma RespondStreamsOnlyInAnswer(prompt: PromptBuilder, req: ChatRequest, env: Backends,
                                   documents: Option<MilvusService.Collection<MilvusService.DocumentFields>>,
                                   log: seq<MessageStore.StoredMessage>, now: int)
    ensures Respond(prompt, req, env, documents, log, now).0.JsonError? ==> Respond(prompt, req, env, documents, log, now).1 == []
    ensures Respond(prompt, req, env, documents, log, now).0.EventStream? ==>
              && Admit(req, env).Success?
              && Retrieve(env, documents, Admit(req, env).value.chatId, req.botId, req.query).Success?
  {
  }

  /** The references, the events of a completion result and a closing event are framed by that event. */
  lemma {:induction false} BodyFramed(refs: seq<RagService.DocReference>, completion: Completion, last: Event)
    requires !completion.CallFailed?
    ensures Framed([References(refs)] + StreamOutput(completion).0 + [last], last)
  {
    var body := StreamOutput(completion).0;
    var events := [References(refs)] + body + [last];
    if completion.Chunks? {
      ContentEventsNonEmpty(completion.deltas);
      var contents := ContentEvents(completion.deltas);
      var tail := if completion.breaks then [Error(StreamError)] else [];
      assert body == contents + tail;
      forall k | 1 <= k < |events| - 1
        ensures events[k].Content? || (events[k] == Error(StreamError) && k == |events| - 2)
      {
        assert events[k] == body[k - 1];
        if k - 1 >= |contents| {
          assert body[k - 1] == tail[k - 1 - |contents|];
        }
      }
    }
  }

  /**
   * The events of the stream phase are the single error of a completion call that failed, which
   * logs nothing; or they follow the order references, content..., [stream error], and end with
   * `done` exactly when both turns were logged, and with the internal error when a write failed.
   * In every case `references` is sent at most once, and first.
   */
  lemma {:induction false} AnswerEventOrder(chatId: string, query: string, refs: seq<RagService.DocReference>, completion: Completion,
                                            accepts: MessageStore.StoredMessage -> bool, now: int)
    ensures var (reply, rows) := Answer(chatId, query, refs, completion, accepts, now);
            && (completion.CallFailed? <==> reply.events == [Error(StreamInternalError)])
            && (completion.CallFailed? ==> rows == [])
            && (!completion.CallFailed? ==> (WellOrdered(reply.events) <==> |rows| == 2))
            && (!completion.CallFailed? ==> (Aborted(reply.events) <==> |rows| < 2))
            && forall k :: 0 <= k < |reply.events| && reply.events[k].References? ==> k == 0
  {
    if !completion.CallFailed? {
      var (reply, rows) := Answer(chatId, query, refs, completion, accepts, now);
      var events := reply.events;
      if !accepts(UserRow(chatId, query, now)) {
        assert events == [References(refs), Error(StreamInternalError)];
        assert Aborted(events);
      } else {
        var (body, transcript) := StreamOutput(completion);
        var last := if accepts(AiRow(chatId, transcript, now)) then Done else Error(StreamInternalError);
        assert events == [References(refs)] + body + [last];
        BodyFramed(refs, completion, last);
        assert |rows| == 2 <==> last == Done;
      }
      assert Framed(events, events[|events| - 1]);
    }
  }

  /**
   * When the completion call succeeds, the log gains the user's query unless that write fails, and
   * then the AI turn unless that write fails; the AI turn's text is exactly the concatenation of the
   * `content` payloads sent, also when the stream broke off.
   */
  lemma AnswerStoresTranscript(chatId: string, query: string, refs: seq<RagService.DocReference>, completion: Completion,
                               accepts: MessageStore.StoredMessage -> bool, now: int)
    requires !completion.CallFailed?
    ensures var (reply, rows) := Answer(chatId, query, refs, completion, accepts, now);
            var user := UserRow(chatId, query, now);
            var ai := AiRow(chatId, Contents(reply.events), now);
            rows == if !accepts(user) then [] else if !accepts(ai) then [user] else [user, ai]
  {
    if accepts(UserRow(chatId, query, now)) {
      var (body, transcript) := StreamOutput(completion);
      var last := if accepts(AiRow(chatId, transcript, now)) then Done else Error(StreamInternalError);
      assert Answer(chatId, query, refs, completion, accepts, now).0.events == [References(refs)] + body + [last];
      FramedContents(refs, body, last);
      StreamOutputCarriesTranscript(completion);
    }
  }

  /** The `references` event and a closing `done` or error carry no payload. */
  lemma FramedContents(refs: seq<RagService.DocReference>, body: seq<Event>, last: Event)
    requires !last.Content?
    ensures Contents([References(refs)] + body + [last]) == Contents(body)
  {
    ContentsAppend([References(refs)] + body, [last]);
    ContentsAppend([References(refs)], body);
    assert Contents([last]) == "" by { assert [last][..0] == []; }
    assert Contents([References(refs)]) == "" by { assert [References(refs)][..0] == []; }
  }

  /** The events of a completion result carry its transcript; a trailing stream error adds nothing. */
  lemma StreamOutputCarriesTranscript(completion: Completion)
    requires !completion.CallFailed?
    ensures Contents(StreamOutput(completion).0) == StreamOutput(completion).1
  {
    match completion {
      case Whole(text) =>
        assert Contents([Content(text)]) == text by { assert [Content(text)][..0] == []; }
      case Chunks(deltas, breaks) =>
        ContentEventsCarryTranscript(deltas);
        var tail := if breaks then [Error(StreamError)] else [];
        ContentsAppend(ContentEvents(deltas), tail);
        assert Contents(tail) == "" by { if breaks { assert tail[..0] == []; } }
    }
  }

  /**
   * A stream that breaks off after the user turn is stored reports the stream error second to
   * last, and then `done`, or the internal error when the AI turn cannot be stored.
   */
  lemma BrokenStreamReportsError(chatId: string, query: string, refs: seq<RagService.DocReference>, deltas: seq<string>,
                                 accepts: MessageStore.StoredMessage -> bool, now: int)
    ensures var events := Answer(chatId, query, refs, Chunks(deltas, true), accepts, now).0.events;
            accepts(UserRow(chatId, query, now)) ==>
              && |events| >= 3
              && events[|events| - 2] == Error(StreamError)
              && events[|events| - 1] == if accepts(AiRow(chatId, Transcript(deltas), now)) then Done else Error(StreamInternalError)
  {
  }

  /**
   * `getResponse` as a whole: an event stream is well ordered with both turns logged, cut short by a
   * failed write with at most the user turn logged, or the single completion-call error with
   * nothing logged.
   */
  lemma RespondEventOrder(prompt: PromptBuilder, req: ChatRequest, env: Backends,
                          documents: Option<MilvusService.Collection<MilvusService.DocumentFields>>,
                          log: seq<MessageStore.StoredMessage>, now: int)
    ensures var (reply, rows) := Respond(prompt, req, env, documents, log, now);
            reply.EventStream? ==>
              || (WellOrdered(reply.events) && |rows| == 2)
              || (Aborted(reply.events) && |rows| < 2)
              || (reply.events == [Error(StreamInternalError)] && rows == [])
  {
    RespondStreamsOnlyInAnswer(prompt, req, env, documents, log, now);
    if Respond(prompt, req, env, documents, log, now).0.EventStream? {
      var a := Admit(req, env).value;
      var docs := Retrieve(env, documents, a.chatId, req.botId, req.query).value;
      var (refs, userMessage) := Prepare(req.query, docs);
      var completion := env.complete(Outgoing(prompt, a, log, userMessage));
      assert Respond(prompt, req, env, documents, log, now) == Answer(a.chatId, req.query, refs, completion, env.accepts, now);
      AnswerEventOrder(a.chatId, req.query, refs, completion, env.accepts, now);
    }
  }

  /**
   * `getResponse` as a whole: after the references were sent, the log has gained the user's query
   * unless its write failed, and then the AI turn holding the concatenated `content` payloads unless
   * that write failed.
   */
  lemma RespondStoresTranscript(prompt: PromptBuilder, req: ChatRequest, env: Backends,
                                documents: Option<MilvusService.Collection<MilvusService.DocumentFields>>,
                                log: seq<MessageStore.StoredMessage>, now: int)
    ensures var (reply, rows) := Respond(prompt, req, env, documents, log, now);
            reply.EventStream? && reply.events != [Error(StreamInternalError)] ==>
              var user := UserRow(req.chatId.value, req.query, now);
              var ai := AiRow(req.chatId.value, Contents(reply.events), now);
              rows == if !env.accepts(user) then [] else if !env.accepts(ai) then [user] else [user, ai]
  {
    RespondStreamsOnlyInAnswer(prompt, req, env, documents, log, now);
    var reply := Respond(prompt, req, env, documents, log, now).0;
    if reply.EventStream? && reply.events != [Error(StreamInternalError)] {
      var a := Admit(req, env).value;
      var docs := Retrieve(env, documents, a.chatId, req.botId, req.query).value;
      var (refs, userMessage) := Prepare(req.query, docs);
      var completion := env.complete(Outgoing(prompt, a, log, userMessage));
      assert Respond(prompt, req, env, documents, log, now) == Answer(a.chatId, req.query, refs, completion, env.accepts, now);
      AnswerEventOrder(a.chatId, req.query, refs, completion, env.accepts, now);
      AnswerStoresTranscript(a.chatId, req.query, refs, completion, env.accepts, now);
    }
  }

  /** The references announced are those of the top three retained documents, or none. */
  lemma ReferencesOfTopThree(query: string, docs: seq<(real, RagService.Doc)>)
    ensures |docs| == 0 ==> Prepare(query, docs) == ([], query)
    ensures |docs| > 0 ==> |Prepare(query, docs).0| == if |docs| < 3 then |docs| else 3
    ensures forall k :: 0 <= k < |Prepare(query, docs).0| ==>
              Prepare(query, docs).0[k] == RagService.DocReference(docs[k].1.title, RagService.Round4(docs[k].0))
  {
  }

  /** The search only ever sees rows of this chat or public rows of the requested bot. */
  lemma SearchStaysVisible(documents: Option<MilvusService.Collection<MilvusService.DocumentFields>>,
                           chatId: string, botId: string, query: Vector, rank: MilvusService.Ranker<MilvusService.DocumentFields>)
    requires MilvusService.SearchIn(documents, MilvusService.VisibleTo(chatId, botId), query, SearchLimit, rank).Success?
    ensures var hits := MilvusService.SearchIn(documents, MilvusService.VisibleTo(chatId, botId), query, SearchLimit, rank).value;
            |hits| <= 10 && forall k :: 0 <= k < |hits| ==>
              hits[k].record.chatId == chatId || (hits[k].record.isPublic && hits[k].record.botId == botId)
  {
  }

  // ---------------------------------------------------------------------------
  // getChatDetail
  // ---------------------------------------------------------------------------

  /** A turn as `getChatDetail` returns it. */
  datatype DetailEntry =
    | FileEntry(role: string, title: Option<string>, timestamp: int)
    | MessageEntry(role: string, message: Option<string>, timestamp: int)

  datatype DetailReply = DetailError(status: nat, error: string) | ChatDetail(chatId: string, history: seq<DetailEntry>)

  const NoHistoryError := "No chat history found for the given chat_id."

  /** `file` rows show their title; every other row shows its message. */
  function AsDetail(m: MessageStore.StoredMessage): DetailEntry
  {
    if m.kind == "file" then FileEntry(m.role, m.title, m.timestamp) else MessageEntry(m.role, m.message, m.timestamp)
  }

  /** `getChatDetail`: 404 for a chat with no rows, otherwise one entry per row, in order. */
  function GetChatDetail(log: seq<MessageStore.StoredMessage>, chatId: string): (r: DetailReply)
    ensures r.DetailError? <==> MessageStore.ChatHistory(log, chatId) == []
    ensures r.DetailError? ==> r == DetailError(404, NoHistoryError)
    ensures r.ChatDetail? ==>
              && r.chatId == chatId
              && |r.history| == |MessageStore.ChatHistory(log, chatId)|
              && forall k :: 0 <= k < |r.history| ==>
                   var m := MessageStore.ChatHistory(log, chatId)[k];
                   && r.history[k].role == m.role && r.history[k].timestamp == m.timestamp
                   && (r.history[k].FileEntry? <==> m.kind == "file")
                   && (r.history[k].FileEntry? ==> r.history[k].title == m.title)
                   && (r.history[k].MessageEntry? ==> r.history[k].message == m.message)
  {
    var rows := MessageStore.ChatHistory(log, chatId);
    if |rows| > 0 then ChatDetail(chatId, seq(|rows|, k requires 0 <= k < |rows| => AsDetail(rows[k])))
    else DetailError(404, NoHistoryError)
  }
}
