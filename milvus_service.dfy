/**
 * The vector-store policy of src/services/milvusService.ts: collection setup, the dedup gate in
 * front of inserts, and the `(chat_id, cid)` existence check. The approximate-nearest-neighbour
 * search itself is a `Ranker` supplied by the caller.
 */
module MilvusService {
  import opened Wrappers
  import opened Vectors
  import Seqs
  import ModelConfig

  const CollectionNameDocument := "document_embeddings"

  const CollectionNameMetadata := "metadata_embeddings"

  /** The scalar fields of a document record. */
  datatype DocumentFields = DocumentFields(title: string, content: string)

  /** The scalar fields of a metadata record. */
  datatype MetadataFields = MetadataFields(cid: string, description: string, url: string)

  /** A stored row: the fields common to both collections and the collection-specific ones. */
  datatype Record<P> = Record(chatId: string, fields: P, embedding: Vector, isPublic: bool, botId: string)

  /** A search result: the similarity score and the matching row. */
  datatype Hit<P> = Hit(score: real, record: Record<P>)

  /** The two filter expressions the code sends with a search. */
  datatype Expr =
    | PublicOfBot(botId: string)              // is_public == true and bot_id == botId
    | VisibleTo(chatId: string, botId: string)  // chat_id == chatId or (is_public == true and bot_id == botId)

  predicate Admits<P(==)>(e: Expr, r: Record<P>)
  {
    match e
    case PublicOfBot(botId) => r.isPublic && r.botId == botId
    case VisibleTo(chatId, botId) => r.chatId == chatId || (r.isPublic && r.botId == botId)
  }

  /**
   * A collection that exists: the dimension of its `embedding` field, whether it is loaded, and its
   * rows in insertion order. Creating a collection also creates its index; the two are one step here.
   */
  datatype Collection<P> = Collection(dimension: nat, loaded: bool, records: seq<Record<P>>)

  /** Every row's embedding has the collection's dimension. */
  predicate WellFormed<P(==)>(c: Collection<P>)
  {
    forall k :: 0 <= k < |c.records| ==> |c.records[k].embedding| == c.dimension
  }

  /** Why Milvus rejects a request. */
  datatype StoreError = CollectionMissing | NotLoaded | DimensionMismatch

  /**
   * The nearest-neighbour search over the rows a filter admits: given those rows and the query
   * vector, the scored results best first. The store keeps only results among those rows.
   */
  type Ranker<!P> = (seq<Record<P>>, Vector) -> seq<Hit<P>>

  /** The rows `e` admits, in insertion order. */
  function Admitted<P(==)>(records: seq<Record<P>>, e: Expr): (r: seq<Record<P>>)
    ensures forall k :: 0 <= k < |r| ==> r[k] in records && Admits(e, r[k])
    ensures forall k :: 0 <= k < |records| && Admits(e, records[k]) ==> records[k] in r
  {
    Seqs.Filter(records, (x: Record<P>) => Admits(e, x))
  }

  /** A search result is kept when it names an admitted row. */
  function AmongRows<P(==)>(rows: seq<Record<P>>): Hit<P> -> bool
  {
    (h: Hit<P>) => h.record in rows
  }

  /**
   * `milvusClient.search` with a filter expression and a limit: it fails on a missing or unloaded
   * collection and on a query of the wrong dimension, and otherwise returns at most `limit`
   * results, each naming a stored row the filter admits.
   */
  function SearchIn<P(==)>(c: Option<Collection<P>>, e: Expr, query: Vector, limit: nat, rank: Ranker<P>)
    : (r: Result<seq<Hit<P>>, StoreError>)
    ensures r.Success? <==> c.Some? && c.value.loaded && |query| == c.value.dimension
    ensures r.Success? ==> |r.value| <= limit
    ensures r.Success? ==> forall k :: 0 <= k < |r.value| ==>
              r.value[k].record in c.value.records && Admits(e, r.value[k].record)
  {
    if c.None? then Failure(CollectionMissing)
    else if !c.value.loaded then Failure(NotLoaded)
    else if |query| != c.value.dimension then Failure(DimensionMismatch)
    else
      var rows := Admitted(c.value.records, e);
      var hits := Seqs.Filter(rank(rows, query), AmongRows(rows));
      Success(Seqs.Take(hits, limit))
  }

  /** `milvusClient.insert` of one row: it fails on a missing collection or a vector of the wrong dimension. */
  function InsertInto<P(==)>(c: Option<Collection<P>>, rec: Record<P>): (r: Result<Collection<P>, StoreError>)
    ensures r.Success? <==> c.Some? && |rec.embedding| == c.value.dimension
    ensures r.Success? ==> r.value == c.value.(records := c.value.records + [rec])
  {
    if c.None? then Failure(CollectionMissing)
    else if |rec.embedding| != c.value.dimension then Failure(DimensionMismatch)
    else Success(c.value.(records := c.value.records + [rec]))
  }

  /** An insert appends to a well-formed collection and keeps it well-formed. */
  lemma InsertKeepsWellFormed<P>(c: Option<Collection<P>>, rec: Record<P>)
    requires c.Some? && WellFormed(c.value)
    requires InsertInto(c, rec).Success?
    ensures WellFormed(InsertInto(c, rec).value)
  {
    var r := InsertInto(c, rec).value;
    forall k | 0 <= k < |r.records|
      ensures |r.records[k].embedding| == r.dimension
    {
      if k < |c.value.records| {
        assert r.records[k] == c.value.records[k];
      }
    }
  }

  // ---------------------------------------------------------------------------
  // Collection setup
  // ---------------------------------------------------------------------------

  const InvalidServiceError := "Invalid embedding service"

  /** The dimension of the `embedding` field for the configured provider. */
  function EmbeddingDimension(service: string): (r: Result<nat, string>)
    ensures r.Success? <==> service in ModelConfig.EmbeddingServices
    ensures r.Failure? ==> r.error == InvalidServiceError
  {
    if service == "openai" then Success(1536)
    else if service == "tensorflow" then Success(512)
    else if service == "glove" then Success(50)
    else if service == "miniLM" then Success(384)
    else Failure(InvalidServiceError)
  }

  /** The four dimensions, and agreement with the configuration table: a provider has a dimension iff it has a config entry. */
  lemma Dimensions(service: string)
    ensures EmbeddingDimension("openai") == Success(1536)
    ensures EmbeddingDimension("tensorflow") == Success(512)
    ensures EmbeddingDimension("glove") == Success(50)
    ensures EmbeddingDimension("miniLM") == Success(384)
    ensures EmbeddingDimension(service).Success? <==> ModelConfig.EmbeddingConfigFor(service).Some?
  {
  }

  /** One collection's setup: create it (with its index) when absent, then load it. */
  function SetupCollection<P(==)>(c: Option<Collection<P>>, dimension: nat): (r: Collection<P>)
    ensures r.loaded
    ensures c.None? ==> r == Collection(dimension, true, [])
    ensures c.Some? ==> r.dimension == c.value.dimension && r.records == c.value.records
  {
    match c
    case None => Collection(dimension, true, [])
    case Some(existing) => existing.(loaded := true)
  }

  /** Setting a collection up twice is setting it up once. */
  lemma SetupCollectionIdempotent<P>(c: Option<Collection<P>>, dimension: nat)
    ensures SetupCollection(Some(SetupCollection(c, dimension)), dimension) == SetupCollection(c, dimension)
  {
  }

  /** Setup keeps a well-formed collection well-formed, and a new one is well-formed. */
  lemma SetupKeepsWellFormed<P>(c: Option<Collection<P>>, dimension: nat)
    requires c.Some? ==> WellFormed(c.value)
    ensures WellFormed(SetupCollection(c, dimension))
  {
  }

  // ---------------------------------------------------------------------------
  // The dedup gate
  // ---------------------------------------------------------------------------

  /** What a store call did when it did not fail. */
  datatype StoreOutcome = Inserted | SkippedDuplicate

  const DocumentStoreError := "Failed to store document in Milvus."

  const MetadataStoreError := "Failed to store metadata embedding in Milvus."

  /** How many neighbours the dedup gate inspects, and the score above which one counts as the same. */
  const DedupLimit := 5

  const DuplicateScore := 0.98

  /** A search result that counts as a duplicate of the row being stored. */
  predicate IsDuplicate<P(==)>(h: Hit<P>)
  {
    h.score > DuplicateScore
  }

  /**
   * The store functions: a public row is first compared with the five nearest public rows of the
   * same bot and skipped when one scores above 0.98; otherwise it is inserted. Any failure of the
   * search or the insert becomes `error`, with the collection unchanged.
   */
  function GatedInsert<P(==)>(c: Option<Collection<P>>, rec: Record<P>, rank: Ranker<P>, error: string)
    : (r: (Option<Collection<P>>, Result<StoreOutcome, string>))
    ensures r.1.Failure? <==>
              c.None? || |rec.embedding| != c.value.dimension || (rec.isPublic && !c.value.loaded)
    ensures r.1.Failure? ==> r.1.error == error
    ensures r.1 != Success(Inserted) ==> r.0 == c
    ensures r.1 == Success(Inserted) ==> c.Some? && r.0 == Some(c.value.(records := c.value.records + [rec]))
  {
    var search := SearchIn(c, PublicOfBot(rec.botId), rec.embedding, DedupLimit, rank);
    if rec.isPublic && search.Failure? then (c, Failure(error))
    else if rec.isPublic && exists k :: 0 <= k < |search.value| && IsDuplicate(search.value[k]) then (c, Success(SkippedDuplicate))
    else match InsertInto(c, rec)
      case Failure(_) => (c, Failure(error))
      case Success(c') => (Some(c'), Success(Inserted))
  }

  /** A private row is never searched for: with a matching collection it is appended and nothing else changes. */
  lemma PrivateInsertAppends<P>(c: Option<Collection<P>>, rec: Record<P>, rank: Ranker<P>, error: string)
    requires !rec.isPublic
    requires c.Some? && |rec.embedding| == c.value.dimension
    ensures GatedInsert(c, rec, rank, error) == (Some(c.value.(records := c.value.records + [rec])), Success(Inserted))
  {
  }

  /**
   * For a public row whose search succeeds, the insert is skipped exactly when one of the (at most
   * five) public rows of the same bot that the search returns scores strictly above 0.98.
   */
  lemma PublicInsertSkipsDuplicates<P>(c: Option<Collection<P>>, rec: Record<P>, rank: Ranker<P>, error: string)
    requires rec.isPublic
    requires SearchIn(c, PublicOfBot(rec.botId), rec.embedding, DedupLimit, rank).Success?
    ensures var hits := SearchIn(c, PublicOfBot(rec.botId), rec.embedding, DedupLimit, rank).value;
            && |hits| <= 5
            && (forall k :: 0 <= k < |hits| ==> hits[k].record.isPublic && hits[k].record.botId == rec.botId)
            && (GatedInsert(c, rec, rank, error).1 == Success(SkippedDuplicate) <==>
                exists k :: 0 <= k < |hits| && hits[k].score > 0.98)
  {
  }

  /** A store call keeps the collection well-formed. */
  lemma GatedInsertKeepsWellFormed<P>(c: Option<Collection<P>>, rec: Record<P>, rank: Ranker<P>, error: string)
    requires c.Some? ==> WellFormed(c.value)
    ensures var c' := GatedInsert(c, rec, rank, error).0; c'.Some? ==> WellFormed(c'.value)
  {
    if GatedInsert(c, rec, rank, error).1 == Success(Inserted) {
      InsertKeepsWellFormed(c, rec);
    }
  }

  // ---------------------------------------------------------------------------
  // The existence check
  // ---------------------------------------------------------------------------

  /** A metadata row that belongs to chat `chatId` and records file `cid`. */
  predicate SameChatAndCid(chatId: string, cid: string, r: Record<MetadataFields>)
  {
    r.chatId == chatId && r.fields.cid == cid
  }

  /**
   * `checkIfCidExistsInMilvus`: the query fails on a missing or unloaded collection, which the
   * code reports as `false`; otherwise the answer is whether some row has this chat and cid.
   */
  predicate CidExists(c: Option<Collection<MetadataFields>>, chatId: string, cid: string)
  {
    c.Some? && c.value.loaded && exists k :: 0 <= k < |c.value.records| && SameChatAndCid(chatId, cid, c.value.records[k])
  }

  // ---------------------------------------------------------------------------
  // The client
  // ---------------------------------------------------------------------------

  /** The Milvus server as the code sees it: the two collections, each absent or present. */
  class MilvusStore {
    var documents: Option<Collection<DocumentFields>>
    var metadata: Option<Collection<MetadataFields>>

    /** Each present collection's rows match its dimension. */
    predicate Valid()
      reads this
    {
      (documents.Some? ==> WellFormed(documents.value)) && (metadata.Some? ==> WellFormed(metadata.value))
    }

    /** A server with neither collection. */
    constructor ()
      ensures documents == None && metadata == None
      ensures Valid()
    {
      documents := None;
      metadata := None;
    }

    /**
     * `setupMilvusCollection`: an unknown provider fails before anything is touched; otherwise each
     * collection is created (with its index) if absent and then loaded.
     */
    method SetupMilvusCollection(service: string) returns (r: Result<(), string>)
      requires Valid()
      modifies this
      ensures Valid()
      ensures EmbeddingDimension(service).Failure? ==>
                r == Failure(InvalidServiceError) && documents == old(documents) && metadata == old(metadata)
      ensures EmbeddingDimension(service).Success? ==>
                && r == Success(())
                && documents == Some(SetupCollection(old(documents), EmbeddingDimension(service).value))
                && metadata == Some(SetupCollection(old(metadata), EmbeddingDimension(service).value))
    {
      var dimension := EmbeddingDimension(service);
      if dimension.Failure? {
        return Failure(dimension.error);
      }
      if documents.None? {
        documents := Some(Collection(dimension.value, false, []));
      }
      documents := Some(documents.value.(loaded := true));
      if metadata.None? {
        metadata := Some(Collection(dimension.value, false, []));
      }
      metadata := Some(metadata.value.(loaded := true));
      r := Success(());
    }

    /** `storeEmbeddingInMilvus`: the dedup gate, then the insert into the document collection. */
    method StoreEmbeddingInMilvus(chatId: string, title: string, content: string, embedding: Vector,
                                  isPublic: bool, botId: string, rank: Ranker<DocumentFields>)
      returns (r: Result<StoreOutcome, string>)
      requires Valid()
      modifies this
      ensures Valid()
      ensures (documents, r) == GatedInsert(old(documents), Record(chatId, DocumentFields(title, content), embedding, isPublic, botId), rank, DocumentStoreError)
      ensures metadata == old(metadata)
    {
      var rec := Record(chatId, DocumentFields(title, content), embedding, isPublic, botId);
      GatedInsertKeepsWellFormed(documents, rec, rank, DocumentStoreError);
      var c;
      c, r := Gate(documents, rec, rank, DocumentStoreError);
      documents := c;
    }

    /** `storeMetadataEmbeddingInMilvus`: the dedup gate, then the insert into the metadata collection. */
    method StoreMetadataEmbeddingInMilvus(chatId: string, cid: string, description: string, embedding: Vector,
                                          url: string, isPublic: bool, botId: string, rank: Ranker<MetadataFields>)
      returns (r: Result<StoreOutcome, string>)
      requires Valid()
      modifies this
      ensures Valid()
      ensures (metadata, r) == GatedInsert(old(metadata), Record(chatId, MetadataFields(cid, description, url), embedding, isPublic, botId), rank, MetadataStoreError)
      ensures documents == old(documents)
    {
      var rec := Record(chatId, MetadataFields(cid, description, url), embedding, isPublic, botId);
      GatedInsertKeepsWellFormed(metadata, rec, rank, MetadataStoreError);
      var c;
      c, r := Gate(metadata, rec, rank, MetadataStoreError);
      metadata := c;
    }

    /** `checkIfCidExistsInMilvus`. */
    method CheckIfCidExistsInMilvus(chatId: string, cid: string) returns (found: bool)
      ensures found <==> CidExists(metadata, chatId, cid)
    {
      if metadata.None? || !metadata.value.loaded {
        return false;
      }
      var rows := metadata.value.records;
      var at := Seqs.FindIndex(rows, (r: Record<MetadataFields>) => SameChatAndCid(chatId, cid, r));
      found := at.Some?;
    }
  }

  /**
   * The steps both store functions share, on a collection value: the search and the `> 0.98`
   * filter for a public row, then the insert.
   */
  method Gate<P(==)>(c: Option<Collection<P>>, rec: Record<P>, rank: Ranker<P>, error: string)
    returns (c': Option<Collection<P>>, r: Result<StoreOutcome, string>)
    ensures (c', r) == GatedInsert(c, rec, rank, error)
  {
    if rec.isPublic {
      var search := SearchIn(c, PublicOfBot(rec.botId), rec.embedding, DedupLimit, rank);
      if search.Failure? {
        return c, Failure(error);
      }
      var similarDocs := Seqs.Filter(search.value, IsDuplicate);
      if |similarDocs| > 0 {
        assert IsDuplicate(similarDocs[0]);
        return c, Success(SkippedDuplicate);
      }
    }
    var inserted := InsertInto(c, rec);
    if inserted.Failure? {
      return c, Failure(error);
    }
    return Some(inserted.value), Success(Inserted);
  }
}
