/**
 * `generateMetadataEmbeddings` (src/controllers/embeddingControllers.ts): the request validation
 * in front of IPFS metadata ingestion.
 */
module MetadataUpload {
  import opened Wrappers
  import opened RequestFields
  import MilvusService
  import InitEmbeddingService

  const InternalError := "Internal server error."

  // ---------------------------------------------------------------------------
  // generateMetadataEmbeddings
  // ---------------------------------------------------------------------------

  datatype MetadataRequest = MetadataRequest(link: Option<string>, chatId: Option<string>, isPublic: Option<string>, botId: string)

  datatype IngestReply = IngestError(status: nat, error: string) | Ingested(report: InitEmbeddingService.Report)

  const NoLinkError := "No link provided. Please provide a valid IPFS link."

  const NoChatIdError := "No chat_id provided. Please provide a valid chat_id."

  /** `generateMetadataEmbeddings` on the metadata collection. */
  function IngestMetadata(req: MetadataRequest, src: InitEmbeddingService.Sources, c: InitEmbeddingService.MetadataCollection)
    : (InitEmbeddingService.MetadataCollection, IngestReply)
  {
    if !Truthy(req.link) then (c, IngestError(400, NoLinkError))
    else if !Truthy(req.chatId) then (c, IngestError(400, NoChatIdError))
    else
      var (c', r) := InitEmbeddingService.ProcessMetadata(c, req.link.value, req.chatId.value, Flag(req.isPublic), req.botId, src);
      if r.Failure? then (c', IngestError(500, InternalError)) else (c', Ingested(r.value))
  }

  /** `generateMetadataEmbeddings`. */
  method GenerateMetadataEmbeddings(req: MetadataRequest, src: InitEmbeddingService.Sources, store: MilvusService.MilvusStore)
    returns (reply: IngestReply)
    requires store.Valid()
    modifies store
    ensures store.Valid() && store.documents == old(store.documents)
    ensures (store.metadata, reply) == IngestMetadata(req, src, old(store.metadata))
  {
    if !Truthy(req.link) {
      return IngestError(400, NoLinkError);
    }
    if !Truthy(req.chatId) {
      return IngestError(400, NoChatIdError);
    }
    var result := InitEmbeddingService.ProcessMetadataEmbeddings(req.link.value, req.chatId.value, Flag(req.isPublic), req.botId, src, store);
    if result.Failure? {
      return IngestError(500, InternalError);
    }
    reply := Ingested(result.value);
  }

  /** A request without a link, or with a link but no chat id, is refused before anything is fetched. */
  lemma MetadataRequestValidated(req: MetadataRequest, src: InitEmbeddingService.Sources, c: InitEmbeddingService.MetadataCollection)
    ensures !Truthy(req.link) ==> IngestMetadata(req, src, c) == (c, IngestError(400, NoLinkError))
    ensures Truthy(req.link) && !Truthy(req.chatId) ==> IngestMetadata(req, src, c) == (c, IngestError(400, NoChatIdError))
    ensures IngestMetadata(req, src, c).1.Ingested? ==> Truthy(req.link) && Truthy(req.chatId)
  {
  }

  /**
   * Sending the same private ingestion request twice to a loaded collection stores nothing the
   * second time: the collection after the second request is the one after the first.
   */
  lemma RepeatedPrivateIngestion(req: MetadataRequest, src: InitEmbeddingService.Sources, c: InitEmbeddingService.MetadataCollection)
    requires c.Some? && c.value.loaded && !Flag(req.isPublic)
    requires IngestMetadata(req, src, c).1.Ingested?
    ensures var c1 := IngestMetadata(req, src, c).0;
            var (c2, reply2) := IngestMetadata(req, src, c1);
            && c2 == c1 && reply2.Ingested?
            && forall k :: 0 <= k < |reply2.report.results| ==> !reply2.report.results[k].Stored?
  {
    var link, chatId := req.link.value, req.chatId.value;
    var (links, files) := InitEmbeddingService.Manifest(link, src).value;
    InitEmbeddingService.PrivateIngestionIdempotent(c, link, links, chatId, req.botId, src, files);
  }
}
