/**
 * `generateEmbeddings` (src/controllers/embeddingControllers.ts): embedding a text or a list of
 * uploaded files, and storing each as a document row when asked to.
 */
module DocumentUpload {
  import opened Wrappers
  import opened Vectors
  import opened RequestFields
  import Strings
  import MilvusService

  const InternalError := "Internal server error."

  // ---------------------------------------------------------------------------
  // generateEmbeddings
  // ---------------------------------------------------------------------------

  /** An uploaded file: its original name and its content decoded as UTF-8. */
  datatype UploadedFile = UploadedFile(originalName: string, content: string)

  datatype EmbedRequest = EmbedRequest(
    chatId: Option<string>, save: Option<string>, text: Option<string>,
    isPublic: Option<string>, botId: string, files: Option<seq<UploadedFile>>)

  /** One element of the response's `results`. */
  datatype EmbeddingEntry = EmbeddingEntry(fileName: string, message: string, content: string, embedding: Vector, chatId: string)

  datatype EmbedReply = EmbedError(status: nat, error: string) | Embedded(message: string, results: seq<EmbeddingEntry>, chatId: string)

  /** The settings a request fixes for every entry it embeds. */
  datatype Upload = Upload(chatId: string, save: bool, isPublic: bool, botId: string)

  const BothInputsError := "Please provide either text or files, but not both."

  const NoInputError := "No file or text provided."

  const TextFileName := "text_input.txt"

  const StoredMessage := "Embedding stored in Milvus!"

  const GeneratedMessage := "Embedding generated."

  const SuccessMessage := "Embeddings generated successfully."

  function UnsupportedType(fileName: string): string
  {
    "Unsupported file type for " + fileName + "."
  }

  /** The extension test: the text after the last `.` (all of the name when it has none) is `txt` or `md`. */
  predicate Supported(fileName: string)
  {
    var format := Strings.LastSegment(fileName, '.');
    format == "txt" || format == "md"
  }

  /** The chat id is the request's when truthy, else a fresh one; the two flags read "true" in any case. */
  function Settings(req: EmbedRequest, freshId: string): Upload
  {
    Upload(if Truthy(req.chatId) then req.chatId.value else freshId, Flag(req.save), Flag(req.isPublic), req.botId)
  }

  type DocumentCollection = Option<MilvusService.Collection<MilvusService.DocumentFields>>

  /** Embedding one input, storing it when saving; a thrown error becomes a 500. */
  function EmbedOne(c: DocumentCollection, u: Upload, fileName: string, content: string,
                    embed: string -> Option<Vector>, rank: MilvusService.Ranker<MilvusService.DocumentFields>)
    : (r: (DocumentCollection, Result<EmbeddingEntry, EmbedReply>))
    ensures !u.save ==> r.0 == c
    ensures r.1.Failure? ==> r.1.error == EmbedError(500, InternalError)
    ensures r.1.Success? ==> r.1.value.fileName == fileName && r.1.value.content == content && r.1.value.chatId == u.chatId
    ensures r.1.Success? ==> r.1.value.message == if u.save then StoredMessage else GeneratedMessage
    ensures r.1.Success? ==> embed(content).Some? && r.1.value.embedding == embed(content).value
    ensures r.1.Failure? <==>
              || embed(content).None?
              || (u.save && (c.None? || |embed(content).value| != c.value.dimension || (u.isPublic && !c.value.loaded)))
    ensures u.save && r.1.Success? ==>
              var rec := MilvusService.Record(u.chatId, MilvusService.DocumentFields(fileName, content), embed(content).value,
                                              u.isPublic, u.botId);
              r.0 == c || r.0 == Some(c.value.(records := c.value.records + [rec]))
  {
    match embed(content)
    case None => (c, Failure(EmbedError(500, InternalError)))
    case Some(embedding) =>
      if !u.save then (c, Success(EmbeddingEntry(fileName, GeneratedMessage, content, embedding, u.chatId)))
      else
        var rec := MilvusService.Record(u.chatId, MilvusService.DocumentFields(fileName, content), embedding, u.isPublic, u.botId);
        var (c', stored) := MilvusService.GatedInsert(c, rec, rank, MilvusService.DocumentStoreError);
        if stored.Failure? then (c', Failure(EmbedError(500, InternalError)))
        else (c', Success(EmbeddingEntry(fileName, StoredMessage, content, embedding, u.chatId)))
  }

  /** The file loop over the first `|files|` files: an unsupported type stops it with a 400. */
  function EmbedFiles(c: DocumentCollection, u: Upload, files: seq<UploadedFile>,
                      embed: string -> Option<Vector>, rank: MilvusService.Ranker<MilvusService.DocumentFields>)
    : (DocumentCollection, Result<seq<EmbeddingEntry>, EmbedReply>)
  {
    if files == [] then (c, Success([]))
    else
      var (c0, r0) := EmbedFiles(c, u, files[..|files| - 1], embed, rank);
      var file := files[|files| - 1];
      if r0.Failure? then (c0, r0)
      else if !Supported(file.originalName) then (c0, Failure(EmbedError(400, UnsupportedType(file.originalName))))
      else
        var (c1, e) := EmbedOne(c0, u, file.originalName, file.content, embed, rank);
        if e.Failure? then (c1, Failure(e.error)) else (c1, Success(r0.value + [e.value]))
  }

  /** `generateEmbeddings` on the document collection; `freshId` is the id `uuidv4` would return. */
  function Generate(req: EmbedRequest, freshId: string, c: DocumentCollection,
                    embed: string -> Option<Vector>, rank: MilvusService.Ranker<MilvusService.DocumentFields>)
    : (DocumentCollection, EmbedReply)
  {
    var u := Settings(req, freshId);
    if req.files.Some? && |req.files.value| > 0 && Truthy(req.text) then (c, EmbedError(400, BothInputsError))
    else if Truthy(req.text) then
      var (c', e) := EmbedOne(c, u, TextFileName, req.text.value, embed, rank);
      if e.Failure? then (c', e.error) else (c', Embedded(SuccessMessage, [e.value], u.chatId))
    else if req.files.Some? then
      var (c', r) := EmbedFiles(c, u, req.files.value, embed, rank);
      if r.Failure? then (c', r.error) else (c', Embedded(SuccessMessage, r.value, u.chatId))
    else (c, EmbedError(400, NoInputError))
  }

  /** `generateEmbeddings`. */
  method GenerateEmbeddings(req: EmbedRequest, freshId: string, embed: string -> Option<Vector>,
                            rank: MilvusService.Ranker<MilvusService.DocumentFields>, store: MilvusService.MilvusStore)
    returns (reply: EmbedReply)
    requires store.Valid()
    modifies store
    ensures store.Valid() && store.metadata == old(store.metadata)
    ensures (store.documents, reply) == Generate(req, freshId, old(store.documents), embed, rank)
  {
    var u := Settings(req, freshId);
    if req.files.Some? && |req.files.value| > 0 && Truthy(req.text) {
      return EmbedError(400, BothInputsError);
    }
    if Truthy(req.text) {
      var entry := Embed(u, TextFileName, req.text.value, embed, rank, store);
      if entry.Failure? {
        return entry.error;
      }
      return Embedded(SuccessMessage, [entry.value], u.chatId);
    } else if req.files.Some? {
      var entries := EmbedFileList(u, req.files.value, embed, rank, store);
      if entries.Failure? {
        return entries.error;
      }
      return Embedded(SuccessMessage, entries.value, u.chatId);
    } else {
      return EmbedError(400, NoInputError);
    }
  }

  /** The file loop of `generateEmbeddings`. */
  method EmbedFileList(u: Upload, files: seq<UploadedFile>, embed: string -> Option<Vector>,
                       rank: MilvusService.Ranker<MilvusService.DocumentFields>, store: MilvusService.MilvusStore)
    returns (r: Result<seq<EmbeddingEntry>, EmbedReply>)
    requires store.Valid()
    modifies store
    ensures store.Valid() && store.metadata == old(store.metadata)
    ensures (store.documents, r) == EmbedFiles(old(store.documents), u, files, embed, rank)
  {
    var responseData: seq<EmbeddingEntry> := [];
    for i := 0 to |files|
      invariant store.Valid() && store.metadata == old(store.metadata)
      invariant EmbedFiles(old(store.documents), u, files[..i], embed, rank) == (store.documents, Success(responseData))
    {
      assert files[..i + 1][..i] == files[..i];
      var fileName := files[i].originalName;
      if !Supported(fileName) {
        EmbedFilesFailureSticks(old(store.documents), u, files, embed, rank, i + 1);
        assert files[..|files|] == files;
        return Failure(EmbedError(400, UnsupportedType(fileName)));
      }
      var entry := Embed(u, fileName, files[i].content, embed, rank, store);
      if entry.Failure? {
        EmbedFilesFailureSticks(old(store.documents), u, files, embed, rank, i + 1);
        assert files[..|files|] == files;
        return Failure(entry.error);
      }
      responseData := responseData + [entry.value];
    }
    assert files[..|files|] == files;
    r := Success(responseData);
  }

  /** The body shared by the text branch and the file loop: embed, store when saving, build the entry. */
  method Embed(u: Upload, fileName: string, content: string, embed: string -> Option<Vector>,
               rank: MilvusService.Ranker<MilvusService.DocumentFields>, store: MilvusService.MilvusStore)
    returns (r: Result<EmbeddingEntry, EmbedReply>)
    requires store.Valid()
    modifies store
    ensures store.Valid() && store.metadata == old(store.metadata)
    ensures (store.documents, r) == EmbedOne(old(store.documents), u, fileName, content, embed, rank)
  {
    var embedding := embed(content);
    if embedding.None? {
      return Failure(EmbedError(500, InternalError));
    }
    if u.save {
      var stored := store.StoreEmbeddingInMilvus(u.chatId, fileName, content, embedding.value, u.isPublic, u.botId, rank);
      if stored.Failure? {
        return Failure(EmbedError(500, InternalError));
      }
    }
    r := Success(EmbeddingEntry(fileName, if u.save then StoredMessage else GeneratedMessage, content, embedding.value, u.chatId));
  }

  /** A failed file stops the loop: the files after it change neither the collection nor the reply. */
  lemma {:induction false} EmbedFilesFailureSticks(c: DocumentCollection, u: Upload, files: seq<UploadedFile>,
                                                   embed: string -> Option<Vector>, rank: MilvusService.Ranker<MilvusService.DocumentFields>, j: nat)
    requires j <= |files|
    requires EmbedFiles(c, u, files[..j], embed, rank).1.Failure?
    ensures EmbedFiles(c, u, files, embed, rank) == EmbedFiles(c, u, files[..j], embed, rank)
    decreases |files|
  {
    if j < |files| {
      var init := files[..|files| - 1];
      assert init[..j] == files[..j];
      EmbedFilesFailureSticks(c, u, init, embed, rank, j);
    } else {
      assert files[..j] == files;
    }
  }

  /** Text together with a non-empty file list is refused, and nothing is stored. */
  lemma BothInputsRejected(req: EmbedRequest, freshId: string, c: DocumentCollection,
                           embed: string -> Option<Vector>, rank: MilvusService.Ranker<MilvusService.DocumentFields>)
    requires req.files.Some? && |req.files.value| > 0 && Truthy(req.text)
    ensures Generate(req, freshId, c, embed, rank) == (c, EmbedError(400, BothInputsError))
  {
  }

  /** Neither text nor a file list is refused, and nothing is stored. */
  lemma NoInputRejected(req: EmbedRequest, freshId: string, c: DocumentCollection,
                        embed: string -> Option<Vector>, rank: MilvusService.Ranker<MilvusService.DocumentFields>)
    requires req.files.None? && !Truthy(req.text)
    ensures Generate(req, freshId, c, embed, rank) == (c, EmbedError(400, NoInputError))
  {
  }

  /**
   * A finished file loop reports one entry per file, in order, each naming its file, carrying its
   * content and the request's chat id, and saying whether it was stored; every file had a
   * supported type.
   */
  lemma {:induction false} EntryPerFile(c: DocumentCollection, u: Upload, files: seq<UploadedFile>,
                                        embed: string -> Option<Vector>, rank: MilvusService.Ranker<MilvusService.DocumentFields>)
    requires EmbedFiles(c, u, files, embed, rank).1.Success?
    ensures var results := EmbedFiles(c, u, files, embed, rank).1.value;
            && |results| == |files|
            && forall k :: 0 <= k < |files| ==>
                 && Supported(files[k].originalName)
                 && results[k].fileName == files[k].originalName && results[k].content == files[k].content
                 && results[k].chatId == u.chatId
                 && results[k].message == (if u.save then StoredMessage else GeneratedMessage)
                 && embed(files[k].content).Some? && results[k].embedding == embed(files[k].content).value
  {
    if files != [] {
      var init, file := files[..|files| - 1], files[|files| - 1];
      EntryPerFile(c, u, init, embed, rank);
      var (c0, r0) := EmbedFiles(c, u, init, embed, rank);
      var e := EmbedOne(c0, u, file.originalName, file.content, embed, rank).1;
      var results := EmbedFiles(c, u, files, embed, rank).1.value;
      assert results == r0.value + [e.value];
      forall k | 0 <= k < |files|
        ensures && Supported(files[k].originalName)
                && results[k].fileName == files[k].originalName && results[k].content == files[k].content
                && results[k].chatId == u.chatId
                && results[k].message == (if u.save then StoredMessage else GeneratedMessage)
                && embed(files[k].content).Some? && results[k].embedding == embed(files[k].content).value
      {
        if k < |init| {
          assert files[k] == init[k] && results[k] == r0.value[k];
        } else {
          assert results[k] == e.value;
        }
      }
    }
  }

  /** Text input yields the single entry `text_input.txt` with the text as its content. */
  lemma TextInputEntry(req: EmbedRequest, freshId: string, c: DocumentCollection,
                       embed: string -> Option<Vector>, rank: MilvusService.Ranker<MilvusService.DocumentFields>)
    requires Truthy(req.text) && !(req.files.Some? && |req.files.value| > 0)
    requires Generate(req, freshId, c, embed, rank).1.Embedded?
    ensures var reply := Generate(req, freshId, c, embed, rank).1;
            && |reply.results| == 1 && reply.results[0].fileName == TextFileName
            && reply.results[0].content == req.text.value && reply.chatId == Settings(req, freshId).chatId
  {
  }

  /**
   * The first file of unsupported type, reached after the earlier files went through, ends the
   * request with a 400 naming that file.
   */
  lemma UnsupportedFileRejected(c: DocumentCollection, u: Upload, files: seq<UploadedFile>, k: nat,
                                embed: string -> Option<Vector>, rank: MilvusService.Ranker<MilvusService.DocumentFields>)
    requires k < |files| && !Supported(files[k].originalName)
    requires EmbedFiles(c, u, files[..k], embed, rank).1.Success?
    ensures EmbedFiles(c, u, files, embed, rank) ==
            (EmbedFiles(c, u, files[..k], embed, rank).0, Failure(EmbedError(400, UnsupportedType(files[k].originalName))))
  {
    assert files[..k + 1][..k] == files[..k];
    EmbedFilesFailureSticks(c, u, files, embed, rank, k + 1);
  }

  /** Without `save` nothing is stored, whatever the reply. */
  lemma {:induction false} WithoutSaveNothingStored(c: DocumentCollection, u: Upload, files: seq<UploadedFile>,
                                                    embed: string -> Option<Vector>, rank: MilvusService.Ranker<MilvusService.DocumentFields>)
    requires !u.save
    ensures EmbedFiles(c, u, files, embed, rank).0 == c
  {
    if files != [] {
      WithoutSaveNothingStored(c, u, files[..|files| - 1], embed, rank);
    }
  }

  /** `generateEmbeddings` without `save` leaves the document collection as it was. */
  lemma GenerateWithoutSave(req: EmbedRequest, freshId: string, c: DocumentCollection,
                            embed: string -> Option<Vector>, rank: MilvusService.Ranker<MilvusService.DocumentFields>)
    requires !Flag(req.save)
    ensures Generate(req, freshId, c, embed, rank).0 == c
  {
    if req.files.Some? {
      WithoutSaveNothingStored(c, Settings(req, freshId), req.files.value, embed, rank);
    }
  }

  /** `rec` is the private row of `file` for the request's chat and bot. */
  predicate PrivateRowOf(rec: MilvusService.Record<MilvusService.DocumentFields>, u: Upload, file: UploadedFile)
  {
    && rec.fields == MilvusService.DocumentFields(file.originalName, file.content)
    && rec.chatId == u.chatId && !rec.isPublic && rec.botId == u.botId
  }

  /**
   * A finished private save appends one row per file, in order: the file's name as title, its
   * content, the request's chat id and bot id, not public.
   */
  lemma {:induction false} PrivateSaveAppendsEachFile(c: DocumentCollection, u: Upload, files: seq<UploadedFile>,
                                                      embed: string -> Option<Vector>, rank: MilvusService.Ranker<MilvusService.DocumentFields>)
    requires u.save && !u.isPublic && c.Some?
    requires EmbedFiles(c, u, files, embed, rank).1.Success?
    ensures var c' := EmbedFiles(c, u, files, embed, rank).0;
            && c'.Some? && c.value.records <= c'.value.records
            && |c'.value.records| == |c.value.records| + |files|
            && forall k :: 0 <= k < |files| ==> PrivateRowOf(c'.value.records[|c.value.records| + k], u, files[k])
  {
    if files != [] {
      var init, file := files[..|files| - 1], files[|files| - 1];
      PrivateSaveAppendsEachFile(c, u, init, embed, rank);
      var c0 := EmbedFiles(c, u, init, embed, rank).0;
      var embedding := embed(file.content).value;
      var rec := MilvusService.Record(u.chatId, MilvusService.DocumentFields(file.originalName, file.content), embedding, false, u.botId);
      MilvusService.PrivateInsertAppends(c0, rec, rank, MilvusService.DocumentStoreError);
      var c1 := EmbedFiles(c, u, files, embed, rank).0;
      assert c1 == Some(c0.value.(records := c0.value.records + [rec]));
      forall k | 0 <= k < |files|
        ensures PrivateRowOf(c1.value.records[|c.value.records| + k], u, files[k])
      {
        var n := |c.value.records|;
        if k < |init| {
          assert files[k] == init[k];
          assert c1.value.records[n + k] == c0.value.records[n + k];
        } else {
          assert c1.value.records[n + k] == rec;
        }
      }
    }
  }

  /** A file named `notes.md` or `readme.txt` passes; `graph.png` does not; a name without a dot passes only as "txt" or "md". */
  lemma SupportedExamples()
    ensures Supported("notes.md") && Supported("readme.txt") && Supported("txt")
    ensures !Supported("graph.png") && !Supported("README")
  {
    Strings.LastSegmentOfAppend("notes", '.', "md");
    assert "notes.md" == "notes" + ['.'] + "md";
    Strings.LastSegmentOfAppend("readme", '.', "txt");
    assert "readme.txt" == "readme" + ['.'] + "txt";
    Strings.LastSegmentOfAppend("graph", '.', "png");
    assert "graph.png" == "graph" + ['.'] + "png";
    Strings.LastSegmentSpec("txt", '.');
    Strings.LastSegmentSpec("README", '.');
  }

}
