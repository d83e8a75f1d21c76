/**
 * Ingestion into the vector store (src/services/initEmbeddingService.ts): `processEmbeddings`
 * stores scraped pages as public documents, and `processMetadataEmbeddings` walks an IPFS
 * manifest, storing one metadata row per new file and reporting one result per manifest entry.
 */
module InitEmbeddingService {
  import opened Wrappers
  import opened Vectors
  import Seqs
  import MilvusService

  /** An entry of an IPFS directory listing. */
  datatype Link = Link(name: string, cid: string)

  /** An entry of `meta.json`'s `files`; a missing or falsy field is the empty string. */
  datatype ManifestFile = ManifestFile(cid: string, description: string)

  /** The `files` field of `meta.json`: absent or falsy (read as `[]`), some other non-list value, or a list. */
  datatype FilesField = Absent | NotAList | Files(entries: seq<ManifestFile>)

  /** An HTTP response as `axios.get` resolves it. */
  datatype Fetched<T> = Fetched(status: nat, data: T)

  /** Why an ingestion run stops. */
  datatype IngestError =
    | RequestFailed          // axios rejected the request
    | DirectoryFetchFailed
    | MetaFileNotFound
    | ManifestFetchFailed
    | InvalidFiles
    | EmbeddingFailed        // the embedder threw
    | StoreFailed(message: string)

  /** The message of the error thrown, for the errors the service raises itself. */
  function ErrorMessage(e: IngestError): string
  {
    match e
    case RequestFailed => "Request failed"
    case DirectoryFetchFailed => "Failed to fetch IPFS directory JSON."
    case MetaFileNotFound => "meta.json file not found in the provided IPFS link."
    case ManifestFetchFailed => "Failed to fetch meta.json file from the provided IPFS link."
    case InvalidFiles => "Invalid format in meta.json: 'files' should be a list."
    case EmbeddingFailed => "Embedding failed"
    case StoreFailed(message) => message
  }

  const MissingFieldsError := "File metadata missing 'cid' or 'description'. Skipping this entry."

  const NameNotFoundError := "Image name not found for the given CID. Skipping this entry."

  const StoredMessage := "Embedding generated and stored in Milvus."

  const ExistsMessage := "CID already exists in Milvus. Skipping."

  const ProcessedMessage := "IPFS metadata processed successfully."

  /** One element of `results`. */
  datatype ResultEntry =
    | MissingFields(error: string)
    | NameNotFound(cid: string, error: string)
    | Stored(cid: string, description: string, url: string, message: string)
    | AlreadyExists(cid: string, url: string, message: string)

  /** What `processMetadataEmbeddings` resolves to. */
  datatype Report = Report(message: string, results: seq<ResultEntry>)

  /** The remote collaborators of an ingestion run. */
  datatype Sources = Sources(
    fetchDirectory: string -> Option<Fetched<seq<Link>>>,
    fetchManifest: string -> Option<Fetched<FilesField>>,
    embed: string -> Option<Vector>,
    rank: MilvusService.Ranker<MilvusService.MetadataFields>)

  type MetadataCollection = Option<MilvusService.Collection<MilvusService.MetadataFields>>

  /** The name of the first link carrying `cid`, when there is one and it is non-empty. */
  function FileName(links: seq<Link>, cid: string): (r: Option<string>)
    ensures r.Some? ==> r.value != "" && exists k :: 0 <= k < |links| && links[k].cid == cid && links[k].name == r.value
  {
    match Seqs.FindIndex(links, (l: Link) => l.cid == cid)
    case None => None
    case Some(k) => if links[k].name != "" then Some(links[k].name) else None
  }

  /** An entry that gets past both checks: it has a cid and a description, and its cid names a file. */
  predicate Addressable(links: seq<Link>, file: ManifestFile)
  {
    file.cid != "" && file.description != "" && FileName(links, file.cid).Some?
  }

  function EntryUrl(link: string, links: seq<Link>, file: ManifestFile): string
    requires Addressable(links, file)
  {
    link + "/" + FileName(links, file.cid).value
  }

  /**
   * One iteration of the loop: the two skip checks, then the existence check, then embedding and
   * the store. Only a new, addressable entry can change the collection.
   */
  function Step(c: MetadataCollection, link: string, links: seq<Link>, chatId: string, isPublic: bool,
                botId: string, src: Sources, file: ManifestFile)
    : (r: (MetadataCollection, Result<ResultEntry, IngestError>))
    ensures !Addressable(links, file) ==> r.0 == c && r.1.Success? && (r.1.value.MissingFields? || r.1.value.NameNotFound?)
    ensures file.cid == "" || file.description == "" ==> r == (c, Success(MissingFields(MissingFieldsError)))
    ensures Addressable(links, file) && MilvusService.CidExists(c, chatId, file.cid) ==>
              r == (c, Success(AlreadyExists(file.cid, EntryUrl(link, links, file), ExistsMessage)))
    ensures r.1.Success? && r.1.value.Stored? ==>
              && Addressable(links, file) && !MilvusService.CidExists(c, chatId, file.cid)
              && r.1.value == Stored(file.cid, file.description, EntryUrl(link, links, file), StoredMessage)
    ensures Addressable(links, file) && !MilvusService.CidExists(c, chatId, file.cid) && r.1.Success? ==>
              r.1.value == Stored(file.cid, file.description, EntryUrl(link, links, file), StoredMessage)
    ensures r.1.Failure? ==> Addressable(links, file) && !MilvusService.CidExists(c, chatId, file.cid) && r.0 == c
  {
    if file.cid == "" || file.description == "" then (c, Success(MissingFields(MissingFieldsError)))
    else if FileName(links, file.cid).None? then (c, Success(NameNotFound(file.cid, NameNotFoundError)))
    else
      var url := EntryUrl(link, links, file);
      if MilvusService.CidExists(c, chatId, file.cid) then (c, Success(AlreadyExists(file.cid, url, ExistsMessage)))
      else match src.embed(file.description)
        case None => (c, Failure(EmbeddingFailed))
        case Some(embedding) =>
          var rec := MilvusService.Record(chatId, MilvusService.MetadataFields(file.cid, file.description, url), embedding, isPublic, botId);
          var (c', stored) := MilvusService.GatedInsert(c, rec, src.rank, MilvusService.MetadataStoreError);
          if stored.Failure? then (c', Failure(StoreFailed(stored.error)))
          else (c', Success(Stored(file.cid, file.description, url, StoredMessage)))
  }

  /** The loop over the first `|files|` entries: the collection and the results so far, or the error that stopped it. */
  function Ingest(c: MetadataCollection, link: string, links: seq<Link>, chatId: string, isPublic: bool,
                  botId: string, src: Sources, files: seq<ManifestFile>)
    : (MetadataCollection, Result<seq<ResultEntry>, IngestError>)
  {
    if files == [] then (c, Success([]))
    else
      var (c0, r0) := Ingest(c, link, links, chatId, isPublic, botId, src, files[..|files| - 1]);
      if r0.Failure? then (c0, r0)
      else
        var (c1, e) := Step(c0, link, links, chatId, isPublic, botId, src, files[|files| - 1]);
        if e.Failure? then (c1, Failure(e.error)) else (c1, Success(r0.value + [e.value]))
  }

  /** The checks before the loop: the directory, its `meta.json` link, the manifest and its `files` list. */
  function Manifest(link: string, src: Sources): Result<(seq<Link>, seq<ManifestFile>), IngestError>
  {
    match src.fetchDirectory(link)
    case None => Failure(RequestFailed)
    case Some(directory) =>
      if directory.status != 200 then Failure(DirectoryFetchFailed)
      else if Seqs.FindIndex(directory.data, (l: Link) => l.name == "meta.json").None? then Failure(MetaFileNotFound)
      else match src.fetchManifest(link + "/meta.json")
        case None => Failure(RequestFailed)
        case Some(meta) =>
          if meta.status != 200 then Failure(ManifestFetchFailed)
          else match meta.data
            case Absent => Success((directory.data, []))
            case NotAList => Failure(InvalidFiles)
            case Files(entries) => Success((directory.data, entries))
  }

  /** `processMetadataEmbeddings` on the metadata collection. */
  function ProcessMetadata(c: MetadataCollection, link: string, chatId: string, isPublic: bool, botId: string, src: Sources)
    : (MetadataCollection, Result<Report, IngestError>)
  {
    match Manifest(link, src)
    case Failure(e) => (c, Failure(e))
    case Success((links, files)) =>
      var (c', r) := Ingest(c, link, links, chatId, isPublic, botId, src, files);
      if r.Failure? then (c', Failure(r.error)) else (c', Success(Report(ProcessedMessage, r.value)))
  }

  /** `processMetadataEmbeddings`. */
  method ProcessMetadataEmbeddings(link: string, chatId: string, isPublic: bool, botId: string, src: Sources,
                                   store: MilvusService.MilvusStore)
    returns (r: Result<Report, IngestError>)
    requires store.Valid()
    modifies store
    ensures store.Valid()
    ensures (store.metadata, r) == ProcessMetadata(old(store.metadata), link, chatId, isPublic, botId, src)
    ensures store.documents == old(store.documents)
  {
    var manifest := Manifest(link, src);
    if manifest.Failure? {
      return Failure(manifest.error);
    }
    var (links, files) := manifest.value;
    var results := IngestFiles(link, links, chatId, isPublic, botId, src, files, store);
    if results.Failure? {
      return Failure(results.error);
    }
    r := Success(Report(ProcessedMessage, results.value));
  }

  /** The loop of `processMetadataEmbeddings` over the manifest's entries; the first error ends it. */
  method IngestFiles(link: string, links: seq<Link>, chatId: string, isPublic: bool, botId: string, src: Sources,
                     files: seq<ManifestFile>, store: MilvusService.MilvusStore)
    returns (r: Result<seq<ResultEntry>, IngestError>)
    requires store.Valid()
    modifies store
    ensures store.Valid()
    ensures (store.metadata, r) == Ingest(old(store.metadata), link, links, chatId, isPublic, botId, src, files)
    ensures store.documents == old(store.documents)
  {
    var results: seq<ResultEntry> := [];
    for i := 0 to |files|
      invariant store.Valid() && store.documents == old(store.documents)
      invariant Ingest(old(store.metadata), link, links, chatId, isPublic, botId, src, files[..i]) == (store.metadata, Success(results))
    {
      ghost var before := store.metadata;
      var entry := IngestEntry(link, links, chatId, isPublic, botId, src, files[i], store);
      IngestSnoc(old(store.metadata), link, links, chatId, isPublic, botId, src, files, i, before, results);
      if entry.Failure? {
        IngestFailureSticks(old(store.metadata), link, links, chatId, isPublic, botId, src, files, i + 1);
        assert files[..|files|] == files;
        return Failure(entry.error);
      }
      results := results + [entry.value];
    }
    assert files[..|files|] == files;
    r := Success(results);
  }

  /** The run over one more entry is the run so far followed by that entry's step. */
  lemma IngestSnoc(c: MetadataCollection, link: string, links: seq<Link>, chatId: string, isPublic: bool,
                   botId: string, src: Sources, files: seq<ManifestFile>, i: nat,
                   c0: MetadataCollection, results: seq<ResultEntry>)
    requires i < |files|
    requires Ingest(c, link, links, chatId, isPublic, botId, src, files[..i]) == (c0, Success(results))
    ensures var (c1, e) := Step(c0, link, links, chatId, isPublic, botId, src, files[i]);
            Ingest(c, link, links, chatId, isPublic, botId, src, files[..i + 1])
            == if e.Failure? then (c1, Failure(e.error)) else (c1, Success(results + [e.value]))
  {
    assert files[..i + 1][..i] == files[..i];
  }

  /** One entry of the manifest: skipped, found already stored, or embedded and stored. */
  method IngestEntry(link: string, links: seq<Link>, chatId: string, isPublic: bool, botId: string, src: Sources,
                     file: ManifestFile, store: MilvusService.MilvusStore)
    returns (r: Result<ResultEntry, IngestError>)
    requires store.Valid()
    modifies store
    ensures store.Valid()
    ensures (store.metadata, r) == Step(old(store.metadata), link, links, chatId, isPublic, botId, src, file)
    ensures store.documents == old(store.documents)
  {
    if file.cid == "" || file.description == "" {
      return Success(MissingFields(MissingFieldsError));
    }
    var fileName := FileName(links, file.cid);
    if fileName.None? {
      return Success(NameNotFound(file.cid, NameNotFoundError));
    }
    var url := link + "/" + fileName.value;
    var existsInMilvus := store.CheckIfCidExistsInMilvus(chatId, file.cid);
    if existsInMilvus {
      return Success(AlreadyExists(file.cid, url, ExistsMessage));
    }
    var embedding := src.embed(file.description);
    if embedding.None? {
      return Failure(EmbeddingFailed);
    }
    var stored := store.StoreMetadataEmbeddingInMilvus(chatId, file.cid, file.description, embedding.value, url, isPublic, botId, src.rank);
    if stored.Failure? {
      return Failure(StoreFailed(stored.error));
    }
    r := Success(Stored(file.cid, file.description, url, StoredMessage));
  }

  /** An error stops the run: the entries after the one that failed change neither the collection nor the outcome. */
  lemma {:induction false} IngestFailureSticks(c: MetadataCollection, link: string, links: seq<Link>, chatId: string,
                                               isPublic: bool, botId: string, src: Sources, files: seq<ManifestFile>, j: nat)
    requires j <= |files|
    requires Ingest(c, link, links, chatId, isPublic, botId, src, files[..j]).1.Failure?
    ensures Ingest(c, link, links, chatId, isPublic, botId, src, files) == Ingest(c, link, links, chatId, isPublic, botId, src, files[..j])
    decreases |files|
  {
    if j < |files| {
      var init := files[..|files| - 1];
      assert init[..j] == files[..j];
      IngestFailureSticks(c, link, links, chatId, isPublic, botId, src, init, j);
    } else {
      assert files[..j] == files;
    }
  }

  // ---------------------------------------------------------------------------
  // Properties of the manifest loop
  // ---------------------------------------------------------------------------

  /** The result an entry gets, given whether its cid already existed when it was reached. */
  predicate Reports(link: string, links: seq<Link>, file: ManifestFile, e: ResultEntry)
  {
    if file.cid == "" || file.description == "" then e == MissingFields(MissingFieldsError)
    else if !Addressable(links, file) then e == NameNotFound(file.cid, NameNotFoundError)
    else e == Stored(file.cid, file.description, EntryUrl(link, links, file), StoredMessage)
         || e == AlreadyExists(file.cid, EntryUrl(link, links, file), ExistsMessage)
  }

  /**
   * A run that finishes reports exactly one result per manifest entry, in manifest order: the
   * error entry for an entry lacking a cid or description or whose cid names no file, otherwise
   * the stored or already-exists entry carrying the URL `link + "/" + fileName`.
   */
  lemma {:induction false} OneResultPerEntry(c: MetadataCollection, link: string, links: seq<Link>, chatId: string,
                                             isPublic: bool, botId: string, src: Sources, files: seq<ManifestFile>)
    requires Ingest(c, link, links, chatId, isPublic, botId, src, files).1.Success?
    ensures var results := Ingest(c, link, links, chatId, isPublic, botId, src, files).1.value;
            |results| == |files| && forall k :: 0 <= k < |files| ==> Reports(link, links, files[k], results[k])
  {
    if files != [] {
      var init := files[..|files| - 1];
      OneResultPerEntry(c, link, links, chatId, isPublic, botId, src, init);
    }
  }

  /** Rows are only ever appended: an ingestion run keeps the collection's rows as a prefix, and its dimension and load state. */
  lemma {:induction false} IngestOnlyAppends(c: MetadataCollection, link: string, links: seq<Link>, chatId: string,
                                             isPublic: bool, botId: string, src: Sources, files: seq<ManifestFile>)
    requires c.Some?
    ensures var c' := Ingest(c, link, links, chatId, isPublic, botId, src, files).0;
            && c'.Some? && c'.value.dimension == c.value.dimension && c'.value.loaded == c.value.loaded
            && c.value.records <= c'.value.records
  {
    if files != [] {
      var init := files[..|files| - 1];
      IngestOnlyAppends(c, link, links, chatId, isPublic, botId, src, init);
      var c0 := Ingest(c, link, links, chatId, isPublic, botId, src, init).0;
      StepOnlyAppends(c0, link, links, chatId, isPublic, botId, src, files[|files| - 1]);
    }
  }

  /** A present row stays present while rows are only appended. */
  lemma CidExistsMonotone(c: MetadataCollection, c': MetadataCollection, chatId: string, cid: string)
    requires MilvusService.CidExists(c, chatId, cid)
    requires c'.Some? && c'.value.loaded && c.value.records <= c'.value.records
    ensures MilvusService.CidExists(c', chatId, cid)
  {
    var k :| 0 <= k < |c.value.records| && MilvusService.SameChatAndCid(chatId, cid, c.value.records[k]);
    assert c'.value.records[k] == c.value.records[k];
  }

  /**
   * After a private run over a loaded collection finishes, every addressable entry's
   * `(chat_id, cid)` exists in the collection.
   */
  lemma {:induction false} PrivateRunRecordsEveryEntry(c: MetadataCollection, link: string, links: seq<Link>, chatId: string,
                                                       botId: string, src: Sources, files: seq<ManifestFile>)
    requires c.Some? && c.value.loaded
    requires Ingest(c, link, links, chatId, false, botId, src, files).1.Success?
    ensures var c' := Ingest(c, link, links, chatId, false, botId, src, files).0;
            forall k :: 0 <= k < |files| && Addressable(links, files[k]) ==> MilvusService.CidExists(c', chatId, files[k].cid)
  {
    if files != [] {
      var init, last := files[..|files| - 1], files[|files| - 1];
      PrivateRunRecordsEveryEntry(c, link, links, chatId, botId, src, init);
      IngestOnlyAppends(c, link, links, chatId, false, botId, src, init);
      var c0 := Ingest(c, link, links, chatId, false, botId, src, init).0;
      var c1 := Step(c0, link, links, chatId, false, botId, src, last).0;
      assert c1 == Ingest(c, link, links, chatId, false, botId, src, files).0;
      StepOnlyAppends(c0, link, links, chatId, false, botId, src, last);
      forall k | 0 <= k < |files| && Addressable(links, files[k])
        ensures MilvusService.CidExists(c1, chatId, files[k].cid)
      {
        if k < |init| {
          assert files[k] == init[k];
          CidExistsMonotone(c0, c1, chatId, files[k].cid);
        } else if !MilvusService.CidExists(c0, chatId, last.cid) {
          PrivateStepRecords(c0, link, links, chatId, botId, src, last);
        }
      }
    }
  }

  /** One step keeps the rows as a prefix, and the dimension and load state. */
  lemma StepOnlyAppends(c: MetadataCollection, link: string, links: seq<Link>, chatId: string, isPublic: bool,
                        botId: string, src: Sources, file: ManifestFile)
    requires c.Some?
    ensures var c' := Step(c, link, links, chatId, isPublic, botId, src, file).0;
            && c'.Some? && c'.value.dimension == c.value.dimension && c'.value.loaded == c.value.loaded
            && c.value.records <= c'.value.records
  {
  }

  /** A successful private step on a new addressable entry leaves its `(chat_id, cid)` in the collection. */
  lemma PrivateStepRecords(c: MetadataCollection, link: string, links: seq<Link>, chatId: string,
                           botId: string, src: Sources, file: ManifestFile)
    requires c.Some? && c.value.loaded && Addressable(links, file)
    requires Step(c, link, links, chatId, false, botId, src, file).1.Success?
    ensures MilvusService.CidExists(Step(c, link, links, chatId, false, botId, src, file).0, chatId, file.cid)
  {
    var c' := Step(c, link, links, chatId, false, botId, src, file).0;
    if !MilvusService.CidExists(c, chatId, file.cid) {
      var n := |c.value.records|;
      assert MilvusService.SameChatAndCid(chatId, file.cid, c'.value.records[n]);
    }
  }

  /**
   * Where every addressable entry already exists, a run changes nothing and reports no store.
   */
  lemma {:induction false} RunOverRecordedEntries(c: MetadataCollection, link: string, links: seq<Link>, chatId: string,
                                                  isPublic: bool, botId: string, src: Sources, files: seq<ManifestFile>)
    requires forall k :: 0 <= k < |files| && Addressable(links, files[k]) ==> MilvusService.CidExists(c, chatId, files[k].cid)
    ensures var (c', r) := Ingest(c, link, links, chatId, isPublic, botId, src, files);
            c' == c && r.Success? && forall k :: 0 <= k < |r.value| ==> !r.value[k].Stored?
  {
    if files != [] {
      var init := files[..|files| - 1];
      assert forall k :: 0 <= k < |init| ==> init[k] == files[k];
      RunOverRecordedEntries(c, link, links, chatId, isPublic, botId, src, init);
    }
  }

  /**
   * Private ingestion is idempotent: rerunning a finished run on the loaded collection it produced
   * leaves that collection unchanged and stores nothing.
   */
  lemma PrivateIngestionIdempotent(c: MetadataCollection, link: string, links: seq<Link>, chatId: string,
                                   botId: string, src: Sources, files: seq<ManifestFile>)
    requires c.Some? && c.value.loaded
    requires Ingest(c, link, links, chatId, false, botId, src, files).1.Success?
    ensures var c1 := Ingest(c, link, links, chatId, false, botId, src, files).0;
            var (c2, r2) := Ingest(c1, link, links, chatId, false, botId, src, files);
            c2 == c1 && r2.Success? && forall k :: 0 <= k < |r2.value| ==> !r2.value[k].Stored?
  {
    PrivateRunRecordsEveryEntry(c, link, links, chatId, botId, src, files);
    var c1 := Ingest(c, link, links, chatId, false, botId, src, files).0;
    RunOverRecordedEntries(c1, link, links, chatId, false, botId, src, files);
  }

  // ---------------------------------------------------------------------------
  // processEmbeddings
  // ---------------------------------------------------------------------------

  /** A scraped page: its URL and its text. */
  datatype Page = Page(url: string, text: string)

  const DefaultChatId := "default"

  type DocumentCollection = Option<MilvusService.Collection<MilvusService.DocumentFields>>

  /** Storing one page as a public document of chat "default" titled with its URL. */
  function StorePage(c: DocumentCollection, page: Page, botId: string,
                     embed: string -> Option<Vector>, rank: MilvusService.Ranker<MilvusService.DocumentFields>)
    : (DocumentCollection, Result<(), IngestError>)
  {
    match embed(page.text)
    case None => (c, Failure(EmbeddingFailed))
    case Some(embedding) =>
      var rec := MilvusService.Record(DefaultChatId, MilvusService.DocumentFields(page.url, page.text), embedding, true, botId);
      var (c1, stored) := MilvusService.GatedInsert(c, rec, rank, MilvusService.DocumentStoreError);
      if stored.Failure? then (c1, Failure(StoreFailed(stored.error))) else (c1, Success(()))
  }

  /** Storing the pages in order; the first failure ends the run. */
  function StorePages(c: DocumentCollection, pages: seq<Page>, botId: string,
                      embed: string -> Option<Vector>, rank: MilvusService.Ranker<MilvusService.DocumentFields>)
    : (DocumentCollection, Result<(), IngestError>)
  {
    if pages == [] then (c, Success(()))
    else
      var (c0, r0) := StorePages(c, pages[..|pages| - 1], botId, embed, rank);
      if r0.Failure? then (c0, r0) else StorePage(c0, pages[|pages| - 1], botId, embed, rank)
  }

  /** `processEmbeddings`, over the pages the scraper returned (`None` when scraping failed). */
  method ProcessEmbeddings(pageList: Option<seq<Page>>, botId: string, embed: string -> Option<Vector>,
                           rank: MilvusService.Ranker<MilvusService.DocumentFields>, store: MilvusService.MilvusStore)
    returns (r: Result<(), IngestError>)
    requires store.Valid()
    modifies store
    ensures store.Valid() && store.metadata == old(store.metadata)
    ensures pageList.None? ==> r == Failure(RequestFailed) && store.documents == old(store.documents)
    ensures pageList.Some? ==> (store.documents, r) == StorePages(old(store.documents), pageList.value, botId, embed, rank)
  {
    if pageList.None? {
      return Failure(RequestFailed);
    }
    var pages := pageList.value;
    for i := 0 to |pages|
      invariant store.Valid() && store.metadata == old(store.metadata)
      invariant StorePages(old(store.documents), pages[..i], botId, embed, rank) == (store.documents, Success(()))
    {
      StorePagesSnoc(old(store.documents), pages, botId, embed, rank, i, store.documents);
      var stored := EmbedPage(pages[i], botId, embed, rank, store);
      if stored.Failure? {
        StorePagesFailureSticks(old(store.documents), pages, botId, embed, rank, i + 1);
        assert pages[..|pages|] == pages;
        return stored;
      }
    }
    assert pages[..|pages|] == pages;
    r := Success(());
  }

  /** Storing one more page after a successful run is that page's step. */
  lemma StorePagesSnoc(c: DocumentCollection, pages: seq<Page>, botId: string, embed: string -> Option<Vector>,
                       rank: MilvusService.Ranker<MilvusService.DocumentFields>, i: nat, c0: DocumentCollection)
    requires i < |pages|
    requires StorePages(c, pages[..i], botId, embed, rank) == (c0, Success(()))
    ensures StorePages(c, pages[..i + 1], botId, embed, rank) == StorePage(c0, pages[i], botId, embed, rank)
  {
    assert pages[..i + 1][..i] == pages[..i];
  }

  /** The body of the page loop of `processEmbeddings`: embed the page's text and store it. */
  method EmbedPage(page: Page, botId: string, embed: string -> Option<Vector>,
                   rank: MilvusService.Ranker<MilvusService.DocumentFields>, store: MilvusService.MilvusStore)
    returns (r: Result<(), IngestError>)
    requires store.Valid()
    modifies store
    ensures store.Valid() && store.metadata == old(store.metadata)
    ensures (store.documents, r) == StorePage(old(store.documents), page, botId, embed, rank)
  {
    var embedding := embed(page.text);
    if embedding.None? {
      return Failure(EmbeddingFailed);
    }
    var stored := store.StoreEmbeddingInMilvus(DefaultChatId, page.url, page.text, embedding.value, true, botId, rank);
    if stored.Failure? {
      return Failure(StoreFailed(stored.error));
    }
    r := Success(());
  }

  /** A failed page stops the run: the pages after it change neither the collection nor the outcome. */
  lemma {:induction false} StorePagesFailureSticks(c: DocumentCollection, pages: seq<Page>, botId: string,
                                                   embed: string -> Option<Vector>, rank: MilvusService.Ranker<MilvusService.DocumentFields>, j: nat)
    requires j <= |pages|
    requires StorePages(c, pages[..j], botId, embed, rank).1.Failure?
    ensures StorePages(c, pages, botId, embed, rank) == StorePages(c, pages[..j], botId, embed, rank)
    decreases |pages|
  {
    if j < |pages| {
      var init := pages[..|pages| - 1];
      assert init[..j] == pages[..j];
      StorePagesFailureSticks(c, init, botId, embed, rank, j);
    } else {
      assert pages[..j] == pages;
    }
  }

  /**
   * Every row `processEmbeddings` adds is a public row of chat "default" and the given bot whose
   * title is the URL of a scraped page and whose content is that page's text.
   */
  lemma {:induction false} StoredPagesArePublicDefault(c: DocumentCollection, pages: seq<Page>, botId: string,
                                                       embed: string -> Option<Vector>, rank: MilvusService.Ranker<MilvusService.DocumentFields>)
    requires c.Some?
    ensures var c' := StorePages(c, pages, botId, embed, rank).0;
            && c'.Some? && c.value.records <= c'.value.records
            && forall k :: |c.value.records| <= k < |c'.value.records| ==>
                 var rec := c'.value.records[k];
                 && rec.chatId == DefaultChatId && rec.isPublic && rec.botId == botId
                 && exists j :: 0 <= j < |pages| && rec.fields == MilvusService.DocumentFields(pages[j].url, pages[j].text)
  {
    if pages != [] {
      var init := pages[..|pages| - 1];
      StoredPagesArePublicDefault(c, init, botId, embed, rank);
      var c0 := StorePages(c, init, botId, embed, rank).0;
      var c1 := StorePages(c, pages, botId, embed, rank).0;
      forall k | |c.value.records| <= k < |c1.value.records|
        ensures var rec := c1.value.records[k];
                && rec.chatId == DefaultChatId && rec.isPublic && rec.botId == botId
                && exists j :: 0 <= j < |pages| && rec.fields == MilvusService.DocumentFields(pages[j].url, pages[j].text)
      {
        if k < |c0.value.records| {
          var rec := c0.value.records[k];
          assert c1.value.records[k] == rec;
          var j :| 0 <= j < |init| && rec.fields == MilvusService.DocumentFields(init[j].url, init[j].text);
          assert pages[j] == init[j];
        } else {
          assert c1.value.records[k].fields == MilvusService.DocumentFields(pages[|pages| - 1].url, pages[|pages| - 1].text);
        }
      }
    }
  }
}
