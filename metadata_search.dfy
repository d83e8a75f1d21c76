/**
 * `retrieveMetaData` (src/controllers/embeddingControllers.ts): the metadata search, its
 * similarity threshold, the first-occurrence dedup by cid and the outlier filter.
 */
module MetadataSearch {
  import opened Wrappers
  import opened Vectors
  import opened RequestFields
  import Seqs
  import ModelConfig
  import OutlierFilter
  import MilvusService

  const InternalError := "Internal server error."

  // ---------------------------------------------------------------------------
  // retrieveMetaData
  // ---------------------------------------------------------------------------

  datatype MetadataQuery = MetadataQuery(query: Option<string>, chatId: Option<string>, botId: Option<string>)

  /** One element of the response's `results`. */
  datatype MetaResult = MetaResult(cid: string, url: string, similarity: real, description: string)

  datatype MetaReply = MetaError(status: nat, error: string) | TopMetadata(message: string, results: seq<MetaResult>)

  const QueryRequired := "query and chat_id are required."

  const TopMessage := "Top N similar metadata"

  const SearchLimit := 10

  type MetaHit = MilvusService.Hit<MilvusService.MetadataFields>

  function AsResult(h: MetaHit): MetaResult
  {
    MetaResult(h.record.fields.cid, h.record.fields.url, h.score, h.record.fields.description)
  }

  function Similarity(r: MetaResult): real
  {
    r.similarity
  }

  function ScoresAtLeast(threshold: real): MetaHit -> bool
  {
    (h: MetaHit) => h.score >= threshold
  }

  /** The search results scoring at least `threshold`, as response entries, in search order. */
  function AboveThreshold(hits: seq<MetaHit>, threshold: real): (r: seq<MetaResult>)
    ensures |r| <= |hits|
  {
    if hits == [] then []
    else
      var last := hits[|hits| - 1];
      AboveThreshold(hits[..|hits| - 1], threshold) + (if last.score >= threshold then [AsResult(last)] else [])
  }

  /** The threshold loop of `retrieveMetaData`. */
  method CollectResults(hits: seq<MetaHit>, threshold: real) returns (results: seq<MetaResult>)
    ensures results == AboveThreshold(hits, threshold)
  {
    results := [];
    for i := 0 to |hits|
      invariant results == AboveThreshold(hits[..i], threshold)
    {
      assert hits[..i + 1][..i] == hits[..i];
      var similarity := hits[i].score;
      if similarity >= threshold {
        var fields := hits[i].record.fields;
        results := results + [MetaResult(fields.cid, fields.url, hits[i].score, fields.description)];
      }
    }
    assert hits[..|hits|] == hits;
  }

  /** The collected entries are exactly the results at or above the threshold, in search order. */
  lemma {:induction false} AboveThresholdIsFilter(hits: seq<MetaHit>, threshold: real)
    ensures |AboveThreshold(hits, threshold)| == |Seqs.Filter(hits, ScoresAtLeast(threshold))|
    ensures forall k :: 0 <= k < |AboveThreshold(hits, threshold)| ==>
              AboveThreshold(hits, threshold)[k] == AsResult(Seqs.Filter(hits, ScoresAtLeast(threshold))[k])
  {
    if hits != [] {
      var init, last := hits[..|hits| - 1], hits[|hits| - 1];
      AboveThresholdIsFilter(init, threshold);
      assert hits == init + [last];
      Seqs.FilterAppend(init, [last], ScoresAtLeast(threshold));
      assert Seqs.Filter([last], ScoresAtLeast(threshold)) == if last.score >= threshold then [last] else [] by {
        assert [last][1..] == [];
      }
    }
  }

  /** Every collected similarity meets the threshold. */
  lemma {:induction false} AboveThresholdMeets(hits: seq<MetaHit>, threshold: real)
    ensures forall k :: 0 <= k < |AboveThreshold(hits, threshold)| ==> AboveThreshold(hits, threshold)[k].similarity >= threshold
  {
    if hits != [] {
      AboveThresholdMeets(hits[..|hits| - 1], threshold);
    }
  }

  function SameCid(cid: string): MetaResult -> bool
  {
    (t: MetaResult) => t.cid == cid
  }

  /** No earlier entry has the cid of the entry at `k`. */
  predicate FirstOfCid(xs: seq<MetaResult>, k: nat)
    requires k < |xs|
  {
    forall j :: 0 <= j < k ==> xs[j].cid != xs[k].cid
  }

  /** The test is the code's `index === self.findIndex(t => t.cid === item.cid)`. */
  lemma FirstOfCidIsFindIndex(xs: seq<MetaResult>, k: nat)
    requires k < |xs|
    ensures FirstOfCid(xs, k) <==> Seqs.FindIndex(xs, SameCid(xs[k].cid)) == Some(k)
  {
    assert SameCid(xs[k].cid)(xs[k]);
  }

  /** The filter over the first `n` indices, keeping an entry when its index is the first with its cid. */
  function KeepFirsts(xs: seq<MetaResult>, n: nat): (r: seq<MetaResult>)
    requires n <= |xs|
    ensures |r| <= n
  {
    if n == 0 then []
    else KeepFirsts(xs, n - 1) + (if FirstOfCid(xs, n - 1) then [xs[n - 1]] else [])
  }

  /** The kept entries among the first `n` appear in the input's order. */
  lemma {:induction false} KeepFirstsInOrder(xs: seq<MetaResult>, n: nat)
    requires n <= |xs|
    ensures Seqs.IsSubsequence(KeepFirsts(xs, n), xs[..n])
  {
    if n > 0 {
      KeepFirstsInOrder(xs, n - 1);
      assert xs[..n] == xs[..n - 1] + [xs[n - 1]];
      if FirstOfCid(xs, n - 1) {
        Seqs.SubsequenceSnoc(KeepFirsts(xs, n - 1), xs[..n - 1], xs[n - 1]);
      } else {
        assert KeepFirsts(xs, n) == KeepFirsts(xs, n - 1);
        Seqs.SubsequenceExtend(KeepFirsts(xs, n - 1), xs[..n - 1], xs[n - 1]);
      }
    }
  }

  /** `uniqueResults`. */
  function UniqueByCid(xs: seq<MetaResult>): seq<MetaResult>
  {
    KeepFirsts(xs, |xs|)
  }

  ghost predicate DistinctCids(xs: seq<MetaResult>)
  {
    forall i, j :: 0 <= i < j < |xs| ==> xs[i].cid != xs[j].cid
  }

  /** `e` is the entry at some index below `n` that is the first of its cid. */
  ghost predicate FirstOccurrenceBelow(xs: seq<MetaResult>, n: nat, e: MetaResult)
    requires n <= |xs|
  {
    exists k :: 0 <= k < n && FirstOfCid(xs, k) && e == xs[k]
  }

  /** The kept entries are first occurrences among the first `n`. */
  lemma {:induction false} KeepFirstsElements(xs: seq<MetaResult>, n: nat)
    requires n <= |xs|
    ensures forall i :: 0 <= i < |KeepFirsts(xs, n)| ==> FirstOccurrenceBelow(xs, n, KeepFirsts(xs, n)[i])
  {
    if n > 0 {
      KeepFirstsElements(xs, n - 1);
      var prev := KeepFirsts(xs, n - 1);
      var r := KeepFirsts(xs, n);
      forall i | 0 <= i < |r|
        ensures FirstOccurrenceBelow(xs, n, r[i])
      {
        if i < |prev| {
          assert r[i] == prev[i];
          assert FirstOccurrenceBelow(xs, n - 1, prev[i]);
          var k :| 0 <= k < n - 1 && FirstOfCid(xs, k) && prev[i] == xs[k];
          assert 0 <= k < n && FirstOfCid(xs, k) && r[i] == xs[k];
        } else {
          assert r[i] == xs[n - 1] && FirstOfCid(xs, n - 1);
        }
      }
    }
  }

  /** Every first occurrence among the first `n` is kept. */
  lemma {:induction false} KeepFirstsComplete(xs: seq<MetaResult>, n: nat, k: nat)
    requires k < n <= |xs| && FirstOfCid(xs, k)
    ensures xs[k] in KeepFirsts(xs, n)
  {
    if k < n - 1 {
      KeepFirstsComplete(xs, n - 1, k);
    } else {
      assert KeepFirsts(xs, n) == KeepFirsts(xs, n - 1) + [xs[k]];
    }
  }

  /** No two kept entries share a cid. */
  lemma {:induction false} KeepFirstsDistinct(xs: seq<MetaResult>, n: nat)
    requires n <= |xs|
    ensures DistinctCids(KeepFirsts(xs, n))
  {
    if n > 0 {
      KeepFirstsDistinct(xs, n - 1);
      var prev := KeepFirsts(xs, n - 1);
      if FirstOfCid(xs, n - 1) {
        assert KeepFirsts(xs, n) == prev + [xs[n - 1]];
        KeptDifferFromFirst(xs, n - 1);
        SnocDistinct(prev, xs[n - 1]);
      }
    }
  }

  /** The entries kept from below a first occurrence have cids other than its cid. */
  lemma KeptDifferFromFirst(xs: seq<MetaResult>, n: nat)
    requires n < |xs| && FirstOfCid(xs, n)
    ensures forall i :: 0 <= i < |KeepFirsts(xs, n)| ==> KeepFirsts(xs, n)[i].cid != xs[n].cid
  {
    var prev := KeepFirsts(xs, n);
    KeepFirstsElements(xs, n);
    forall i | 0 <= i < |prev|
      ensures prev[i].cid != xs[n].cid
    {
      assert FirstOccurrenceBelow(xs, n, prev[i]);
      var k :| 0 <= k < n && FirstOfCid(xs, k) && prev[i] == xs[k];
    }
  }

  /** An entry whose cid the others do not have can go after distinct entries. */
  lemma SnocDistinct(prev: seq<MetaResult>, x: MetaResult)
    requires DistinctCids(prev)
    requires forall i :: 0 <= i < |prev| ==> prev[i].cid != x.cid
    ensures DistinctCids(prev + [x])
  {
    var r := prev + [x];
    forall i, j | 0 <= i < j < |r|
      ensures r[i].cid != r[j].cid
    {
      assert r[i] == prev[i];
      if j < |prev| {
        assert r[j] == prev[j];
      }
    }
  }

  /** Every entry shares its cid with an entry at or before it that is the first of that cid. */
  lemma {:induction false} FirstOfItsCid(xs: seq<MetaResult>, k: nat) returns (m: nat)
    requires k < |xs|
    ensures m <= k && FirstOfCid(xs, m) && xs[m].cid == xs[k].cid
    decreases k
  {
    if FirstOfCid(xs, k) {
      m := k;
    } else {
      var j :| 0 <= j < k && xs[j].cid == xs[k].cid;
      m := FirstOfItsCid(xs, j);
    }
  }

  /**
   * `uniqueResults` keeps, in order, the first entry of each cid: its cids are pairwise distinct,
   * each kept entry is an entry of the input that no earlier entry shares a cid with, and every cid
   * of the input is kept.
   */
  lemma UniqueByCidSpec(xs: seq<MetaResult>)
    ensures Seqs.IsSubsequence(UniqueByCid(xs), xs)
    ensures DistinctCids(UniqueByCid(xs))
    ensures forall i :: 0 <= i < |UniqueByCid(xs)| ==>
              exists k :: 0 <= k < |xs| && UniqueByCid(xs)[i] == xs[k] && forall j :: 0 <= j < k ==> xs[j].cid != xs[k].cid
    ensures forall k :: 0 <= k < |xs| ==> exists i :: 0 <= i < |UniqueByCid(xs)| && UniqueByCid(xs)[i].cid == xs[k].cid
  {
    KeepFirstsInOrder(xs, |xs|);
    assert xs[..|xs|] == xs;
    KeepFirstsDistinct(xs, |xs|);
    UniqueByCidKeepsFirsts(xs);
    UniqueByCidKeepsEveryCid(xs);
  }

  /** Each kept entry is an input entry that no earlier entry shares a cid with. */
  lemma UniqueByCidKeepsFirsts(xs: seq<MetaResult>)
    ensures forall i :: 0 <= i < |UniqueByCid(xs)| ==>
              exists k :: 0 <= k < |xs| && UniqueByCid(xs)[i] == xs[k] && forall j :: 0 <= j < k ==> xs[j].cid != xs[k].cid
  {
    var u := UniqueByCid(xs);
    KeepFirstsElements(xs, |xs|);
    forall i | 0 <= i < |u|
      ensures exists k :: 0 <= k < |xs| && u[i] == xs[k] && forall j :: 0 <= j < k ==> xs[j].cid != xs[k].cid
    {
      assert FirstOccurrenceBelow(xs, |xs|, u[i]);
      var k :| 0 <= k < |xs| && FirstOfCid(xs, k) && u[i] == xs[k];
    }
  }

  /** Every cid of the input survives. */
  lemma UniqueByCidKeepsEveryCid(xs: seq<MetaResult>)
    ensures forall k :: 0 <= k < |xs| ==> exists i :: 0 <= i < |UniqueByCid(xs)| && UniqueByCid(xs)[i].cid == xs[k].cid
  {
    var u := UniqueByCid(xs);
    forall k | 0 <= k < |xs|
      ensures exists i :: 0 <= i < |u| && u[i].cid == xs[k].cid
    {
      var m := FirstOfItsCid(xs, k);
      KeepFirstsComplete(xs, |xs|, m);
      assert xs[m] in u;
      var i :| 0 <= i < |u| && u[i] == xs[m];
      assert u[i].cid == xs[k].cid;
    }
  }

  /** Filtering keeps cids distinct. */
  lemma {:induction false} FilterKeepsDistinct(s: seq<MetaResult>, p: MetaResult -> bool)
    requires DistinctCids(s)
    ensures DistinctCids(Seqs.Filter(s, p))
  {
    if |s| > 0 {
      var tail := s[1..];
      FilterKeepsDistinct(tail, p);
      var rest := Seqs.Filter(tail, p);
      if p(s[0]) {
        forall j | 0 <= j < |rest|
          ensures rest[j].cid != s[0].cid
        {
          assert rest[j] in tail;
          var m :| 0 <= m < |tail| && tail[m] == rest[j];
          assert s[m + 1] == rest[j];
        }
        ConsDistinct(s[0], rest);
      }
    }
  }

  /** An entry whose cid the rest does not have can go in front of distinct entries. */
  lemma ConsDistinct(x: MetaResult, rest: seq<MetaResult>)
    requires DistinctCids(rest)
    requires forall j :: 0 <= j < |rest| ==> rest[j].cid != x.cid
    ensures DistinctCids([x] + rest)
  {
    var r := [x] + rest;
    forall i, j | 0 <= i < j < |r|
      ensures r[i].cid != r[j].cid
    {
      assert r[j] == rest[j - 1];
      if i > 0 {
        assert r[i] == rest[i - 1];
      }
    }
  }

  /** What follows the threshold: first-occurrence dedup, then the outlier filter. */
  function Refine(results: seq<MetaResult>): seq<MetaResult>
  {
    OutlierFilter.FilterOutliers(UniqueByCid(results), Similarity)
  }

  /** `retrieveMetaData` on the metadata collection. */
  function Retrieval(req: MetadataQuery, service: string, embed: string -> Option<Vector>,
                     rank: MilvusService.Ranker<MilvusService.MetadataFields>,
                     metadata: Option<MilvusService.Collection<MilvusService.MetadataFields>>): MetaReply
  {
    if !Truthy(req.query) || !Truthy(req.chatId) then MetaError(400, QueryRequired)
    else match embed(req.query.value)
      case None => MetaError(500, InternalError)
      case Some(queryEmbedding) =>
        var search := MilvusService.SearchIn(metadata, MilvusService.VisibleTo(req.chatId.value, Interpolate(req.botId)),
                                             queryEmbedding, SearchLimit, rank);
        if search.Failure? then MetaError(500, InternalError)
        else match ModelConfig.EmbeddingConfigFor(service)
          case None => MetaError(500, InternalError)
          case Some(cfg) => TopMetadata(TopMessage, Refine(AboveThreshold(search.value, cfg.metadataSimilarityThreshold)))
  }

  /** `retrieveMetaData`. */
  method RetrieveMetaData(req: MetadataQuery, service: string, embed: string -> Option<Vector>,
                          rank: MilvusService.Ranker<MilvusService.MetadataFields>, store: MilvusService.MilvusStore)
    returns (reply: MetaReply)
    ensures reply == Retrieval(req, service, embed, rank, store.metadata)
  {
    if !Truthy(req.query) || !Truthy(req.chatId) {
      return MetaError(400, QueryRequired);
    }
    var queryEmbedding := embed(req.query.value);
    if queryEmbedding.None? {
      return MetaError(500, InternalError);
    }
    var searchResults := MilvusService.SearchIn(store.metadata, MilvusService.VisibleTo(req.chatId.value, Interpolate(req.botId)),
                                                queryEmbedding.value, SearchLimit, rank);
    if searchResults.Failure? {
      return MetaError(500, InternalError);
    }
    var cfg := ModelConfig.EmbeddingConfigFor(service);
    if cfg.None? {
      return MetaError(500, InternalError);
    }
    var results := CollectResults(searchResults.value, cfg.value.metadataSimilarityThreshold);
    var uniqueResults := UniqueByCid(results);
    var filteredResults := OutlierFilter.FilterOutliers(uniqueResults, Similarity);
    reply := TopMetadata(TopMessage, filteredResults);
  }

  /** Everything the outlier filter returns is one of its inputs. */
  lemma OutliersAmongInputs(xs: seq<MetaResult>)
    ensures forall k :: 0 <= k < |OutlierFilter.FilterOutliers(xs, Similarity)| ==> OutlierFilter.FilterOutliers(xs, Similarity)[k] in xs
  {
  }

  /**
   * Dedup then outlier filtering keeps only entries of the input, no two with the same cid, and
   * never more entries than it was given.
   */
  lemma RefineKeeps(xs: seq<MetaResult>, threshold: real)
    requires forall k :: 0 <= k < |xs| ==> xs[k].similarity >= threshold
    ensures |Refine(xs)| <= |xs| && DistinctCids(Refine(xs))
    ensures forall k :: 0 <= k < |Refine(xs)| ==> Refine(xs)[k].similarity >= threshold
  {
    var unique := UniqueByCid(xs);
    var results := Refine(xs);
    KeepFirstsDistinct(xs, |xs|);
    UniqueByCidKeepsFirsts(xs);
    if |unique| >= 2 {
      FilterKeepsDistinct(unique, OutlierFilter.KeepTest(unique, Similarity));
    }
    OutliersAmongInputs(unique);
    forall k | 0 <= k < |results|
      ensures results[k].similarity >= threshold
    {
      var i :| 0 <= i < |unique| && unique[i] == results[k];
      var m :| 0 <= m < |xs| && unique[i] == xs[m] && forall j :: 0 <= j < m ==> xs[j].cid != xs[m].cid;
    }
  }

  /**
   * A successful retrieval returns at most ten entries, each scoring at least the service's
   * metadata threshold, no two with the same cid.
   */
  lemma RetrievedMetadata(req: MetadataQuery, service: string, embed: string -> Option<Vector>,
                          rank: MilvusService.Ranker<MilvusService.MetadataFields>,
                          metadata: Option<MilvusService.Collection<MilvusService.MetadataFields>>)
    requires Retrieval(req, service, embed, rank, metadata).TopMetadata?
    ensures var results := Retrieval(req, service, embed, rank, metadata).results;
            && |results| <= SearchLimit
            && DistinctCids(results)
            && forall k :: 0 <= k < |results| ==>
                 results[k].similarity >= ModelConfig.EmbeddingConfigFor(service).value.metadataSimilarityThreshold
  {
    var queryEmbedding := embed(req.query.value).value;
    var hits := MilvusService.SearchIn(metadata, MilvusService.VisibleTo(req.chatId.value, Interpolate(req.botId)),
                                       queryEmbedding, SearchLimit, rank).value;
    var threshold := ModelConfig.EmbeddingConfigFor(service).value.metadataSimilarityThreshold;
    var above := AboveThreshold(hits, threshold);
    assert Refine(above) == Retrieval(req, service, embed, rank, metadata).results;
    AboveThresholdMeets(hits, threshold);
    RefineKeeps(above, threshold);
  }

  /** Two entries with the same cid come back as the first of them. */
  lemma DedupExample()
    ensures UniqueByCid([MetaResult("a", "u1", 0.9, "x"), MetaResult("b", "u2", 0.8, "y"), MetaResult("a", "u3", 0.7, "z")])
            == [MetaResult("a", "u1", 0.9, "x"), MetaResult("b", "u2", 0.8, "y")]
  {
    var xs := [MetaResult("a", "u1", 0.9, "x"), MetaResult("b", "u2", 0.8, "y"), MetaResult("a", "u3", 0.7, "z")];
    assert KeepFirsts(xs, 1) == [xs[0]];
    assert KeepFirsts(xs, 2) == [xs[0], xs[1]];
    assert !FirstOfCid(xs, 2) by {
      assert xs[0].cid == xs[2].cid;
    }
  }

}
