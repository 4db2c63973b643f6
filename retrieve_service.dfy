/**
 * The retrieval services: lexical (BM25) retrieval, vector retrieval, and the
 * hybrid orchestration that runs both, fuses them and optionally reranks.
 *
 * The search repositories, the embedding model and the rerank provider are
 * parameters. Each service returns its outcome together with the collaborator
 * calls it made, in order, so that "no call" and "one after the other" can be
 * stated. A collaborator that throws is an `Err`; the service passes it on.
 */
module RetrieveService {
  import opened Wrappers
  import opened JsString
  import opened Documents
  import opened MongoFilters
  import Fusion
  import Reranker

  const DefaultK: int := 10

  /** The message of the TypeError thrown by `undefined.map(...)`. */
  const ReadMapOfUndefined: string := "Cannot read properties of undefined (reading 'map')"

  type Embedding = seq<real>

  /** The collaborators the services call. */
  datatype Collaborators = Collaborators(
    searchText: (string, int, Match) -> Result<seq<RepoRow>, Failure>,
    embed: string -> Result<Embedding, Failure>,
    searchVector: (Embedding, int, Match) -> Result<seq<RepoRow>, Failure>,
    rerank: Reranker.Payload -> Option<seq<Reranker.ScoreEntry>>)

  /** One collaborator call. */
  datatype Call =
    | TextSearch(query: string, k: int, filter: Match)
    | EmbedQuery(text: string)
    | VectorSearch(vector: Embedding, k: int, filter: Match)
    | RerankRequest(payload: Reranker.Payload)

  /** A service's outcome and the calls it made, in order. */
  datatype Traced<T> = Traced(result: Result<T, Failure>, calls: seq<Call>)

  /** A row of the hybrid response. */
  datatype Answer = Answer(
    id: Id,
    text: Option<string>,
    title: Option<string>,
    tags: Option<seq<string>>,
    fusedScore: real,
    rank: int,
    rerankScore: Option<real>,
    rerankRank: Option<int>,
    meta: Option<Meta>,
    createdAt: Option<string>)

  /** `!query || !query.trim()`. */
  predicate IsBlank(query: Option<string>) {
    !Truthy(query) || Trim(query.value) == ""
  }

  // ---------------------------------------------------------------------------
  // Per-source retrieval.
  // ---------------------------------------------------------------------------

  /** The BM25 rows as hits: rank is the position plus one, a missing score is 0, the rest is copied. */
  function Bm25Hits(rows: seq<RepoRow>): (hits: seq<Hit>)
    ensures |hits| == |rows|
    ensures forall i :: 0 <= i < |rows| ==>
      && hits[i].rank == Some(i + 1)
      && hits[i].bm25Score == Some(rows[i].score.GetOr(0.0))
      && hits[i].vectorScore == None
      && hits[i].id == rows[i].id && hits[i].text == rows[i].text
      && hits[i].title == rows[i].title && hits[i].tags == rows[i].tags
      && hits[i].meta == rows[i].meta && hits[i].createdAt == rows[i].createdAt
  {
    seq(|rows|, i requires 0 <= i < |rows| =>
      var r := rows[i];
      Hit(r.id, r.text, r.title, r.tags, Some(i + 1), Some(r.score.GetOr(0.0)), None, r.meta, r.createdAt))
  }

  /** The vector rows as hits, the same mapping with the score in `vectorScore`. */
  function VectorHits(rows: seq<RepoRow>): (hits: seq<Hit>)
    ensures |hits| == |rows|
    ensures forall i :: 0 <= i < |rows| ==>
      && hits[i].rank == Some(i + 1)
      && hits[i].vectorScore == Some(rows[i].score.GetOr(0.0))
      && hits[i].bm25Score == None
      && hits[i].id == rows[i].id && hits[i].text == rows[i].text
      && hits[i].title == rows[i].title && hits[i].tags == rows[i].tags
      && hits[i].meta == rows[i].meta && hits[i].createdAt == rows[i].createdAt
  {
    seq(|rows|, i requires 0 <= i < |rows| =>
      var r := rows[i];
      Hit(r.id, r.text, r.title, r.tags, Some(i + 1), None, Some(r.score.GetOr(0.0)), r.meta, r.createdAt))
  }

  /** `retrieveBM25Service(query, k, filters)`. */
  function RetrieveBM25(query: Option<string>, k: Option<int>, filters: Filters, c: Collaborators): (t: Traced<seq<Hit>>)
    ensures IsBlank(query) ==> t == Traced(Ok([]), [])
    ensures !IsBlank(query) ==> t.calls == [TextSearch(query.value, k.GetOr(DefaultK), MongoMatch(filters))]
    ensures !IsBlank(query) ==>
      match c.searchText(query.value, k.GetOr(DefaultK), MongoMatch(filters))
      case Ok(rows) => t.result == Ok(Bm25Hits(rows))
      case Err(e) => t.result == Err(e)
  {
    if IsBlank(query) then Traced(Ok([]), [])
    else
      var filter := MongoMatch(filters);
      var k' := k.GetOr(DefaultK);
      var calls := [TextSearch(query.value, k', filter)];
      match c.searchText(query.value, k', filter)
      case Err(e) => Traced(Err(e), calls)
      case Ok(rows) => Traced(Ok(Bm25Hits(rows)), calls)
  }

  /** `retrieveVectorService(query, k, filters)`: embed the query, then search by the embedding. */
  function RetrieveVector(query: Option<string>, k: Option<int>, filters: Filters, c: Collaborators): (t: Traced<seq<Hit>>)
    ensures IsBlank(query) ==> t == Traced(Ok([]), [])
    ensures !IsBlank(query) ==> |t.calls| >= 1 && t.calls[0] == EmbedQuery(query.value)
    ensures !IsBlank(query) && c.embed(query.value).Err? ==>
      t == Traced(Err(c.embed(query.value).error), [EmbedQuery(query.value)])
    ensures !IsBlank(query) && c.embed(query.value).Ok? ==>
      var v := c.embed(query.value).value;
      && t.calls == [EmbedQuery(query.value), VectorSearch(v, k.GetOr(DefaultK), MongoMatch(filters))]
      && match c.searchVector(v, k.GetOr(DefaultK), MongoMatch(filters))
         case Ok(rows) => t.result == Ok(VectorHits(rows))
         case Err(e) => t.result == Err(e)
  {
    if IsBlank(query) then Traced(Ok([]), [])
    else
      var filter := MongoMatch(filters);
      var k' := k.GetOr(DefaultK);
      match c.embed(query.value)
      case Err(e) => Traced(Err(e), [EmbedQuery(query.value)])
      case Ok(v) =>
        var calls := [EmbedQuery(query.value), VectorSearch(v, k', filter)];
        match c.searchVector(v, k', filter)
        case Err(e) => Traced(Err(e), calls)
        case Ok(rows) => Traced(Ok(VectorHits(rows)), calls)
  }

  // ---------------------------------------------------------------------------
  // Hybrid orchestration.
  // ---------------------------------------------------------------------------

  /** The plain hybrid response: the fused rows numbered 1..n. */
  function FusedAnswers(fused: seq<Candidate>): (a: seq<Answer>)
    ensures |a| == |fused|
    ensures forall i :: 0 <= i < |fused| ==>
      && a[i].rank == i + 1
      && a[i].id == fused[i].id && a[i].text == fused[i].text
      && a[i].title == fused[i].title && a[i].tags == fused[i].tags
      && a[i].fusedScore == fused[i].fusedScore
      && a[i].rerankScore == None && a[i].rerankRank == None
      && a[i].meta == None && a[i].createdAt == None
  {
    seq(|fused|, i requires 0 <= i < |fused| =>
      var r := fused[i];
      // a fused row has no `meta` or `createdAt`, so both read as undefined
      Answer(r.id, r.text, r.title, r.tags, r.fusedScore, i + 1, None, None, None, None))
  }

  /** The reranked hybrid response: numbered 1..n, rerank fields defaulting to 0. */
  function RerankedAnswers(reranked: seq<Candidate>): (a: seq<Answer>)
    ensures |a| == |reranked|
    ensures forall i :: 0 <= i < |reranked| ==>
      && a[i].rank == i + 1
      && a[i].id == reranked[i].id && a[i].text == reranked[i].text
      && a[i].title == reranked[i].title && a[i].tags == reranked[i].tags
      && a[i].fusedScore == reranked[i].fusedScore
      && a[i].rerankScore == Some(reranked[i].rerankScore.GetOr(0.0))
      && a[i].rerankRank == Some(reranked[i].rerankRank.GetOr(0))
      && a[i].meta == None && a[i].createdAt == None
  {
    seq(|reranked|, i requires 0 <= i < |reranked| =>
      var r := reranked[i];
      Answer(r.id, r.text, r.title, r.tags, r.fusedScore, i + 1,
             Some(r.rerankScore.GetOr(0.0)), Some(r.rerankRank.GetOr(0)), None, None))
  }

  function RerankOptionsOf(filters: Filters, k: int): Reranker.RerankOptions {
    Reranker.RerankOptions(filters.model, filters.preRerankK, Some(k), filters.maxDocChars)
  }

  function FusionOf(filters: Filters): string {
    if Truthy(filters.fusion) then filters.fusion.value else "rrf"
  }

  /** The rerank step as written: it reads `.reranked` of whatever `voyageRerank` returned. */
  function RerankStep(query: string, fused: seq<Candidate>, k: int, filters: Filters, c: Collaborators, calls: seq<Call>)
    : Traced<seq<Answer>>
  {
    var opts := RerankOptionsOf(filters, k);
    var request := Reranker.RerankRequest(query, fused, opts);
    var calls' := calls + (if request.Some? then [RerankRequest(request.value)] else []);
    match Reranker.VoyageRerank(query, fused, opts, c.rerank)
    case Unranked(_) => Traced(Err(TypeError(ReadMapOfUndefined)), calls')
    case Reranked(list, _) => Traced(Ok(RerankedAnswers(list)), calls')
  }

  /** The rerank step with the early return read as the reranked list. */
  function RerankStepCorrected(query: string, fused: seq<Candidate>, k: int, filters: Filters, c: Collaborators, calls: seq<Call>)
    : Traced<seq<Answer>>
  {
    var opts := RerankOptionsOf(filters, k);
    var request := Reranker.RerankRequest(query, fused, opts);
    var calls' := calls + (if request.Some? then [RerankRequest(request.value)] else []);
    match Reranker.VoyageRerank(query, fused, opts, c.rerank)
    case Unranked(list) => Traced(Ok(RerankedAnswers(list)), calls')
    case Reranked(list, _) => Traced(Ok(RerankedAnswers(list)), calls')
  }

  /** Both retrievals, one after the other, then fusion; the hybrid service up to the rerank decision. */
  function Retrieved(query: Option<string>, k: int, filters: Filters, c: Collaborators): Traced<seq<Candidate>>
    requires !IsBlank(query)
  {
    var bm25 := RetrieveBM25(query, Some(k), filters, c);
    if bm25.result.Err? then Traced(Err(bm25.result.error), bm25.calls)
    else
      var vector := RetrieveVector(query, Some(k), filters, c);
      var calls := bm25.calls + vector.calls;
      if vector.result.Err? then Traced(Err(vector.result.error), calls)
      else
        match Fusion.FuseResults(bm25.result.value, vector.result.value, Some(FusionOf(filters)), Some(k), None)
        case Err(e) => Traced(Err(e), calls)
        case Ok(fused) => Traced(Ok(fused), calls)
  }

  /** `hybridSearchService(query, k, filters)`. */
  function HybridSearch(query: Option<string>, k: Option<int>, filters: Filters, c: Collaborators): (t: Traced<seq<Answer>>)
    ensures IsBlank(query) ==> t == Traced(Ok([]), [])
  {
    if IsBlank(query) then Traced(Ok([]), [])
    else
      var k' := k.GetOr(DefaultK);
      var retrieved := Retrieved(query, k', filters, c);
      match retrieved.result
      case Err(e) => Traced(Err(e), retrieved.calls)
      case Ok(fused) =>
        if filters.rerank then RerankStep(query.value, fused, k', filters, c, retrieved.calls)
        else Traced(Ok(FusedAnswers(fused)), retrieved.calls)
  }

  /** The hybrid service with the rerank fallback's result read as the reranked list. */
  function HybridSearchCorrected(query: Option<string>, k: Option<int>, filters: Filters, c: Collaborators): (t: Traced<seq<Answer>>)
    ensures IsBlank(query) ==> t == Traced(Ok([]), [])
  {
    if IsBlank(query) then Traced(Ok([]), [])
    else
      var k' := k.GetOr(DefaultK);
      var retrieved := Retrieved(query, k', filters, c);
      match retrieved.result
      case Err(e) => Traced(Err(e), retrieved.calls)
      case Ok(fused) =>
        if filters.rerank then RerankStepCorrected(query.value, fused, k', filters, c, retrieved.calls)
        else Traced(Ok(FusedAnswers(fused)), retrieved.calls)
  }

  // ---------------------------------------------------------------------------
  // What the hybrid service does.
  // ---------------------------------------------------------------------------

  /**
   * The retrievals run one after the other: the lexical search is the first
   * call, a failing lexical search ends the request before the query is
   * embedded, and both searches receive the same `k` and the same predicate.
   */
  lemma RetrievedSequential(query: Option<string>, k: int, filters: Filters, c: Collaborators)
    requires !IsBlank(query)
    ensures var t := Retrieved(query, k, filters, c);
      var text := c.searchText(query.value, k, MongoMatch(filters));
      && |t.calls| >= 1
      && t.calls[0] == TextSearch(query.value, k, MongoMatch(filters))
      && (text.Err? ==> t == Traced(Err(text.error), [t.calls[0]]))
      && (text.Ok? ==> |t.calls| >= 2 && t.calls[1] == EmbedQuery(query.value))
      && (text.Ok? && c.embed(query.value).Ok? ==>
            |t.calls| == 3 && t.calls[2] == VectorSearch(c.embed(query.value).value, k, MongoMatch(filters)))
  {
    var bm25 := RetrieveBM25(query, Some(k), filters, c);
    var vector := RetrieveVector(query, Some(k), filters, c);
    var t := Retrieved(query, k, filters, c);
    if bm25.result.Ok? {
      assert t.calls == bm25.calls + vector.calls;
    }
  }

  /** The hybrid service makes the retrieval calls first, and a retrieval failure is its answer. */
  lemma HybridStartsWithRetrieval(query: Option<string>, k: Option<int>, filters: Filters, c: Collaborators)
    requires !IsBlank(query)
    ensures var r := Retrieved(query, k.GetOr(DefaultK), filters, c);
      var t := HybridSearch(query, k, filters, c);
      && |r.calls| <= |t.calls| && t.calls[..|r.calls|] == r.calls
      && (r.result.Err? ==> t == Traced(Err(r.result.error), r.calls))
  {
    var r := Retrieved(query, k.GetOr(DefaultK), filters, c);
    var t := HybridSearch(query, k, filters, c);
    if r.result.Ok? && t.calls != r.calls {
      assert t.calls[..|r.calls|] == r.calls;
    }
  }

  /** The same, stated of the whole hybrid service. */
  lemma HybridSequential(query: Option<string>, k: Option<int>, filters: Filters, c: Collaborators)
    requires !IsBlank(query)
    ensures var t := HybridSearch(query, k, filters, c);
      var k' := k.GetOr(DefaultK);
      var text := c.searchText(query.value, k', MongoMatch(filters));
      && |t.calls| >= 1
      && t.calls[0] == TextSearch(query.value, k', MongoMatch(filters))
      && (text.Err? ==> t == Traced(Err(text.error), [t.calls[0]]))
      && (text.Ok? ==> |t.calls| >= 2 && t.calls[1] == EmbedQuery(query.value))
      && (text.Ok? && c.embed(query.value).Ok? ==>
            |t.calls| >= 3 && t.calls[2] == VectorSearch(c.embed(query.value).value, k', MongoMatch(filters)))
  {
    var r := Retrieved(query, k.GetOr(DefaultK), filters, c);
    var t := HybridSearch(query, k, filters, c);
    RetrievedSequential(query, k.GetOr(DefaultK), filters, c);
    HybridStartsWithRetrieval(query, k, filters, c);
    assert forall i :: 0 <= i < |r.calls| ==> t.calls[i] == t.calls[..|r.calls|][i];
  }

  /** Without rerank, the response is the RRF fusion of both lists cut to `k`, numbered 1..n. */
  lemma HybridFusesBoth(query: Option<string>, k: Option<int>, filters: Filters, c: Collaborators,
                        bm25Hits: seq<Hit>, vectorHits: seq<Hit>)
    requires !IsBlank(query) && !filters.rerank
    requires RetrieveBM25(query, Some(k.GetOr(DefaultK)), filters, c).result == Ok(bm25Hits)
    requires RetrieveVector(query, Some(k.GetOr(DefaultK)), filters, c).result == Ok(vectorHits)
    requires FusionOf(filters) != "weighted"
    ensures HybridSearch(query, k, filters, c).result
         == Ok(FusedAnswers(Fusion.FuseRRF(bm25Hits, vectorHits, Some(Fusion.DefaultK0), Some(k.GetOr(DefaultK)))))
  {
  }

  /** Asking for weighted fusion fails once both retrievals have succeeded. */
  lemma HybridWeightedFails(query: Option<string>, k: Option<int>, filters: Filters, c: Collaborators)
    requires !IsBlank(query)
    requires RetrieveBM25(query, Some(k.GetOr(DefaultK)), filters, c).result.Ok?
    requires RetrieveVector(query, Some(k.GetOr(DefaultK)), filters, c).result.Ok?
    requires filters.fusion == Some("weighted")
    ensures HybridSearch(query, k, filters, c).result == Err(ReferenceError("fuseWeighted"))
  {
  }

  /** With rerank and something to rerank, the response is the provider's order, numbered 1..n. */
  lemma HybridReranks(query: Option<string>, k: Option<int>, filters: Filters, c: Collaborators, fused: seq<Candidate>)
    requires !IsBlank(query) && filters.rerank
    requires Retrieved(query, k.GetOr(DefaultK), filters, c).result == Ok(fused)
    ensures var opts := RerankOptionsOf(filters, k.GetOr(DefaultK));
      var request := Reranker.RerankRequest(query.value, fused, opts);
      var t := HybridSearch(query, k, filters, c);
      request.Some? ==>
        && t.calls == Retrieved(query, k.GetOr(DefaultK), filters, c).calls + [RerankRequest(request.value)]
        && t.result == Ok(RerankedAnswers(Reranker.RerankScored(
             Reranker.Sliced(fused, opts), c.rerank(request.value).GetOr([]), k.GetOr(DefaultK))))
  {
  }

  /** No hybrid answer carries `meta` or `createdAt`: the fused rows have neither. */
  lemma HybridAnswersLackMeta(query: Option<string>, k: Option<int>, filters: Filters, c: Collaborators)
    ensures var t := HybridSearch(query, k, filters, c);
      t.result.Ok? ==> forall a :: a in t.result.value ==> a.meta == None && a.createdAt == None
  {
  }

  // ---------------------------------------------------------------------------
  // The rerank early return and the hybrid service.
  // ---------------------------------------------------------------------------

  /**
   * As written: when rerank is on and every candidate sent to the reranker has
   * an empty text, `voyageRerank` returns the candidate array itself, the
   * service reads `.reranked` of it, and the request fails with a TypeError.
   * The provider is never called.
   */
  lemma RerankFallbackFails(query: Option<string>, k: Option<int>, filters: Filters, c: Collaborators, fused: seq<Candidate>)
    requires !IsBlank(query) && filters.rerank
    requires Retrieved(query, k.GetOr(DefaultK), filters, c).result == Ok(fused)
    requires Reranker.RerankRequest(query.value, fused, RerankOptionsOf(filters, k.GetOr(DefaultK))).None?
    ensures HybridSearch(query, k, filters, c)
         == Traced(Err(TypeError(ReadMapOfUndefined)), Retrieved(query, k.GetOr(DefaultK), filters, c).calls)
  {
    assert Retrieved(query, k.GetOr(DefaultK), filters, c).calls + [] == Retrieved(query, k.GetOr(DefaultK), filters, c).calls;
  }

  /** The fused list of two empty retrievals is empty. */
  lemma FuseNothing(k: int)
    ensures Fusion.FuseRRF([], [], Some(Fusion.DefaultK0), Some(k)) == []
  {
    Fusion.FuseRRFLength([], [], Some(Fusion.DefaultK0), Some(k));
    assert Fusion.IdSet([]) == {};
  }

  /** In particular a reranked search that finds nothing at all fails instead of answering `[]`. */
  lemma NoHitsWithRerankFails(query: Option<string>, k: Option<int>, filters: Filters, c: Collaborators)
    requires !IsBlank(query) && filters.rerank && FusionOf(filters) != "weighted"
    requires RetrieveBM25(query, Some(k.GetOr(DefaultK)), filters, c).result == Ok([])
    requires RetrieveVector(query, Some(k.GetOr(DefaultK)), filters, c).result == Ok([])
    ensures HybridSearch(query, k, filters, c).result == Err(TypeError(ReadMapOfUndefined))
  {
    var k' := k.GetOr(DefaultK);
    FuseNothing(k');
    assert Retrieved(query, k', filters, c).result == Ok([]);
    RerankFallbackFails(query, k, filters, c, []);
  }

  /** Every fused candidate of the pipeline has no rerank fields yet. */
  lemma FusedRowsUnreranked(bm25Hits: seq<Hit>, vectorHits: seq<Hit>, k0: Option<nat>, topK: Option<int>)
    ensures forall r :: r in Fusion.FuseRRF(bm25Hits, vectorHits, k0, topK) ==>
      r.rerankScore == None && r.rerankRank == None
  {
    Fusion.FuseRRFRows(bm25Hits, vectorHits, k0, topK);
  }

  lemma RetrievedUnreranked(query: Option<string>, k: int, filters: Filters, c: Collaborators)
    requires !IsBlank(query)
    ensures var r := Retrieved(query, k, filters, c);
      r.result.Ok? ==> forall x :: x in r.result.value ==> x.rerankScore == None && x.rerankRank == None
  {
    var bm25 := RetrieveBM25(query, Some(k), filters, c);
    var vector := RetrieveVector(query, Some(k), filters, c);
    if bm25.result.Ok? && vector.result.Ok? {
      FusedRowsUnreranked(bm25.result.value, vector.result.value, Some(Fusion.DefaultK0), Some(k));
    }
  }

  /**
   * Corrected: the early return is read as the reranked list, so the service
   * answers with the first `k` fused candidates, rerank fields defaulting to 0,
   * and never calls the provider.
   */
  lemma CorrectedFallbackAnswers(query: Option<string>, k: Option<int>, filters: Filters, c: Collaborators, fused: seq<Candidate>)
    requires !IsBlank(query) && filters.rerank
    requires Retrieved(query, k.GetOr(DefaultK), filters, c).result == Ok(fused)
    requires Reranker.RerankRequest(query.value, fused, RerankOptionsOf(filters, k.GetOr(DefaultK))).None?
    ensures var t := HybridSearchCorrected(query, k, filters, c);
      && t.calls == Retrieved(query, k.GetOr(DefaultK), filters, c).calls
      && t.result == Ok(RerankedAnswers(Take(fused, k.GetOr(DefaultK))))
      && forall a :: a in t.result.value ==> a.rerankScore == Some(0.0) && a.rerankRank == Some(0)
  {
    var k' := k.GetOr(DefaultK);
    var r := Retrieved(query, k', filters, c);
    assert r.calls + [] == r.calls;
    RetrievedUnreranked(query, k', filters, c);
    var answers := RerankedAnswers(Take(fused, k'));
    forall a | a in answers ensures a.rerankScore == Some(0.0) && a.rerankRank == Some(0) {
      var i :| 0 <= i < |answers| && answers[i] == a;
      assert Take(fused, k')[i] == fused[i];
      assert fused[i] in fused;
    }
  }

  /** Wherever the service as written answers, the corrected one answers the same; only the failure differs. */
  lemma CorrectedAgreesWhenAnswering(query: Option<string>, k: Option<int>, filters: Filters, c: Collaborators)
    ensures HybridSearchCorrected(query, k, filters, c).calls == HybridSearch(query, k, filters, c).calls
    ensures HybridSearch(query, k, filters, c).result.Ok? ==>
      HybridSearchCorrected(query, k, filters, c) == HybridSearch(query, k, filters, c)
    ensures HybridSearchCorrected(query, k, filters, c).result.Err? ==>
      HybridSearchCorrected(query, k, filters, c) == HybridSearch(query, k, filters, c)
  {
  }
}
