/**
 * The records that flow through the query-time pipeline: rows returned by the
 * two search indexes, the per-source hits the retrieval services hand to
 * fusion, the fused candidates, the response rows, and the collaborator
 * failures.
 */
module Documents {
  import opened Wrappers

  /** `String(_id)`: the document identity fusion keys on. */
  type Id = string

  /** A 1-based rank. Ranks are never zero or negative, so `k0 + rank` is never zero. */
  type Rank = r: int | r >= 1 witness 1

  /** The two retrieval sources, named "bm25" and "vector" in the `ranks` record. */
  datatype Source = Bm25 | Vector

  /** Opaque provenance metadata (`meta`) carried on stored documents. */
  type Meta = map<string, string>

  /** A row projected by either search pipeline; `score` is `bm25Score` or `vectorScore`. */
  datatype RepoRow = RepoRow(
    id: Id,
    text: Option<string>,
    title: Option<string>,
    tags: Option<seq<string>>,
    score: Option<real>,
    createdAt: Option<string>,
    meta: Option<Meta>)

  /** A ranked hit as the retrieval services return it and as fusion reads it. */
  datatype Hit = Hit(
    id: Id,
    text: Option<string>,
    title: Option<string>,
    tags: Option<seq<string>>,
    rank: Option<Rank>,
    bm25Score: Option<real>,
    vectorScore: Option<real>,
    meta: Option<Meta>,
    createdAt: Option<string>)

  /**
   * A fused row: what fusion builds per id, with `rank` once it is placed in the
   * fused output and `rerankScore`/`rerankRank` once the reranker scored it.
   * A fused row has no `meta` or `createdAt`.
   */
  datatype Candidate = Candidate(
    id: Id,
    text: Option<string>,
    title: Option<string>,
    tags: Option<seq<string>>,
    bm25Score: Option<real>,
    vectorScore: Option<real>,
    fusedScore: real,
    ranks: map<Source, Rank>,
    rank: Option<int>,
    rerankScore: Option<real>,
    rerankRank: Option<int>)

  /** The failures a request or a script step can end with. */
  datatype Failure =
    | Upstream(collaborator: string)   // a repository, embedding, provider or database call threw
    | ReferenceError(name: string)     // a call to a function that does not exist
    | TypeError(reason: string)        // a property read on `undefined` or `null`
    | SyntaxError                      // `JSON.parse` rejected its input
    | Error(message: string)           // `throw new Error(message)`
}
