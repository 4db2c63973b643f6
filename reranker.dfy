/**
 * The cross-encoder rerank adapter (`voyageRerank`): cut the fused candidates
 * to `preRerankK`, trim their texts into the document batch, skip the provider
 * when every document is empty, and otherwise map the provider's
 * `(index, relevance_score)` entries back onto the candidates, drop entries
 * that address nothing, sort by relevance (stable) and keep `topK`.
 *
 * The provider is a parameter: given the request it returns the entry list,
 * or None when its reply has no `data` array.
 */
module Reranker {
  import opened Wrappers
  import opened JsString
  import opened Documents
  import opened StableSort

  const DefaultModel: string := "rerank-2.5-lite"
  const DefaultPreRerankK: int := 50
  const DefaultTopK: int := 10
  const DefaultMaxDocChars: int := 1500

  /** `opts`; a number option is None when missing or not finite. */
  datatype RerankOptions = RerankOptions(
    model: Option<string>,
    preRerankK: Option<int>,
    topK: Option<int>,
    maxDocChars: Option<int>)

  /** The body of the rerank request. */
  datatype Payload = Payload(query: string, documents: seq<string>, model: string, topK: int)

  /** One entry of the provider's `data` list. */
  datatype ScoreEntry = ScoreEntry(index: int, relevanceScore: real)

  /**
   * What `voyageRerank` resolves to: the bare candidate array of the early
   * return, or the `{ reranked, model }` object (latency is not modelled).
   */
  datatype RerankResult =
    | Unranked(candidates: seq<Candidate>)
    | Reranked(reranked: seq<Candidate>, model: string)

  /** `trimText(text, maxChars)`: a prefix of the text cut to the budget, "" for a missing or empty text. */
  function TrimText(text: Option<string>, maxChars: int): (r: string)
    ensures !Truthy(text) ==> r == ""
    ensures Truthy(text) ==> |r| <= |text.value| && r == text.value[..|r|]
    ensures Truthy(text) && |text.value| <= maxChars ==> r == text.value
    ensures Truthy(text) && 0 <= maxChars < |text.value| ==> |r| == maxChars
    ensures maxChars >= 0 ==> |r| <= maxChars
    // a negative budget counts back from the end, as `slice` does
    ensures Truthy(text) && maxChars < 0 ==> |r| == SliceEnd(|text.value|, maxChars)
  {
    if !Truthy(text) then ""
    else if |text.value| <= maxChars then text.value
    else Take(text.value, maxChars)
  }

  function ModelOf(opts: RerankOptions): string {
    if Truthy(opts.model) then opts.model.value else DefaultModel
  }

  /** `candidates.slice(0, preRerankK)`. */
  function Sliced(candidates: seq<Candidate>, opts: RerankOptions): seq<Candidate> {
    Take(candidates, opts.preRerankK.GetOr(DefaultPreRerankK))
  }

  /** `sliced.map(c => trimText(c.text, maxDocChars))`. */
  function Docs(sliced: seq<Candidate>, maxDocChars: int): (docs: seq<string>)
    ensures |docs| == |sliced|
  {
    seq(|sliced|, i requires 0 <= i < |sliced| => TrimText(sliced[i].text, maxDocChars))
  }

  /** `docs.filter(Boolean).length === 0`. */
  predicate AllEmpty(docs: seq<string>) {
    forall i :: 0 <= i < |docs| ==> docs[i] == ""
  }

  /**
   * The request `voyageRerank` sends, or None when the empty-document guard
   * returns before any provider call.
   */
  function RerankRequest(query: string, candidates: seq<Candidate>, opts: RerankOptions): (p: Option<Payload>)
    ensures var n := SliceEnd(|candidates|, opts.preRerankK.GetOr(DefaultPreRerankK));
      var maxDocChars := opts.maxDocChars.GetOr(DefaultMaxDocChars);
      && (p.None? <==> forall i :: 0 <= i < n ==> TrimText(candidates[i].text, maxDocChars) == "")
      && (p.Some? ==>
            && p.value.query == query
            && p.value.model == ModelOf(opts)
            && |p.value.documents| == n
            && (forall i :: 0 <= i < n ==> p.value.documents[i] == TrimText(candidates[i].text, maxDocChars))
            && p.value.topK == (if opts.topK.GetOr(DefaultTopK) < n then opts.topK.GetOr(DefaultTopK) else n))
  {
    var sliced := Sliced(candidates, opts);
    var docs := Docs(sliced, opts.maxDocChars.GetOr(DefaultMaxDocChars));
    assert forall i :: 0 <= i < |sliced| ==>
      docs[i] == TrimText(candidates[i].text, opts.maxDocChars.GetOr(DefaultMaxDocChars));
    if AllEmpty(docs) then None
    else
      var topK := opts.topK.GetOr(DefaultTopK);
      Some(Payload(query, docs, ModelOf(opts), if topK < |docs| then topK else |docs|))
  }

  // ---------------------------------------------------------------------------
  // Post-processing of the provider's entries.
  // ---------------------------------------------------------------------------

  /** The candidate an entry at provider position `p` resolves to, with its two rerank fields, if any. */
  function Scored(sliced: seq<Candidate>, e: ScoreEntry, p: nat): Option<Candidate> {
    if 0 <= e.index < |sliced|
    then Some(sliced[e.index].(rerankScore := Some(e.relevanceScore), rerankRank := Some(p + 1)))
    else None
  }

  /** `results.map((r, rank) => ...)`: one slot per entry, None where `sliced[idx]` is undefined. */
  function Attach(sliced: seq<Candidate>, results: seq<ScoreEntry>): (xs: seq<Option<Candidate>>)
    ensures |xs| == |results|
  {
    seq(|results|, p requires 0 <= p < |results| => Scored(sliced, results[p], p))
  }

  /** `.filter(Boolean)`: the present values, in order. */
  function Present<T>(xs: seq<Option<T>>): (r: seq<T>)
    ensures |r| <= |xs|
    decreases |xs|
  {
    if xs == [] then []
    else
      var last := xs[|xs| - 1];
      Present(xs[..|xs| - 1]) + (if last.Some? then [last.value] else [])
  }

  function RerankScoreOf(c: Candidate): real {
    c.rerankScore.GetOr(0.0)
  }

  function RerankRankOf(c: Candidate): int {
    c.rerankRank.GetOr(0)
  }

  /** The `scored` chain: attach, drop, stable sort by relevance, keep `topK`. */
  function RerankScored(sliced: seq<Candidate>, results: seq<ScoreEntry>, topK: int): seq<Candidate> {
    Take(SortDesc(Present(Attach(sliced, results)), RerankScoreOf), topK)
  }

  /** `voyageRerank(query, candidates, opts)` with the provider's reply as a function of the request. */
  function VoyageRerank(query: string, candidates: seq<Candidate>, opts: RerankOptions,
                        provider: Payload -> Option<seq<ScoreEntry>>): (r: RerankResult)
    ensures RerankRequest(query, candidates, opts).None? <==> r.Unranked?
    ensures r.Unranked? ==> r.candidates == Take(candidates, opts.topK.GetOr(DefaultTopK))
    ensures r.Reranked? ==> r.model == ModelOf(opts)
    ensures r.Reranked? ==> r.reranked == RerankScored(
      Sliced(candidates, opts),
      provider(RerankRequest(query, candidates, opts).value).GetOr([]),
      opts.topK.GetOr(DefaultTopK))
  {
    match RerankRequest(query, candidates, opts)
    case None => Unranked(Take(candidates, opts.topK.GetOr(DefaultTopK)))
    case Some(payload) =>
      var results := provider(payload).GetOr([]);
      Reranked(RerankScored(Sliced(candidates, opts), results, opts.topK.GetOr(DefaultTopK)), ModelOf(opts))
  }

  // ---------------------------------------------------------------------------
  // Properties of the chain.
  // ---------------------------------------------------------------------------

  lemma {:induction false} PresentFrom<T>(xs: seq<Option<T>>, v: T)
    requires v in Present(xs)
    ensures exists j :: 0 <= j < |xs| && xs[j] == Some(v)
    decreases |xs|
  {
    var prefix := xs[..|xs| - 1];
    if v in Present(prefix) {
      PresentFrom(prefix, v);
      var j :| 0 <= j < |prefix| && prefix[j] == Some(v);
      assert xs[j] == prefix[j];
    } else {
      assert xs[|xs| - 1] == Some(v);
    }
  }

  lemma {:induction false} PresentHas<T>(xs: seq<Option<T>>, j: nat)
    requires j < |xs| && xs[j].Some?
    ensures xs[j].value in Present(xs)
    decreases |xs|
  {
    if j < |xs| - 1 {
      var prefix := xs[..|xs| - 1];
      assert prefix[j] == xs[j];
      PresentHas(prefix, j);
    }
  }

  lemma {:induction false} PresentIncreasing<T>(xs: seq<Option<T>>, tie: T -> int)
    requires forall i, j :: 0 <= i < j < |xs| && xs[i].Some? && xs[j].Some? ==> tie(xs[i].value) < tie(xs[j].value)
    ensures Increasing(Present(xs), tie)
    decreases |xs|
  {
    if xs != [] {
      var prefix := xs[..|xs| - 1];
      var last := xs[|xs| - 1];
      PresentIncreasing(prefix, tie);
      if last.Some? {
        var r := Present(xs);
        forall i | 0 <= i < |r| - 1 ensures tie(r[i]) < tie(last.value) {
          assert r[i] in Present(prefix);
          PresentFrom(prefix, r[i]);
          var j :| 0 <= j < |prefix| && prefix[j] == Some(r[i]);
          assert xs[j] == prefix[j];
        }
      }
    }
  }

  /** Number of entries whose index addresses one of `n` candidates. */
  function ResolvedCount(results: seq<ScoreEntry>, n: nat): (c: nat)
    ensures c <= |results|
    decreases |results|
  {
    if results == [] then 0
    else
      var e := results[|results| - 1];
      ResolvedCount(results[..|results| - 1], n) + (if 0 <= e.index < n then 1 else 0)
  }

  lemma {:induction false} PresentAttachCount(sliced: seq<Candidate>, results: seq<ScoreEntry>)
    ensures |Present(Attach(sliced, results))| == ResolvedCount(results, |sliced|)
    decreases |results|
  {
    if results != [] {
      var n := |results| - 1;
      assert Attach(sliced, results)[..n] == Attach(sliced, results[..n]);
      PresentAttachCount(sliced, results[..n]);
    }
  }

  /** Every attached candidate stems from a resolvable entry, with only its two rerank fields set. */
  predicate FromEntry(c: Candidate, sliced: seq<Candidate>, results: seq<ScoreEntry>) {
    exists p :: 0 <= p < |results| && 0 <= results[p].index < |sliced|
      && c == sliced[results[p].index].(rerankScore := Some(results[p].relevanceScore), rerankRank := Some(p + 1))
  }

  lemma AttachedFromEntries(sliced: seq<Candidate>, results: seq<ScoreEntry>)
    ensures forall c :: c in Present(Attach(sliced, results)) ==> FromEntry(c, sliced, results)
  {
    forall c | c in Present(Attach(sliced, results)) ensures FromEntry(c, sliced, results) {
      PresentFrom(Attach(sliced, results), c);
    }
  }

  /**
   * Each reranked candidate is `sliced[index]` of one provider entry whose
   * index addresses the slice, with `rerankScore` its relevance score and
   * `rerankRank` one more than its position in the provider list; no other
   * field changes, and entries that address nothing never show up.
   */
  lemma RerankScoredResolves(sliced: seq<Candidate>, results: seq<ScoreEntry>, topK: int)
    ensures var r := RerankScored(sliced, results, topK);
      forall i :: 0 <= i < |r| ==> FromEntry(r[i], sliced, results)
  {
    var xs := Present(Attach(sliced, results));
    var sorted := SortDesc(xs, RerankScoreOf);
    AttachedFromEntries(sliced, results);
    forall i | 0 <= i < |RerankScored(sliced, results, topK)| ensures FromEntry(sorted[i], sliced, results) {
      assert sorted[i] in multiset(xs);
    }
  }

  /** The order of `Attach`: entries keep the provider order, which `rerankRank` numbers. */
  lemma AttachedInProviderOrder(sliced: seq<Candidate>, results: seq<ScoreEntry>)
    ensures Increasing(Present(Attach(sliced, results)), RerankRankOf)
  {
    PresentIncreasing(Attach(sliced, results), RerankRankOf);
  }

  /**
   * The reranked list is ordered by relevance, highest first; equal scores keep
   * the provider's order.
   */
  lemma RerankScoredOrder(sliced: seq<Candidate>, results: seq<ScoreEntry>, topK: int)
    ensures var r := RerankScored(sliced, results, topK);
      forall i, j :: 0 <= i < j < |r| ==>
        RerankScoreOf(r[i]) > RerankScoreOf(r[j])
        || (RerankScoreOf(r[i]) == RerankScoreOf(r[j]) && RerankRankOf(r[i]) < RerankRankOf(r[j]))
  {
    var xs := Present(Attach(sliced, results));
    AttachedInProviderOrder(sliced, results);
    SortDescStable(xs, RerankScoreOf, RerankRankOf);
  }

  /** `min(topK, resolvable entries)` rows, with `slice`'s rule for a negative `topK`. */
  lemma RerankScoredLength(sliced: seq<Candidate>, results: seq<ScoreEntry>, topK: int)
    ensures |RerankScored(sliced, results, topK)| == SliceEnd(ResolvedCount(results, |sliced|), topK)
  {
    PresentAttachCount(sliced, results);
  }

  /** No two entries address the same one of the first `n` candidates. */
  predicate DistinctResolved(results: seq<ScoreEntry>, n: nat) {
    forall i, j :: 0 <= i < j < |results| && 0 <= results[i].index < n && 0 <= results[j].index < n ==>
      results[i].index != results[j].index
  }

  /** Number of entries addressing candidate `k`. */
  function CountIndex(results: seq<ScoreEntry>, k: int): (c: nat)
    ensures c <= |results|
    decreases |results|
  {
    if results == [] then 0
    else CountIndex(results[..|results| - 1], k) + (if results[|results| - 1].index == k then 1 else 0)
  }

  lemma {:induction false} ResolvedCountNone(results: seq<ScoreEntry>)
    ensures ResolvedCount(results, 0) == 0
    decreases |results|
  {
    if results != [] {
      ResolvedCountNone(results[..|results| - 1]);
    }
  }

  /** Admitting candidate `n` adds exactly the entries that address it. */
  lemma {:induction false} ResolvedCountNext(results: seq<ScoreEntry>, n: nat)
    ensures ResolvedCount(results, n + 1) == ResolvedCount(results, n) + CountIndex(results, n)
    decreases |results|
  {
    if results != [] {
      ResolvedCountNext(results[..|results| - 1], n);
    }
  }

  lemma {:induction false} CountIndexAbsent(results: seq<ScoreEntry>, k: int)
    requires forall i :: 0 <= i < |results| ==> results[i].index != k
    ensures CountIndex(results, k) == 0
    decreases |results|
  {
    if results != [] {
      CountIndexAbsent(results[..|results| - 1], k);
    }
  }

  lemma {:induction false} CountIndexDistinct(results: seq<ScoreEntry>, n: nat, k: int)
    requires DistinctResolved(results, n) && 0 <= k < n
    ensures CountIndex(results, k) <= 1
    decreases |results|
  {
    if results != [] {
      var m := |results| - 1;
      var prefix := results[..m];
      if results[m].index == k {
        forall i | 0 <= i < m ensures prefix[i].index != k {
          assert prefix[i] == results[i];
        }
        CountIndexAbsent(prefix, k);
      } else {
        CountIndexDistinct(prefix, n, k);
      }
    }
  }

  /** With distinct indices, at most `n` entries resolve against `n` candidates. */
  lemma {:induction false} ResolvedCountDistinct(results: seq<ScoreEntry>, n: nat)
    requires DistinctResolved(results, n)
    ensures ResolvedCount(results, n) <= n
  {
    if n == 0 {
      ResolvedCountNone(results);
    } else {
      ResolvedCountDistinct(results, n - 1);
      ResolvedCountNext(results, n - 1);
      CountIndexDistinct(results, n, n - 1);
    }
  }

  /**
   * When the provider names each candidate at most once, the reranked list is
   * no longer than the slice sent, nor than a non-negative `topK`.
   */
  lemma RerankScoredDistinctBound(sliced: seq<Candidate>, results: seq<ScoreEntry>, topK: int)
    requires DistinctResolved(results, |sliced|)
    ensures |RerankScored(sliced, results, topK)| <= |sliced|
    ensures topK >= 0 ==> |RerankScored(sliced, results, topK)| <= topK
  {
    RerankScoredLength(sliced, results, topK);
    ResolvedCountDistinct(results, |sliced|);
  }

  /** A provider that names the same candidate twice makes it appear twice. */
  lemma RepeatedIndexDuplicates(c: Candidate)
    ensures var r := RerankScored([c], [ScoreEntry(0, 1.0), ScoreEntry(0, 2.0)], 10);
      |r| == 2 && r[0].id == r[1].id
  {
    var results := [ScoreEntry(0, 1.0), ScoreEntry(0, 2.0)];
    assert results[..1] == [ScoreEntry(0, 1.0)];
    assert ResolvedCount(results, 1) == 2;
    RerankScoredLength([c], results, 10);
    RerankScoredResolves([c], results, 10);
  }

  lemma CutKeepsBest(sorted: seq<Candidate>, topK: int, j: nat)
    requires Descending(sorted, RerankScoreOf)
    requires |Take(sorted, topK)| <= j < |sorted|
    ensures var r := Take(sorted, topK);
      forall i :: 0 <= i < |r| ==> RerankScoreOf(sorted[j]) <= RerankScoreOf(r[i])
  {
    var r := Take(sorted, topK);
    forall i | 0 <= i < |r| ensures RerankScoreOf(sorted[j]) <= RerankScoreOf(r[i]) {
      assert r[i] == sorted[i];
    }
  }

  /**
   * No resolvable entry left out of the reranked list scores above any
   * candidate kept in it.
   */
  lemma RerankScoredKeepsBest(sliced: seq<Candidate>, results: seq<ScoreEntry>, topK: int, p: nat)
    requires p < |results| && 0 <= results[p].index < |sliced|
    requires forall i :: 0 <= i < |RerankScored(sliced, results, topK)| ==>
      RerankScored(sliced, results, topK)[i].rerankRank != Some(p + 1)
    ensures var r := RerankScored(sliced, results, topK);
      forall i :: 0 <= i < |r| ==> results[p].relevanceScore <= RerankScoreOf(r[i])
  {
    var xs := Attach(sliced, results);
    var present := Present(xs);
    var sorted := SortDesc(present, RerankScoreOf);
    var r := RerankScored(sliced, results, topK);
    var c := xs[p].value;
    assert c in sorted && c.rerankRank == Some(p + 1) && RerankScoreOf(c) == results[p].relevanceScore by {
      PresentHas(xs, p);
      assert c in multiset(sorted);
    }
    assert c !in r;
    var j := InTail(sorted, r, c);
    SortDescDescending(present, RerankScoreOf);
    CutKeepsBest(sorted, topK, j);
  }

  /** An element of a sequence that is not in a prefix of it sits after that prefix. */
  lemma InTail<T>(s: seq<T>, prefix: seq<T>, x: T) returns (j: nat)
    requires |prefix| <= |s| && prefix == s[..|prefix|]
    requires x in s && x !in prefix
    ensures |prefix| <= j < |s| && s[j] == x
  {
    assert s == prefix + s[|prefix|..];
    assert x in s[|prefix|..];
    var k :| 0 <= k < |s| - |prefix| && s[|prefix|..][k] == x;
    j := |prefix| + k;
  }

  // ---------------------------------------------------------------------------
  // The adapter as a whole.
  // ---------------------------------------------------------------------------

  /**
   * When every document is empty the candidates come back cut to `topK` and
   * untouched, whatever the provider would have said: it is never asked.
   */
  lemma RerankFallbackIgnoresProvider(query: string, candidates: seq<Candidate>, opts: RerankOptions,
                                      provider: Payload -> Option<seq<ScoreEntry>>,
                                      other: Payload -> Option<seq<ScoreEntry>>)
    requires forall i :: 0 <= i < |Sliced(candidates, opts)| ==> !Truthy(Sliced(candidates, opts)[i].text)
    ensures VoyageRerank(query, candidates, opts, provider) == VoyageRerank(query, candidates, opts, other)
    ensures VoyageRerank(query, candidates, opts, provider) == Unranked(Take(candidates, opts.topK.GetOr(DefaultTopK)))
  {
  }

  /** A provider reply without a `data` array reranks nothing: the result is empty. */
  lemma RerankWithoutData(query: string, candidates: seq<Candidate>, opts: RerankOptions,
                          provider: Payload -> Option<seq<ScoreEntry>>)
    requires RerankRequest(query, candidates, opts).Some?
    requires provider(RerankRequest(query, candidates, opts).value).None?
    ensures VoyageRerank(query, candidates, opts, provider) == Reranked([], ModelOf(opts))
  {
    var sliced := Sliced(candidates, opts);
    assert Attach(sliced, []) == [];
  }

  /**
   * `rerankRank` is the provider position, not the final one: an entry at
   * position 0 that addresses nothing leaves the only kept candidate with
   * `rerankRank` 2 at the head of the list.
   */
  lemma RerankRankNotDense(c: Candidate)
    ensures RerankScored([c], [ScoreEntry(7, 0.9), ScoreEntry(0, 0.5)], 10)
         == [c.(rerankScore := Some(0.5), rerankRank := Some(2))]
  {
    var results := [ScoreEntry(7, 0.9), ScoreEntry(0, 0.5)];
    var xs := Attach([c], results);
    var c' := c.(rerankScore := Some(0.5), rerankRank := Some(2));
    assert xs == [None, Some(c')];
    assert xs[..1] == [None] && xs[..1][..0] == [];
    assert Present(xs) == [c'];
    assert SortDesc([c'], RerankScoreOf) == Insert(c', [], RerankScoreOf) == [c'];
  }

  /**
   * The reply the adapter currently uses in place of the provider call: six
   * entries addressing documents 0 to 5, best first.
   */
  const FixedData: seq<ScoreEntry> := [
    ScoreEntry(0, 0.66015625), ScoreEntry(4, 0.33203125), ScoreEntry(2, 0.326171875),
    ScoreEntry(5, 0.294921875), ScoreEntry(3, 0.291015625), ScoreEntry(1, 0.287109375)]

  function FixedProvider(p: Payload): Option<seq<ScoreEntry>> {
    Some(FixedData)
  }

  /** The fixed reply addresses each of the first six documents once, so it resolves `min(n, 6)` entries. */
  lemma FixedDataResolves(n: nat)
    ensures ResolvedCount(FixedData, n) == if n < 6 then n else 6
  {
    var d := FixedData;
    forall j | 0 < j <= 6 ensures d[..j][..j - 1] == d[..j - 1] && d[..j][j - 1] == d[j - 1] {}
    var c0, c4, c2, c5, c3 := (if 0 < n then 1 else 0), (if 4 < n then 1 else 0), (if 2 < n then 1 else 0),
      (if 5 < n then 1 else 0), (if 3 < n then 1 else 0);
    assert ResolvedCount(d[..1], n) == c0;
    assert ResolvedCount(d[..2], n) == c0 + c4;
    assert ResolvedCount(d[..3], n) == c0 + c4 + c2;
    assert ResolvedCount(d[..4], n) == c0 + c4 + c2 + c5;
    assert ResolvedCount(d[..5], n) == c0 + c4 + c2 + c5 + c3;
    assert d[..6] == d;
  }

  /**
   * With the fixed reply, a request that is sent yields `min(topK, min(k, 6))`
   * reranked candidates, where `k` is the number of candidates sent.
   */
  lemma FixedRerankLength(query: string, candidates: seq<Candidate>, opts: RerankOptions)
    requires RerankRequest(query, candidates, opts).Some?
    ensures var r := VoyageRerank(query, candidates, opts, FixedProvider);
      var k := |Sliced(candidates, opts)|;
      r.Reranked? && |r.reranked| == SliceEnd(if k < 6 then k else 6, opts.topK.GetOr(DefaultTopK))
  {
    var sliced := Sliced(candidates, opts);
    RerankScoredLength(sliced, FixedData, opts.topK.GetOr(DefaultTopK));
    FixedDataResolves(|sliced|);
  }

  /** The fixed reply names each document at most once. */
  lemma FixedDataDistinct(n: nat)
    ensures DistinctResolved(FixedData, n)
  {
  }
}
