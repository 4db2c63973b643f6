/**
 * Reciprocal Rank Fusion (`fuseRRF`) and the `fuseResults` dispatcher.
 *
 * `addList` walks one hit list and upserts each hit into a `Map` keyed by id,
 * adding `1 / (k0 + rank)` to the row's fused score. The rows are then sorted
 * by fused score (stable, descending), cut to `topK` and numbered 1..n.
 */
module Fusion {
  import opened Wrappers
  import opened JsString
  import opened Documents
  import opened StableSort

  const DefaultK0: nat := 60
  const DefaultTopK: int := 10

  /** One hit as `addList` meets it: the list it came from and the rank it counts with. */
  datatype Occurrence = Occurrence(hit: Hit, source: Source, rank: Rank)

  /** `h.rank ?? i + 1`. */
  function RankAt(hits: seq<Hit>, i: nat): Rank
    requires i < |hits|
  {
    match hits[i].rank
    case Some(r) => r
    case None => i + 1
  }

  /** The occurrences `addList(hits, source)` processes, in order. */
  function Tagged(hits: seq<Hit>, source: Source): (occs: seq<Occurrence>)
    ensures |occs| == |hits|
  {
    seq(|hits|, i requires 0 <= i < |hits| => Occurrence(hits[i], source, RankAt(hits, i)))
  }

  /** Everything fusion reads: the bm25 list first, then the vector list. */
  function Occurrences(bm25Hits: seq<Hit>, vectorHits: seq<Hit>): seq<Occurrence> {
    Tagged(bm25Hits, Bm25) + Tagged(vectorHits, Vector)
  }

  /** The RRF contribution of one occurrence. */
  function Contribution(k0: nat, rank: Rank): (c: real)
    ensures c > 0.0
  {
    1.0 / ((k0 + rank) as real)
  }

  // ---------------------------------------------------------------------------
  // What a fused row should hold, stated over the occurrences of its id.
  // ---------------------------------------------------------------------------

  predicate Occurs(occs: seq<Occurrence>, id: Id) {
    exists i :: 0 <= i < |occs| && occs[i].hit.id == id
  }

  /** The position of the first occurrence of `id`. */
  function FirstIndex(occs: seq<Occurrence>, id: Id): (i: nat)
    requires Occurs(occs, id)
    ensures i < |occs| && occs[i].hit.id == id
    ensures forall j :: 0 <= j < i ==> occs[j].hit.id != id
  {
    if occs[0].hit.id == id then 0
    else
      assert Occurs(occs[1..], id) by {
        var i :| 0 <= i < |occs| && occs[i].hit.id == id;
        assert occs[1..][i - 1] == occs[i];
      }
      1 + FirstIndex(occs[1..], id)
  }

  predicate HasText(o: Occurrence, id: Id) {
    o.hit.id == id && Truthy(o.hit.text)
  }

  predicate TextOccurs(occs: seq<Occurrence>, id: Id) {
    exists i :: 0 <= i < |occs| && HasText(occs[i], id)
  }

  /** The position of the first occurrence of `id` that carries a non-empty text. */
  function FirstTextIndex(occs: seq<Occurrence>, id: Id): (i: nat)
    requires TextOccurs(occs, id)
    ensures i < |occs| && HasText(occs[i], id)
    ensures forall j :: 0 <= j < i ==> !HasText(occs[j], id)
  {
    if HasText(occs[0], id) then 0
    else
      assert TextOccurs(occs[1..], id) by {
        var i :| 0 <= i < |occs| && HasText(occs[i], id);
        assert occs[1..][i - 1] == occs[i];
      }
      1 + FirstTextIndex(occs[1..], id)
  }

  /** The position of the last occurrence of `id` in the list of `source`, or -1. */
  function LastFrom(occs: seq<Occurrence>, id: Id, source: Source): (i: int)
    ensures -1 <= i < |occs|
    ensures i >= 0 ==> occs[i].hit.id == id && occs[i].source == source
    ensures forall j :: i < j < |occs| ==> !(occs[j].hit.id == id && occs[j].source == source)
    decreases |occs|
  {
    if occs == [] then -1
    else if occs[|occs| - 1].hit.id == id && occs[|occs| - 1].source == source then |occs| - 1
    else LastFrom(occs[..|occs| - 1], id, source)
  }

  /** The sum of the RRF contributions of every occurrence of `id`. */
  function Score(occs: seq<Occurrence>, id: Id, k0: nat): (s: real)
    ensures s >= 0.0
    ensures Occurs(occs, id) <==> s > 0.0
    decreases |occs|
  {
    if occs == [] then 0.0
    else
      var prefix := occs[..|occs| - 1];
      var last := occs[|occs| - 1];
      assert Occurs(occs, id) <==> Occurs(prefix, id) || last.hit.id == id by {
        if Occurs(occs, id) && last.hit.id != id {
          var i :| 0 <= i < |occs| && occs[i].hit.id == id;
          assert prefix[i] == occs[i];
        }
        if Occurs(prefix, id) {
          var i :| 0 <= i < |prefix| && prefix[i].hit.id == id;
          assert occs[i] == prefix[i];
        }
      }
      Score(prefix, id, k0) + (if last.hit.id == id then Contribution(k0, last.rank) else 0.0)
  }

  /** `ranks`: for each source that returned `id`, the rank of its last occurrence there. */
  function SourceRanks(occs: seq<Occurrence>, id: Id): map<Source, Rank> {
    var b := LastFrom(occs, id, Bm25);
    var v := LastFrom(occs, id, Vector);
    var withBm25 := if b >= 0 then map[Bm25 := occs[b].rank] else map[];
    if v >= 0 then withBm25[Vector := occs[v].rank] else withBm25
  }

  /** The first non-empty text among the hits of `id`, else the first hit's text. */
  function RowText(occs: seq<Occurrence>, id: Id): Option<string>
    requires Occurs(occs, id)
  {
    if TextOccurs(occs, id) then occs[FirstTextIndex(occs, id)].hit.text
    else occs[FirstIndex(occs, id)].hit.text
  }

  /**
   * The row fusion builds for `id`: title and tags of the first hit, the first
   * non-empty text (else the first hit's text), each source's score from its
   * last hit, and the summed contributions.
   */
  function FusedRow(occs: seq<Occurrence>, id: Id, k0: nat): Candidate
    requires Occurs(occs, id)
  {
    var first := occs[FirstIndex(occs, id)].hit;
    var b := LastFrom(occs, id, Bm25);
    var v := LastFrom(occs, id, Vector);
    Candidate(
      id := id,
      text := RowText(occs, id),
      title := first.title,
      tags := first.tags,
      bm25Score := if b >= 0 then occs[b].hit.bm25Score else None,
      vectorScore := if v >= 0 then occs[v].hit.vectorScore else None,
      fusedScore := Score(occs, id, k0),
      ranks := SourceRanks(occs, id),
      rank := None,
      rerankScore := None,
      rerankRank := None)
  }

  // ---------------------------------------------------------------------------
  // The `Map` and `addList`.
  // ---------------------------------------------------------------------------

  /** A JavaScript `Map` from id to row: its keys in insertion order and its entries. */
  datatype RowMap = RowMap(keys: seq<Id>, rows: map<Id, Candidate>)

  const EmptyMap := RowMap([], map[])

  /** Every key has its entry, as in any `Map`. */
  ghost predicate KeysPresent(m: RowMap) {
    forall id :: id in m.keys ==> id in m.rows
  }

  /** The row `map.set` creates for an id seen for the first time. */
  function NewRow(h: Hit): Candidate {
    Candidate(h.id, h.text, h.title, h.tags, None, None, 0.0, map[], None, None, None)
  }

  /** The in-place updates of one loop iteration to the row of `o`'s id. */
  function Absorb(row: Candidate, o: Occurrence, k0: nat): Candidate {
    row.(
      text := if !Truthy(row.text) && Truthy(o.hit.text) then o.hit.text else row.text,
      bm25Score := if o.source == Bm25 then o.hit.bm25Score else row.bm25Score,
      vectorScore := if o.source == Vector then o.hit.vectorScore else row.vectorScore,
      ranks := row.ranks[o.source := o.rank],
      fusedScore := row.fusedScore + Contribution(k0, o.rank))
  }

  /** One iteration of the `addList` loop. */
  function Upsert(m: RowMap, o: Occurrence, k0: nat): RowMap {
    var key := o.hit.id;
    if key in m.rows then RowMap(m.keys, m.rows[key := Absorb(m.rows[key], o, k0)])
    else RowMap(m.keys + [key], m.rows[key := Absorb(NewRow(o.hit), o, k0)])
  }

  /** The map after `occs` were processed in order. */
  function Fold(m: RowMap, occs: seq<Occurrence>, k0: nat): RowMap
    decreases |occs|
  {
    if occs == [] then m
    else Upsert(Fold(m, occs[..|occs| - 1], k0), occs[|occs| - 1], k0)
  }

  /** The in-place updates of one iteration to the row object of `h`'s id. */
  method AbsorbHit(row: Candidate, h: Hit, source: Source, rank: Rank, k0: nat) returns (updated: Candidate)
    ensures updated == Absorb(row, Occurrence(h, source, rank), k0)
  {
    updated := row;
    if !Truthy(updated.text) && Truthy(h.text) {
      updated := updated.(text := h.text);
    }
    if source == Bm25 {
      updated := updated.(bm25Score := h.bm25Score);
    }
    if source == Vector {
      updated := updated.(vectorScore := h.vectorScore);
    }
    updated := updated.(ranks := updated.ranks[source := rank]);
    updated := updated.(fusedScore := updated.fusedScore + 1.0 / ((k0 + rank) as real));
  }

  /** The fold over one more occurrence. */
  lemma FoldStep(m0: RowMap, occs: seq<Occurrence>, i: nat, k0: nat)
    requires i < |occs|
    ensures Fold(m0, occs[..i + 1], k0) == Upsert(Fold(m0, occs[..i], k0), occs[i], k0)
  {
    assert occs[..i + 1][..i] == occs[..i];
  }

  /** The iteration as written: create the row if the id is new, then update it in place. */
  lemma UpsertInPlace(m: RowMap, o: Occurrence, k0: nat)
    ensures var key := o.hit.id;
      var created := if key !in m.rows then RowMap(m.keys + [key], m.rows[key := NewRow(o.hit)]) else m;
      created.(rows := created.rows[key := Absorb(created.rows[key], o, k0)]) == Upsert(m, o, k0)
  {
  }

  /** `addList(hits, source)`: the loop that upserts every hit into the map. */
  method AddList(m0: RowMap, hits: seq<Hit>, source: Source, k0: nat) returns (m: RowMap)
    ensures m == Fold(m0, Tagged(hits, source), k0)
  {
    m := m0;
    ghost var occs := Tagged(hits, source);
    for i := 0 to |hits|
      invariant m == Fold(m0, occs[..i], k0)
    {
      var h := hits[i];
      var key := h.id;
      var rank: Rank := if h.rank.Some? then h.rank.value else i + 1;
      assert occs[i] == Occurrence(h, source, rank);
      FoldStep(m0, occs, i, k0);
      UpsertInPlace(m, occs[i], k0);

      if key !in m.rows {
        m := RowMap(m.keys + [key], m.rows[key := NewRow(h)]);
      }
      var row := AbsorbHit(m.rows[key], h, source, rank, k0);
      m := m.(rows := m.rows[key := row]);
    }
    assert occs[..|hits|] == occs;
  }

  // ---------------------------------------------------------------------------
  // Fusion proper.
  // ---------------------------------------------------------------------------

  /** `Array.from(map.values())`. */
  function Rows(m: RowMap): (rows: seq<Candidate>)
    requires KeysPresent(m)
    ensures |rows| == |m.keys|
  {
    seq(|m.keys|, i requires 0 <= i < |m.keys| => m.rows[m.keys[i]])
  }

  function FusedScoreOf(c: Candidate): real {
    c.fusedScore
  }

  /** `.map((x, idx) => ({ ...x, rank: idx + 1 }))`. */
  function Ranked(rows: seq<Candidate>): (r: seq<Candidate>)
    ensures |r| == |rows|
  {
    seq(|rows|, i requires 0 <= i < |rows| => rows[i].(rank := Some(i + 1)))
  }

  /** `fuseRRF(bm25Hits, vectorHits, { k0, topK })`; None stands for a missing or non-finite option. */
  function FuseRRF(bm25Hits: seq<Hit>, vectorHits: seq<Hit>, k0: Option<nat>, topK: Option<int>): seq<Candidate> {
    var k := k0.GetOr(DefaultK0);
    var n := topK.GetOr(DefaultTopK);
    var m := Fold(Fold(EmptyMap, Tagged(bm25Hits, Bm25), k), Tagged(vectorHits, Vector), k);
    FoldKeysPresent(EmptyMap, Tagged(bm25Hits, Bm25), k);
    FoldKeysPresent(Fold(EmptyMap, Tagged(bm25Hits, Bm25), k), Tagged(vectorHits, Vector), k);
    Ranked(Take(SortDesc(Rows(m), FusedScoreOf), n))
  }

  /** `fuseResults`: only RRF exists; the "weighted" branch calls an undefined `fuseWeighted`. */
  function FuseResults(bm25Hits: seq<Hit>, vectorHits: seq<Hit>, fusion: Option<string>, topK: Option<int>, k0: Option<nat>)
    : (r: Result<seq<Candidate>, Failure>)
    ensures r.Err? <==> Truthy(fusion) && fusion.value == "weighted"
    ensures r.Err? ==> r.error == ReferenceError("fuseWeighted")
    ensures r.Ok? ==> r.value == FuseRRF(bm25Hits, vectorHits, Some(k0.GetOr(DefaultK0)), Some(topK.GetOr(DefaultTopK)))
  {
    var chosen := if Truthy(fusion) then fusion.value else "rrf";
    if chosen == "weighted" then Err(ReferenceError("fuseWeighted"))
    else Ok(FuseRRF(bm25Hits, vectorHits, Some(k0.GetOr(DefaultK0)), Some(topK.GetOr(DefaultTopK))))
  }

  // ---------------------------------------------------------------------------
  // The map that the two `addList` calls build holds exactly the fused rows.
  // ---------------------------------------------------------------------------

  /** Upserting never loses a key's entry. */
  lemma {:induction false} FoldKeysPresent(m: RowMap, occs: seq<Occurrence>, k0: nat)
    requires KeysPresent(m)
    ensures KeysPresent(Fold(m, occs, k0))
    decreases |occs|
  {
    if occs != [] {
      FoldKeysPresent(m, occs[..|occs| - 1], k0);
    }
  }

  lemma {:induction false} FoldAppend(m: RowMap, a: seq<Occurrence>, b: seq<Occurrence>, k0: nat)
    ensures Fold(m, a + b, k0) == Fold(Fold(m, a, k0), b, k0)
    decreases |b|
  {
    if b == [] {
      assert a + b == a;
    } else {
      assert (a + b)[..|a + b| - 1] == a + b[..|b| - 1];
      FoldAppend(m, a, b[..|b| - 1], k0);
    }
  }

  lemma OccursAppend(p: seq<Occurrence>, o: Occurrence, id: Id)
    ensures Occurs(p + [o], id) <==> Occurs(p, id) || o.hit.id == id
  {
    var s := p + [o];
    if Occurs(s, id) && o.hit.id != id {
      var i :| 0 <= i < |s| && s[i].hit.id == id;
      assert p[i] == s[i];
    }
    if Occurs(p, id) {
      var i :| 0 <= i < |p| && p[i].hit.id == id;
      assert s[i] == p[i];
    }
    if o.hit.id == id {
      assert s[|p|] == o;
    }
  }

  lemma TextOccursAppend(p: seq<Occurrence>, o: Occurrence, id: Id)
    ensures TextOccurs(p + [o], id) <==> TextOccurs(p, id) || HasText(o, id)
  {
    var s := p + [o];
    if TextOccurs(s, id) && !HasText(o, id) {
      var i :| 0 <= i < |s| && HasText(s[i], id);
      assert p[i] == s[i];
    }
    if TextOccurs(p, id) {
      var i :| 0 <= i < |p| && HasText(p[i], id);
      assert s[i] == p[i];
    }
    if HasText(o, id) {
      assert s[|p|] == o;
    }
  }

  /** Appending an occurrence does not move the first one of an id already seen. */
  lemma FirstIndexAppend(p: seq<Occurrence>, o: Occurrence, id: Id)
    requires Occurs(p + [o], id)
    ensures FirstIndex(p + [o], id) == if Occurs(p, id) then FirstIndex(p, id) else |p|
  {
    var s := p + [o];
    var i := FirstIndex(s, id);
    if Occurs(p, id) {
      var j := FirstIndex(p, id);
      assert s[j] == p[j];
      assert i <= j;
      assert p[i] == s[i];
    } else {
      forall k | 0 <= k < |p| ensures s[k].hit.id != id {
        assert s[k] == p[k];
      }
    }
  }

  lemma FirstTextIndexAppend(p: seq<Occurrence>, o: Occurrence, id: Id)
    requires TextOccurs(p + [o], id)
    ensures FirstTextIndex(p + [o], id) == if TextOccurs(p, id) then FirstTextIndex(p, id) else |p|
  {
    var s := p + [o];
    var i := FirstTextIndex(s, id);
    if TextOccurs(p, id) {
      var j := FirstTextIndex(p, id);
      assert s[j] == p[j];
      assert i <= j;
      assert p[i] == s[i];
    } else {
      forall k | 0 <= k < |p| ensures !HasText(s[k], id) {
        assert s[k] == p[k];
      }
    }
  }

  lemma LastFromAppend(p: seq<Occurrence>, o: Occurrence, id: Id, source: Source)
    ensures LastFrom(p + [o], id, source)
         == if o.hit.id == id && o.source == source then |p| else LastFrom(p, id, source)
  {
    assert (p + [o])[..|p + [o]| - 1] == p;
  }

  lemma ScoreAppend(p: seq<Occurrence>, o: Occurrence, id: Id, k0: nat)
    ensures Score(p + [o], id, k0)
         == Score(p, id, k0) + (if o.hit.id == id then Contribution(k0, o.rank) else 0.0)
  {
    assert (p + [o])[..|p + [o]| - 1] == p;
  }

  /** An occurrence of another id keeps the first hit and the text of `id`. */
  lemma RowTextOther(p: seq<Occurrence>, o: Occurrence, id: Id)
    requires Occurs(p, id) && o.hit.id != id
    ensures Occurs(p + [o], id)
    ensures FirstIndex(p + [o], id) == FirstIndex(p, id)
    ensures RowText(p + [o], id) == RowText(p, id)
  {
    var s := p + [o];
    OccursAppend(p, o, id);
    FirstIndexAppend(p, o, id);
    TextOccursAppend(p, o, id);
    if TextOccurs(p, id) {
      FirstTextIndexAppend(p, o, id);
      assert s[FirstTextIndex(p, id)] == p[FirstTextIndex(p, id)];
    }
    assert s[FirstIndex(p, id)] == p[FirstIndex(p, id)];
  }

  /** An occurrence of another id leaves the fused row of `id` as it was. */
  lemma FusedRowOther(p: seq<Occurrence>, o: Occurrence, id: Id, k0: nat)
    requires Occurs(p, id) && o.hit.id != id
    ensures Occurs(p + [o], id)
    ensures FusedRow(p + [o], id, k0) == FusedRow(p, id, k0)
  {
    var s := p + [o];
    RowTextOther(p, o, id);
    LastFromAppend(p, o, id, Bm25);
    LastFromAppend(p, o, id, Vector);
    ScoreAppend(p, o, id, k0);
    assert s[FirstIndex(p, id)] == p[FirstIndex(p, id)];
    var b := LastFrom(p, id, Bm25);
    var v := LastFrom(p, id, Vector);
    if b >= 0 {
      assert s[b] == p[b];
    }
    if v >= 0 {
      assert s[v] == p[v];
    }
    assert SourceRanks(s, id) == SourceRanks(p, id);
  }

  /** How a further occurrence of `id` changes the chosen text. */
  lemma RowTextAgain(p: seq<Occurrence>, o: Occurrence, id: Id)
    requires Occurs(p, id) && o.hit.id == id
    ensures Occurs(p + [o], id)
    ensures RowText(p + [o], id)
         == if !Truthy(RowText(p, id)) && Truthy(o.hit.text) then o.hit.text else RowText(p, id)
  {
    var s := p + [o];
    OccursAppend(p, o, id);
    FirstIndexAppend(p, o, id);
    assert s[FirstIndex(p, id)] == p[FirstIndex(p, id)];
    TextOccursAppend(p, o, id);
    if TextOccurs(p, id) {
      FirstTextIndexAppend(p, o, id);
      assert s[FirstTextIndex(p, id)] == p[FirstTextIndex(p, id)];
    } else {
      assert !HasText(p[FirstIndex(p, id)], id);
      if HasText(o, id) {
        FirstTextIndexAppend(p, o, id);
        assert s[|p|] == o;
      }
    }
  }

  /** An occurrence of `id` from one source takes that source's score and rank. */
  lemma LastFromAgain(p: seq<Occurrence>, o: Occurrence, id: Id)
    requires o.hit.id == id
    ensures var s := p + [o];
      var b := LastFrom(s, id, Bm25);
      var v := LastFrom(s, id, Vector);
      && (if o.source == Bm25 then b == |p| else b == LastFrom(p, id, Bm25))
      && (if o.source == Vector then v == |p| else v == LastFrom(p, id, Vector))
      && (b >= 0 ==> s[b] == if b == |p| then o else p[b])
      && (v >= 0 ==> s[v] == if v == |p| then o else p[v])
  {
    LastFromAppend(p, o, id, Bm25);
    LastFromAppend(p, o, id, Vector);
  }

  lemma SourceRanksAgain(p: seq<Occurrence>, o: Occurrence, id: Id)
    requires o.hit.id == id
    ensures SourceRanks(p + [o], id) == SourceRanks(p, id)[o.source := o.rank]
  {
    LastFromAgain(p, o, id);
  }

  /** A further occurrence of `id` is absorbed into its existing row. */
  lemma FusedRowAgain(p: seq<Occurrence>, o: Occurrence, id: Id, k0: nat)
    requires Occurs(p, id) && o.hit.id == id
    ensures Occurs(p + [o], id)
    ensures FusedRow(p + [o], id, k0) == Absorb(FusedRow(p, id, k0), o, k0)
  {
    var s := p + [o];
    var before := FusedRow(p, id, k0);
    RowTextAgain(p, o, id);
    FirstIndexAppend(p, o, id);
    assert s[FirstIndex(p, id)] == p[FirstIndex(p, id)];
    LastFromAgain(p, o, id);
    SourceRanksAgain(p, o, id);
    ScoreAppend(p, o, id, k0);
    var after := FusedRow(s, id, k0);
    var absorbed := Absorb(before, o, k0);
    assert after.text == absorbed.text;
    assert after.title == absorbed.title && after.tags == absorbed.tags;
    assert after.bm25Score == absorbed.bm25Score;
    assert after.vectorScore == absorbed.vectorScore;
    assert after.fusedScore == absorbed.fusedScore;
    assert after.ranks == absorbed.ranks;
  }

  /** The text of a new id is that of its first hit. */
  lemma RowTextNew(p: seq<Occurrence>, o: Occurrence, id: Id)
    requires !Occurs(p, id) && o.hit.id == id
    ensures Occurs(p + [o], id)
    ensures FirstIndex(p + [o], id) == |p|
    ensures RowText(p + [o], id) == o.hit.text
  {
    var s := p + [o];
    OccursAppend(p, o, id);
    FirstIndexAppend(p, o, id);
    TextOccursAppend(p, o, id);
    if HasText(o, id) {
      FirstTextIndexAppend(p, o, id);
    }
    assert s[|p|] == o;
  }

  /** An id with a last occurrence in a list occurs. */
  lemma LastFromOccurs(p: seq<Occurrence>, id: Id, source: Source)
    ensures LastFrom(p, id, source) >= 0 ==> Occurs(p, id)
  {
    var b := LastFrom(p, id, source);
    if b >= 0 {
      assert p[b].hit.id == id;
    }
  }

  /** The first occurrence of `id` creates its row and is absorbed into it. */
  lemma FusedRowNew(p: seq<Occurrence>, o: Occurrence, id: Id, k0: nat)
    requires !Occurs(p, id) && o.hit.id == id
    ensures Occurs(p + [o], id)
    ensures FusedRow(p + [o], id, k0) == Absorb(NewRow(o.hit), o, k0)
  {
    var s := p + [o];
    RowTextNew(p, o, id);
    LastFromOccurs(p, id, Bm25);
    LastFromOccurs(p, id, Vector);
    LastFromAppend(p, o, id, Bm25);
    LastFromAppend(p, o, id, Vector);
    ScoreAppend(p, o, id, k0);
    assert s[|p|] == o;
    var after := FusedRow(s, id, k0);
    var absorbed := Absorb(NewRow(o.hit), o, k0);
    assert after.text == absorbed.text;
    assert after.title == absorbed.title && after.tags == absorbed.tags;
    assert after.bm25Score == absorbed.bm25Score;
    assert after.vectorScore == absorbed.vectorScore;
    assert after.fusedScore == absorbed.fusedScore;
    assert after.ranks == absorbed.ranks;
  }

  /** The map's keys are the ids of `occs`, each once, in first-seen order. */
  ghost predicate KeyedBy(m: RowMap, occs: seq<Occurrence>) {
    && (forall i, j :: 0 <= i < j < |m.keys| ==> m.keys[i] != m.keys[j])
    && (forall id :: id in m.rows <==> id in m.keys)
    && (forall id :: id in m.rows <==> Occurs(occs, id))
    && (forall i, j :: 0 <= i < j < |m.keys| ==> FirstIndex(occs, m.keys[i]) < FirstIndex(occs, m.keys[j]))
  }

  /** Every row of the map is the fused row of its id. */
  ghost predicate HoldsFusedRows(m: RowMap, occs: seq<Occurrence>, k0: nat) {
    forall id :: id in m.rows ==> Occurs(occs, id) && m.rows[id] == FusedRow(occs, id, k0)
  }

  lemma KeyedStep(m: RowMap, p: seq<Occurrence>, o: Occurrence, k0: nat)
    requires KeyedBy(m, p)
    ensures KeyedBy(Upsert(m, o, k0), p + [o])
  {
    var s := p + [o];
    var m' := Upsert(m, o, k0);
    forall id ensures id in m'.rows <==> Occurs(s, id) {
      OccursAppend(p, o, id);
    }
    forall i, j | 0 <= i < j < |m'.keys| ensures FirstIndex(s, m'.keys[i]) < FirstIndex(s, m'.keys[j]) {
      FirstIndexAppend(p, o, m'.keys[i]);
      FirstIndexAppend(p, o, m'.keys[j]);
      if j == |m.keys| {
        assert m'.keys[i] == m.keys[i];
      } else {
        assert m'.keys[i] == m.keys[i] && m'.keys[j] == m.keys[j];
      }
    }
  }

  lemma RowsStep(m: RowMap, p: seq<Occurrence>, o: Occurrence, k0: nat)
    requires KeyedBy(m, p) && HoldsFusedRows(m, p, k0)
    ensures HoldsFusedRows(Upsert(m, o, k0), p + [o], k0)
  {
    var m' := Upsert(m, o, k0);
    forall id | id in m'.rows ensures Occurs(p + [o], id) && m'.rows[id] == FusedRow(p + [o], id, k0) {
      if id != o.hit.id {
        FusedRowOther(p, o, id, k0);
      } else if id in m.rows {
        FusedRowAgain(p, o, id, k0);
      } else {
        FusedRowNew(p, o, id, k0);
      }
    }
  }

  /** The rows the fold builds are exactly the fused rows, keyed in first-seen order. */
  lemma {:induction false} FoldBuildsFusedRows(occs: seq<Occurrence>, k0: nat)
    ensures KeyedBy(Fold(EmptyMap, occs, k0), occs)
    ensures HoldsFusedRows(Fold(EmptyMap, occs, k0), occs, k0)
    decreases |occs|
  {
    if occs != [] {
      var p := occs[..|occs| - 1];
      var o := occs[|occs| - 1];
      assert occs == p + [o];
      FoldBuildsFusedRows(p, k0);
      KeyedStep(Fold(EmptyMap, p, k0), p, o, k0);
      RowsStep(Fold(EmptyMap, p, k0), p, o, k0);
    }
  }

  // ---------------------------------------------------------------------------
  // What `fuseRRF` returns.
  // ---------------------------------------------------------------------------

  /** The ids of one hit list. */
  function IdSet(hits: seq<Hit>): set<Id> {
    set i | 0 <= i < |hits| :: hits[i].id
  }

  /** RRF of one list for `id`: the sum of `1 / (k0 + rank)` over its hits with that id. */
  function RrfSum(hits: seq<Hit>, id: Id, k0: nat): (s: real)
    ensures s >= 0.0
    ensures s > 0.0 <==> id in IdSet(hits)
    decreases |hits|
  {
    if hits == [] then 0.0
    else
      var n := |hits| - 1;
      assert IdSet(hits) == IdSet(hits[..n]) + {hits[n].id} by {
        forall i | 0 <= i < n ensures hits[..n][i] == hits[i] { }
      }
      RrfSum(hits[..n], id, k0) + (if hits[n].id == id then Contribution(k0, RankAt(hits, n)) else 0.0)
  }

  function IdOf(c: Candidate): Id {
    c.id
  }

  /** Where the first occurrence of a row's id lies; fusion keeps that order among equal scores. */
  function FirstSeen(occs: seq<Occurrence>, c: Candidate): int {
    if Occurs(occs, c.id) then FirstIndex(occs, c.id) else -1
  }

  /** The map's rows after the stable sort, before the cut. */
  function SortedRows(occs: seq<Occurrence>, k0: nat): seq<Candidate> {
    FoldKeysPresent(EmptyMap, occs, k0);
    SortDesc(Rows(Fold(EmptyMap, occs, k0)), FusedScoreOf)
  }

  lemma {:induction false} DistinctCard<T>(s: seq<T>)
    requires forall i, j :: 0 <= i < j < |s| ==> s[i] != s[j]
    ensures |set x | x in s| == |s|
  {
    if s != [] {
      var rest := s[1..];
      forall i, j | 0 <= i < j < |rest| ensures rest[i] != rest[j] {
        assert rest[i] == s[i + 1] && rest[j] == s[j + 1];
      }
      DistinctCard(rest);
      assert (set x | x in s) == (set x | x in rest) + {s[0]};
      assert s[0] !in (set x | x in rest);
    }
  }

  /** The unsorted rows: the fused row of each key, in key order. */
  lemma RowsAreFusedRows(occs: seq<Occurrence>, k0: nat)
    ensures KeysPresent(Fold(EmptyMap, occs, k0))
    ensures var m := Fold(EmptyMap, occs, k0);
      var rows := Rows(m);
      && (forall i :: 0 <= i < |rows| ==>
            rows[i].id == m.keys[i] && Occurs(occs, m.keys[i]) && rows[i] == FusedRow(occs, m.keys[i], k0))
      && (forall id :: id in m.keys <==> Occurs(occs, id))
      && (forall i, j :: 0 <= i < j < |m.keys| ==> m.keys[i] != m.keys[j])
      && (forall i, j :: 0 <= i < j < |m.keys| ==> FirstIndex(occs, m.keys[i]) < FirstIndex(occs, m.keys[j]))
  {
    FoldBuildsFusedRows(occs, k0);
  }

  lemma SortedRowsOrder(occs: seq<Occurrence>, k0: nat, tie: Candidate -> int)
    requires forall c :: tie(c) == FirstSeen(occs, c)
    ensures DistinctBy(SortedRows(occs, k0), IdOf)
    ensures DescendingThen(SortedRows(occs, k0), FusedScoreOf, tie)
  {
    RowsAreFusedRows(occs, k0);
    var rows := Rows(Fold(EmptyMap, occs, k0));
    assert DistinctBy(rows, IdOf);
    SortDescDistinctBy(rows, FusedScoreOf, IdOf);
    assert Increasing(rows, tie);
    SortDescStable(rows, FusedScoreOf, tie);
  }

  lemma SortedRowsMembers(occs: seq<Occurrence>, k0: nat)
    ensures forall c :: c in SortedRows(occs, k0) ==> Occurs(occs, c.id) && c == FusedRow(occs, c.id, k0)
  {
    RowsAreFusedRows(occs, k0);
    var rows := Rows(Fold(EmptyMap, occs, k0));
    forall c | c in SortedRows(occs, k0) ensures Occurs(occs, c.id) && c == FusedRow(occs, c.id, k0) {
      assert c in multiset(rows);
    }
  }

  lemma SortedRowsComplete(occs: seq<Occurrence>, k0: nat, id: Id)
    requires Occurs(occs, id)
    ensures exists i :: 0 <= i < |SortedRows(occs, k0)| && SortedRows(occs, k0)[i].id == id
  {
    RowsAreFusedRows(occs, k0);
    var m := Fold(EmptyMap, occs, k0);
    var rows := Rows(m);
    var sorted := SortedRows(occs, k0);
    var j :| 0 <= j < |m.keys| && m.keys[j] == id;
    assert rows[j] in multiset(sorted);
    var i :| 0 <= i < |sorted| && sorted[i] == rows[j];
  }

  lemma SortedRowsCount(occs: seq<Occurrence>, k0: nat)
    ensures |SortedRows(occs, k0)| == |set id | id in Fold(EmptyMap, occs, k0).keys|
  {
    RowsAreFusedRows(occs, k0);
    DistinctCard(Fold(EmptyMap, occs, k0).keys);
  }

  /** `.slice(0, topK).map((x, idx) => ({ ...x, rank: idx + 1 }))`: a numbered prefix. */
  lemma CutIsNumberedPrefix(sorted: seq<Candidate>, topK: int)
    ensures var r := Ranked(Take(sorted, topK));
      |r| <= |sorted| && forall i :: 0 <= i < |r| ==> r[i] == sorted[i].(rank := Some(i + 1))
  {
  }

  /** `fuseRRF` is the cut of the sorted rows over both lists, read one after the other. */
  lemma FuseRRFIsCut(bm25Hits: seq<Hit>, vectorHits: seq<Hit>, k0: Option<nat>, topK: Option<int>)
    ensures FuseRRF(bm25Hits, vectorHits, k0, topK)
         == Ranked(Take(SortedRows(Occurrences(bm25Hits, vectorHits), k0.GetOr(DefaultK0)), topK.GetOr(DefaultTopK)))
  {
    FoldAppend(EmptyMap, Tagged(bm25Hits, Bm25), Tagged(vectorHits, Vector), k0.GetOr(DefaultK0));
  }

  /**
   * Each fused row is the fused row of its id, numbered by its position: text,
   * title and tags from the id's hits, a source's score and rank from its last
   * hit in that list, the summed contributions, and `rank` 1..n.
   */
  lemma FuseRRFRows(bm25Hits: seq<Hit>, vectorHits: seq<Hit>, k0: Option<nat>, topK: Option<int>)
    ensures var r := FuseRRF(bm25Hits, vectorHits, k0, topK);
      var occs := Occurrences(bm25Hits, vectorHits);
      forall i :: 0 <= i < |r| ==>
        Occurs(occs, r[i].id) && r[i] == FusedRow(occs, r[i].id, k0.GetOr(DefaultK0)).(rank := Some(i + 1))
  {
    var occs := Occurrences(bm25Hits, vectorHits);
    var k := k0.GetOr(DefaultK0);
    var sorted := SortedRows(occs, k);
    var r := FuseRRF(bm25Hits, vectorHits, k0, topK);
    FuseRRFIsCut(bm25Hits, vectorHits, k0, topK);
    CutIsNumberedPrefix(sorted, topK.GetOr(DefaultTopK));
    SortedRowsMembers(occs, k);
    forall i | 0 <= i < |r|
      ensures Occurs(occs, r[i].id) && r[i] == FusedRow(occs, r[i].id, k).(rank := Some(i + 1))
    {
      assert sorted[i] in sorted;
    }
  }

  /** No id appears twice in the fused list. */
  lemma FuseRRFUniqueIds(bm25Hits: seq<Hit>, vectorHits: seq<Hit>, k0: Option<nat>, topK: Option<int>)
    ensures var r := FuseRRF(bm25Hits, vectorHits, k0, topK);
      forall i, j :: 0 <= i < j < |r| ==> r[i].id != r[j].id
  {
    var occs := Occurrences(bm25Hits, vectorHits);
    FuseRRFIsCut(bm25Hits, vectorHits, k0, topK);
    SortedRowsOrder(occs, k0.GetOr(DefaultK0), c => FirstSeen(occs, c));
    var r := FuseRRF(bm25Hits, vectorHits, k0, topK);
    var sorted := SortedRows(occs, k0.GetOr(DefaultK0));
    assert forall i :: 0 <= i < |r| ==> r[i].id == IdOf(sorted[i]);
  }

  /**
   * The fused list is ordered by fused score, highest first; rows with equal
   * scores keep the order in which their ids were first seen (bm25 list first).
   */
  lemma FuseRRFOrder(bm25Hits: seq<Hit>, vectorHits: seq<Hit>, k0: Option<nat>, topK: Option<int>)
    ensures var r := FuseRRF(bm25Hits, vectorHits, k0, topK);
      var occs := Occurrences(bm25Hits, vectorHits);
      forall i, j :: 0 <= i < j < |r| ==>
        Occurs(occs, r[i].id) && Occurs(occs, r[j].id) &&
        (r[i].fusedScore > r[j].fusedScore
         || (r[i].fusedScore == r[j].fusedScore && FirstIndex(occs, r[i].id) < FirstIndex(occs, r[j].id)))
  {
    var occs := Occurrences(bm25Hits, vectorHits);
    var tie := (c: Candidate) => FirstSeen(occs, c);
    FuseRRFIsCut(bm25Hits, vectorHits, k0, topK);
    SortedRowsOrder(occs, k0.GetOr(DefaultK0), tie);
    SortedRowsMembers(occs, k0.GetOr(DefaultK0));
    var r := FuseRRF(bm25Hits, vectorHits, k0, topK);
    var sorted := SortedRows(occs, k0.GetOr(DefaultK0));
    forall i | 0 <= i < |r|
      ensures Occurs(occs, r[i].id) && r[i].id == sorted[i].id && r[i].fusedScore == FusedScoreOf(sorted[i])
      ensures tie(sorted[i]) == FirstIndex(occs, r[i].id)
    {
      assert sorted[i] in sorted;
    }
  }

  /** No id left out by the cut has a higher fused score than any id kept. */
  lemma CutKeepsBest(sorted: seq<Candidate>, topK: int, j: nat)
    requires Descending(sorted, FusedScoreOf)
    requires |Ranked(Take(sorted, topK))| <= j < |sorted|
    ensures var r := Ranked(Take(sorted, topK));
      forall i :: 0 <= i < |r| ==> sorted[j].fusedScore <= r[i].fusedScore
  {
    CutIsNumberedPrefix(sorted, topK);
    var r := Ranked(Take(sorted, topK));
    forall i | 0 <= i < |r| ensures sorted[j].fusedScore <= r[i].fusedScore {
      assert FusedScoreOf(sorted[i]) >= FusedScoreOf(sorted[j]);
    }
  }

  lemma SortedRowsDescending(occs: seq<Occurrence>, k0: nat)
    ensures Descending(SortedRows(occs, k0), FusedScoreOf)
  {
    FoldKeysPresent(EmptyMap, occs, k0);
    SortDescDescending(Rows(Fold(EmptyMap, occs, k0)), FusedScoreOf);
  }

  lemma SortedRowScore(occs: seq<Occurrence>, k0: nat, j: nat)
    requires j < |SortedRows(occs, k0)|
    ensures Occurs(occs, SortedRows(occs, k0)[j].id)
    ensures SortedRows(occs, k0)[j].fusedScore == Score(occs, SortedRows(occs, k0)[j].id, k0)
  {
    SortedRowsMembers(occs, k0);
    assert SortedRows(occs, k0)[j] in SortedRows(occs, k0);
  }

  /** An id the cut leaves out scores no higher than any row kept. */
  lemma FuseRRFKeepsBest(bm25Hits: seq<Hit>, vectorHits: seq<Hit>, k0: Option<nat>, topK: Option<int>, id: Id)
    requires Occurs(Occurrences(bm25Hits, vectorHits), id)
    requires forall i :: 0 <= i < |FuseRRF(bm25Hits, vectorHits, k0, topK)| ==> FuseRRF(bm25Hits, vectorHits, k0, topK)[i].id != id
    ensures var r := FuseRRF(bm25Hits, vectorHits, k0, topK);
      forall i :: 0 <= i < |r| ==> Score(Occurrences(bm25Hits, vectorHits), id, k0.GetOr(DefaultK0)) <= r[i].fusedScore
  {
    var occs := Occurrences(bm25Hits, vectorHits);
    var k := k0.GetOr(DefaultK0);
    var n := topK.GetOr(DefaultTopK);
    var sorted := SortedRows(occs, k);
    FuseRRFIsCut(bm25Hits, vectorHits, k0, topK);
    SortedRowsComplete(occs, k, id);
    var j :| 0 <= j < |sorted| && sorted[j].id == id;
    CutIsNumberedPrefix(sorted, n);
    assert j >= |Ranked(Take(sorted, n))|;
    SortedRowsDescending(occs, k);
    CutKeepsBest(sorted, n, j);
    SortedRowScore(occs, k, j);
  }

  lemma OccursTagged(hits: seq<Hit>, source: Source, id: Id)
    ensures Occurs(Tagged(hits, source), id) <==> id in IdSet(hits)
  {
    var t := Tagged(hits, source);
    if id in IdSet(hits) {
      var i :| 0 <= i < |hits| && hits[i].id == id;
      assert t[i].hit == hits[i];
    }
  }

  /** An id is fused iff one of the two lists returned it. */
  lemma OccursEither(bm25Hits: seq<Hit>, vectorHits: seq<Hit>, id: Id)
    ensures Occurs(Occurrences(bm25Hits, vectorHits), id) <==> id in IdSet(bm25Hits) + IdSet(vectorHits)
  {
    var a := Tagged(bm25Hits, Bm25);
    var b := Tagged(vectorHits, Vector);
    var s := a + b;
    OccursTagged(bm25Hits, Bm25, id);
    OccursTagged(vectorHits, Vector, id);
    if Occurs(s, id) {
      var i :| 0 <= i < |s| && s[i].hit.id == id;
      if i < |a| {
        assert s[i] == a[i];
      } else {
        assert s[i] == b[i - |a|];
      }
    }
    if Occurs(a, id) {
      var i :| 0 <= i < |a| && a[i].hit.id == id;
      assert s[i] == a[i];
    }
    if Occurs(b, id) {
      var i :| 0 <= i < |b| && b[i].hit.id == id;
      assert s[|a| + i] == b[i];
    }
  }

  lemma KeysAreIds(bm25Hits: seq<Hit>, vectorHits: seq<Hit>, k0: nat)
    ensures (set id | id in Fold(EmptyMap, Occurrences(bm25Hits, vectorHits), k0).keys)
         == IdSet(bm25Hits) + IdSet(vectorHits)
  {
    var occs := Occurrences(bm25Hits, vectorHits);
    var m := Fold(EmptyMap, occs, k0);
    forall id ensures id in m.keys <==> id in IdSet(bm25Hits) + IdSet(vectorHits) {
      FoldBuildsFusedRows(occs, k0);
      OccursEither(bm25Hits, vectorHits, id);
    }
  }

  /** The sorted rows hold one row per distinct id of the two lists. */
  lemma SortedRowsCountIds(bm25Hits: seq<Hit>, vectorHits: seq<Hit>, k0: nat)
    ensures |SortedRows(Occurrences(bm25Hits, vectorHits), k0)| == |IdSet(bm25Hits) + IdSet(vectorHits)|
  {
    SortedRowsCount(Occurrences(bm25Hits, vectorHits), k0);
    KeysAreIds(bm25Hits, vectorHits, k0);
  }

  /** The fused list holds `min(topK, number of distinct ids)` rows, with JavaScript's negative `slice` end. */
  lemma FuseRRFLength(bm25Hits: seq<Hit>, vectorHits: seq<Hit>, k0: Option<nat>, topK: Option<int>)
    ensures |FuseRRF(bm25Hits, vectorHits, k0, topK)|
         == SliceEnd(|IdSet(bm25Hits) + IdSet(vectorHits)|, topK.GetOr(DefaultTopK))
  {
    FuseRRFIsCut(bm25Hits, vectorHits, k0, topK);
    SortedRowsCountIds(bm25Hits, vectorHits, k0.GetOr(DefaultK0));
  }

  lemma {:induction false} ScoreConcat(a: seq<Occurrence>, b: seq<Occurrence>, id: Id, k0: nat)
    ensures Score(a + b, id, k0) == Score(a, id, k0) + Score(b, id, k0)
    decreases |b|
  {
    if b == [] {
      assert a + b == a;
    } else {
      var n := |b| - 1;
      assert (a + b)[..|a + b| - 1] == a + b[..n];
      ScoreConcat(a, b[..n], id, k0);
    }
  }

  lemma {:induction false} ScoreTagged(hits: seq<Hit>, source: Source, id: Id, k0: nat)
    ensures Score(Tagged(hits, source), id, k0) == RrfSum(hits, id, k0)
    decreases |hits|
  {
    if hits != [] {
      var n := |hits| - 1;
      var t := Tagged(hits, source);
      assert t[..n] == Tagged(hits[..n], source);
      ScoreTagged(hits[..n], source, id, k0);
    }
  }

  /** A source took part in a row iff it returned the row's id; its score is absent otherwise. */
  lemma LastFromTagged(bm25Hits: seq<Hit>, vectorHits: seq<Hit>, id: Id)
    ensures var occs := Occurrences(bm25Hits, vectorHits);
      && (LastFrom(occs, id, Bm25) >= 0 <==> id in IdSet(bm25Hits))
      && (LastFrom(occs, id, Vector) >= 0 <==> id in IdSet(vectorHits))
  {
    var a := Tagged(bm25Hits, Bm25);
    var b := Tagged(vectorHits, Vector);
    var s := a + b;
    var lb := LastFrom(s, id, Bm25);
    var lv := LastFrom(s, id, Vector);
    if lb >= 0 {
      assert s[lb].source == Bm25;
      assert lb < |a| && s[lb] == a[lb];
    }
    if id in IdSet(bm25Hits) {
      var i :| 0 <= i < |bm25Hits| && bm25Hits[i].id == id;
      assert s[i] == a[i];
    }
    if lv >= 0 {
      assert s[lv].source == Vector;
      assert lv >= |a| && s[lv] == b[lv - |a|];
    }
    if id in IdSet(vectorHits) {
      var i :| 0 <= i < |vectorHits| && vectorHits[i].id == id;
      assert s[|a| + i] == b[i];
    }
  }

  /** The scores and ranks of the fused row of one id, in terms of the two lists. */
  lemma FusedRowScores(bm25Hits: seq<Hit>, vectorHits: seq<Hit>, id: Id, k: nat)
    requires Occurs(Occurrences(bm25Hits, vectorHits), id)
    ensures var row := FusedRow(Occurrences(bm25Hits, vectorHits), id, k);
      && row.fusedScore == RrfSum(bm25Hits, id, k) + RrfSum(vectorHits, id, k)
      && (Bm25 in row.ranks <==> id in IdSet(bm25Hits))
      && (Vector in row.ranks <==> id in IdSet(vectorHits))
      && (id !in IdSet(bm25Hits) ==> row.bm25Score == None)
      && (id !in IdSet(vectorHits) ==> row.vectorScore == None)
  {
    ScoreConcat(Tagged(bm25Hits, Bm25), Tagged(vectorHits, Vector), id, k);
    ScoreTagged(bm25Hits, Bm25, id, k);
    ScoreTagged(vectorHits, Vector, id, k);
    LastFromTagged(bm25Hits, vectorHits, id);
  }

  /**
   * The fused score of a row is the RRF sum over the bm25 list plus that over
   * the vector list; an id both lists returned scores above either part. A
   * source that did not return the id leaves its score and rank unset.
   */
  lemma FuseRRFScores(bm25Hits: seq<Hit>, vectorHits: seq<Hit>, k0: Option<nat>, topK: Option<int>)
    ensures var r := FuseRRF(bm25Hits, vectorHits, k0, topK);
      var k := k0.GetOr(DefaultK0);
      forall i :: 0 <= i < |r| ==>
        && r[i].fusedScore == RrfSum(bm25Hits, r[i].id, k) + RrfSum(vectorHits, r[i].id, k)
        && (r[i].id in IdSet(bm25Hits) && r[i].id in IdSet(vectorHits) ==>
              r[i].fusedScore > RrfSum(bm25Hits, r[i].id, k) && r[i].fusedScore > RrfSum(vectorHits, r[i].id, k))
        && (Bm25 in r[i].ranks <==> r[i].id in IdSet(bm25Hits))
        && (Vector in r[i].ranks <==> r[i].id in IdSet(vectorHits))
        && (r[i].id !in IdSet(bm25Hits) ==> r[i].bm25Score == None)
        && (r[i].id !in IdSet(vectorHits) ==> r[i].vectorScore == None)
  {
    var occs := Occurrences(bm25Hits, vectorHits);
    var k := k0.GetOr(DefaultK0);
    var r := FuseRRF(bm25Hits, vectorHits, k0, topK);
    FuseRRFRows(bm25Hits, vectorHits, k0, topK);
    forall i | 0 <= i < |r|
      ensures r[i].fusedScore == RrfSum(bm25Hits, r[i].id, k) + RrfSum(vectorHits, r[i].id, k)
      ensures Bm25 in r[i].ranks <==> r[i].id in IdSet(bm25Hits)
      ensures Vector in r[i].ranks <==> r[i].id in IdSet(vectorHits)
      ensures r[i].id !in IdSet(bm25Hits) ==> r[i].bm25Score == None
      ensures r[i].id !in IdSet(vectorHits) ==> r[i].vectorScore == None
    {
      FusedRowScores(bm25Hits, vectorHits, r[i].id, k);
    }
  }

  /** When `topK` is at least the number of distinct ids, every id returned by either list is in the fused list. */
  lemma FuseRRFKeepsAll(bm25Hits: seq<Hit>, vectorHits: seq<Hit>, k0: Option<nat>, topK: Option<int>, id: Id)
    requires topK.GetOr(DefaultTopK) >= |IdSet(bm25Hits) + IdSet(vectorHits)|
    requires id in IdSet(bm25Hits) + IdSet(vectorHits)
    ensures var r := FuseRRF(bm25Hits, vectorHits, k0, topK);
      exists i :: 0 <= i < |r| && r[i].id == id
  {
    var occs := Occurrences(bm25Hits, vectorHits);
    var k := k0.GetOr(DefaultK0);
    var sorted := SortedRows(occs, k);
    FuseRRFIsCut(bm25Hits, vectorHits, k0, topK);
    SortedRowsCountIds(bm25Hits, vectorHits, k);
    OccursEither(bm25Hits, vectorHits, id);
    SortedRowsComplete(occs, k, id);
    var j :| 0 <= j < |sorted| && sorted[j].id == id;
    CutIsNumberedPrefix(sorted, topK.GetOr(DefaultTopK));
    assert FuseRRF(bm25Hits, vectorHits, k0, topK)[j].id == id;
  }

  // ---------------------------------------------------------------------------
  // Two concrete cases.
  // ---------------------------------------------------------------------------

  /** Lexical hits 1, 2 and vector hits 2, 3, each list ranked 1, 2; texts and scores are free. */
  predicate IsScenario(bm25Hits: seq<Hit>, vectorHits: seq<Hit>) {
    && |bm25Hits| == 2 && |vectorHits| == 2
    && bm25Hits[0].id == "1" && bm25Hits[0].rank == Some(1)
    && bm25Hits[1].id == "2" && bm25Hits[1].rank == Some(2)
    && vectorHits[0].id == "2" && vectorHits[0].rank == Some(1)
    && vectorHits[1].id == "3" && vectorHits[1].rank == Some(2)
  }

  function ScenarioScore(id: Id): real {
    if id == "1" then 1.0 / 61.0
    else if id == "2" then 1.0 / 62.0 + 1.0 / 61.0
    else if id == "3" then 1.0 / 62.0
    else 0.0
  }

  /** The RRF sum and the ids of a list of two hits. */
  lemma TwoHits(hits: seq<Hit>, id: Id, k0: nat)
    requires |hits| == 2
    ensures IdSet(hits) == {hits[0].id, hits[1].id}
    ensures RrfSum(hits, id, k0)
         == (if hits[0].id == id then Contribution(k0, RankAt(hits, 0)) else 0.0)
          + (if hits[1].id == id then Contribution(k0, RankAt(hits, 1)) else 0.0)
  {
    var first := hits[..1];
    assert first[..0] == [];
    assert RankAt(first, 0) == RankAt(hits, 0);
    assert RrfSum(first, id, k0) == (if hits[0].id == id then Contribution(k0, RankAt(hits, 0)) else 0.0);
  }

  lemma ScenarioScores(bm25Hits: seq<Hit>, vectorHits: seq<Hit>, id: Id)
    requires IsScenario(bm25Hits, vectorHits)
    ensures IdSet(bm25Hits) + IdSet(vectorHits) == {"1", "2", "3"}
    ensures RrfSum(bm25Hits, id, 60) + RrfSum(vectorHits, id, 60) == ScenarioScore(id)
  {
    TwoHits(bm25Hits, id, 60);
    TwoHits(vectorHits, id, 60);
    assert RankAt(bm25Hits, 0) == 1 && RankAt(bm25Hits, 1) == 2;
    assert RankAt(vectorHits, 0) == 1 && RankAt(vectorHits, 1) == 2;
    assert Contribution(60, 1) == 1.0 / 61.0 && Contribution(60, 2) == 1.0 / 62.0;
  }

  lemma ScenarioOrder(r: seq<Candidate>, i1: nat, i2: nat, i3: nat)
    requires |r| == 3 && i1 < 3 && i2 < 3 && i3 < 3
    requires r[i1].id == "1" && r[i2].id == "2" && r[i3].id == "3"
    requires forall i :: 0 <= i < |r| ==> r[i].fusedScore == ScenarioScore(r[i].id)
    requires forall i, j :: 0 <= i < j < |r| ==> r[i].fusedScore >= r[j].fusedScore
    ensures i2 == 0 && i1 == 1 && i3 == 2
  {
    assert ScenarioScore("2") > ScenarioScore("1") > ScenarioScore("3");
  }

  /** Where ids 1, 2 and 3 sit in the scenario's fused list: all three are there. */
  lemma ScenarioPositions(bm25Hits: seq<Hit>, vectorHits: seq<Hit>) returns (i1: nat, i2: nat, i3: nat)
    requires IsScenario(bm25Hits, vectorHits)
    ensures var r := FuseRRF(bm25Hits, vectorHits, Some(60), Some(10));
      i1 < |r| && i2 < |r| && i3 < |r| && r[i1].id == "1" && r[i2].id == "2" && r[i3].id == "3"
  {
    var r := FuseRRF(bm25Hits, vectorHits, Some(60), Some(10));
    ScenarioScores(bm25Hits, vectorHits, "1");
    assert |{"1", "2", "3"}| == 3;
    FuseRRFKeepsAll(bm25Hits, vectorHits, Some(60), Some(10), "1");
    FuseRRFKeepsAll(bm25Hits, vectorHits, Some(60), Some(10), "2");
    FuseRRFKeepsAll(bm25Hits, vectorHits, Some(60), Some(10), "3");
    i1 :| 0 <= i1 < |r| && r[i1].id == "1";
    i2 :| 0 <= i2 < |r| && r[i2].id == "2";
    i3 :| 0 <= i3 < |r| && r[i3].id == "3";
  }

  lemma ScenarioLength(bm25Hits: seq<Hit>, vectorHits: seq<Hit>)
    requires IsScenario(bm25Hits, vectorHits)
    ensures |FuseRRF(bm25Hits, vectorHits, Some(60), Some(10))| == 3
  {
    ScenarioScores(bm25Hits, vectorHits, "1");
    FuseRRFLength(bm25Hits, vectorHits, Some(60), Some(10));
    assert |{"1", "2", "3"}| == 3;
  }

  lemma ScenarioRowScores(bm25Hits: seq<Hit>, vectorHits: seq<Hit>)
    requires IsScenario(bm25Hits, vectorHits)
    ensures var r := FuseRRF(bm25Hits, vectorHits, Some(60), Some(10));
      forall i :: 0 <= i < |r| ==> r[i].fusedScore == ScenarioScore(r[i].id)
  {
    var r := FuseRRF(bm25Hits, vectorHits, Some(60), Some(10));
    FuseRRFScores(bm25Hits, vectorHits, Some(60), Some(10));
    forall i | 0 <= i < |r| ensures r[i].fusedScore == ScenarioScore(r[i].id) {
      ScenarioScores(bm25Hits, vectorHits, r[i].id);
    }
  }

  lemma ScenarioDescending(bm25Hits: seq<Hit>, vectorHits: seq<Hit>)
    ensures var r := FuseRRF(bm25Hits, vectorHits, Some(60), Some(10));
      forall i, j :: 0 <= i < j < |r| ==> r[i].fusedScore >= r[j].fusedScore
  {
    FuseRRFOrder(bm25Hits, vectorHits, Some(60), Some(10));
  }

  /**
   * Lexical hits 1, 2 and vector hits 2, 3 (ranks 1, 2 in each list) fuse to
   * 2, 1, 3: id 2 scores 1/62 + 1/61, id 1 scores 1/61, id 3 scores 1/62.
   */
  lemma FuseRRFScenario(bm25Hits: seq<Hit>, vectorHits: seq<Hit>)
    requires IsScenario(bm25Hits, vectorHits)
    ensures var r := FuseRRF(bm25Hits, vectorHits, Some(60), Some(10));
      && |r| == 3
      && r[0].id == "2" && r[0].fusedScore == 1.0 / 62.0 + 1.0 / 61.0
      && r[1].id == "1" && r[1].fusedScore == 1.0 / 61.0
      && r[2].id == "3" && r[2].fusedScore == 1.0 / 62.0
  {
    var r := FuseRRF(bm25Hits, vectorHits, Some(60), Some(10));
    ScenarioLength(bm25Hits, vectorHits);
    ScenarioRowScores(bm25Hits, vectorHits);
    ScenarioDescending(bm25Hits, vectorHits);
    var i1, i2, i3 := ScenarioPositions(bm25Hits, vectorHits);
    ScenarioOrder(r, i1, i2, i3);
  }

  /** An id listed twice by one source is counted twice. */
  lemma DuplicateIdCountsTwice(h: Hit)
    requires h.rank == None
    ensures var r := FuseRRF([h, h], [], Some(60), Some(10));
      |r| == 1 && r[0].id == h.id
      && r[0].fusedScore == 1.0 / 61.0 + 1.0 / 62.0
  {
    var bm25 := [h, h];
    var r := FuseRRF(bm25, [], Some(60), Some(10));
    assert IdSet(bm25) == {h.id};
    assert IdSet([]) == {};
    FuseRRFLength(bm25, [], Some(60), Some(10));
    FuseRRFRows(bm25, [], Some(60), Some(10));
    OccursEither(bm25, [], r[0].id);
    FuseRRFScores(bm25, [], Some(60), Some(10));
    assert bm25[..1] == [h] && [h][..0] == [];
    assert RankAt(bm25, 1) == 2 && RankAt([h], 0) == 1;
    assert RrfSum(bm25, h.id, 60) == RrfSum([h], h.id, 60) + 1.0 / 62.0;
  }
}
