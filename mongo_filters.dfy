/**
 * The filter translator (`buildMongoFilters`): turns the request's filter
 * fields into one MongoDB `$match` predicate that both retrieval pipelines use.
 */
module MongoFilters {
  import opened Wrappers
  import opened JsString
  import opened Documents

  /** `new Date(text)`, kept opaque. */
  datatype Date = DateOf(source: string)

  /**
   * The request fields (`filters`, the HTTP query object) the pipeline reads.
   * `meta` is None when absent, null or not an object, and lists the object's
   * own entries otherwise; `ids` is None when absent or not an array.
   * `fusion`, `rerank`, `model`, `preRerankK` and `maxDocChars` are read by the
   * hybrid orchestrator only.
   */
  datatype Filters = Filters(
    createdAfter: Option<string>,
    createdBefore: Option<string>,
    meta: Option<map<string, string>>,
    ids: Option<seq<Id>>,
    fusion: Option<string>,
    rerank: bool,
    model: Option<string>,
    preRerankK: Option<int>,
    maxDocChars: Option<int>)

  /** The value stored under one key of the predicate. */
  datatype Condition =
    | Exists(present: bool)                           // { $exists: present }
    | DateRange(gte: Option<Date>, lte: Option<Date>) // { $gte?, $lte? }
    | Equals(value: string)                           // a bare value: field equality
    | In(values: seq<Id>)                             // { $in: values }

  /** A MongoDB predicate object: field path to condition. */
  type Match = map<string, Condition>

  const MetaPrefix: string := "meta."

  /** The dotted field path of a metadata key, `meta.${k}`. */
  function MetaPath(k: string): (path: string)
    ensures StartsWith(path, MetaPrefix) && path[|MetaPrefix|..] == k
  {
    MetaPrefix + k
  }

  /** Paths the translator writes besides `meta.*` never start with `meta.`. */
  lemma MetaPathIsNotFixed(k: string)
    ensures MetaPath(k) != "title" && MetaPath(k) != "createdAt" && MetaPath(k) != "_id"
  {
    assert MetaPath(k)[0] == 'm';
  }

  /** One equality condition per entry of `entries` whose key is in `keys`. */
  function MetaConditions(entries: map<string, string>, keys: set<string>): (m: Match)
    requires keys <= entries.Keys
    ensures forall k :: k in keys ==> MetaPath(k) in m && m[MetaPath(k)] == Equals(entries[k])
    ensures forall path :: path in m ==>
      StartsWith(path, MetaPrefix) && path[|MetaPrefix|..] in keys
  {
    map k | k in keys :: MetaPath(k) := Equals(entries[k])
  }

  /** A path that starts with `meta.` is the path of the key after the prefix. */
  lemma MetaPathOfSuffix(path: string)
    requires StartsWith(path, MetaPrefix)
    ensures path == MetaPath(path[|MetaPrefix|..])
  {
    assert path == path[..|MetaPrefix|] + path[|MetaPrefix|..];
  }

  /** Updating a union updates its right-hand side. */
  lemma UpdateUnion<K, V>(a: map<K, V>, b: map<K, V>, key: K, value: V)
    ensures (a + b)[key := value] == a + b[key := value]
  {
  }

  /** The conditions of one more key are the old ones with that key's condition written in. */
  lemma MetaConditionsAdd(entries: map<string, string>, done: set<string>, k: string)
    requires done <= entries.Keys && k in entries
    ensures MetaConditions(entries, done + {k}) == MetaConditions(entries, done)[MetaPath(k) := Equals(entries[k])]
  {
    var before := MetaConditions(entries, done);
    var after := MetaConditions(entries, done + {k});
    forall path | path in after ensures path in before[MetaPath(k) := Equals(entries[k])] {
      MetaPathOfSuffix(path);
    }
    forall path | path in before ensures path in after && after[path] == before[path] {
      MetaPathOfSuffix(path);
    }
  }

  /** Writing one more entry extends the metadata conditions by exactly that entry. */
  lemma MetaConditionsGrow(base: Match, entries: map<string, string>, done: set<string>, k: string)
    requires done <= entries.Keys && k in entries
    ensures (base + MetaConditions(entries, done))[MetaPath(k) := Equals(entries[k])]
         == base + MetaConditions(entries, done + {k})
  {
    MetaConditionsAdd(entries, done, k);
    UpdateUnion(base, MetaConditions(entries, done), MetaPath(k), Equals(entries[k]));
  }

  predicate IsMetaPath(path: string, meta: Option<map<string, string>>) {
    meta.Some? && StartsWith(path, MetaPrefix) && path[|MetaPrefix|..] in meta.value
  }

  function Bound(text: Option<string>): Option<Date> {
    if Truthy(text) then Some(DateOf(text.value)) else None
  }

  /** The fixed part of the predicate: the `title` check and the optional date range. */
  function DatedMatch(f: Filters): (m: Match)
    ensures "title" in m && m["title"] == Exists(true)
    ensures "createdAt" in m <==> Truthy(f.createdAfter) || Truthy(f.createdBefore)
    ensures "createdAt" in m ==> m["createdAt"] == DateRange(Bound(f.createdAfter), Bound(f.createdBefore))
    ensures m.Keys <= {"title", "createdAt"}
  {
    var titled := map["title" := Exists(true)];
    if Truthy(f.createdAfter) || Truthy(f.createdBefore)
    then titled["createdAt" := DateRange(Bound(f.createdAfter), Bound(f.createdBefore))]
    else titled
  }

  function MetaMatch(meta: Option<map<string, string>>): (m: Match)
    ensures meta.Some? ==> forall k :: k in meta.value ==>
      MetaPath(k) in m && m[MetaPath(k)] == Equals(meta.value[k])
    ensures forall path :: path in m ==> IsMetaPath(path, meta)
    ensures forall path :: path in m ==> path != "title" && path != "createdAt" && path != "_id"
  {
    var m := if meta.Some? then MetaConditions(meta.value, meta.value.Keys) else map[];
    forall path | path in m ensures path != "title" && path != "createdAt" && path != "_id" {
      MetaPathIsNotFixed(path[|MetaPrefix|..]);
      assert path == MetaPath(path[|MetaPrefix|..]);
    }
    m
  }

  /** The predicate `buildMongoFilters(filters)` returns, described key by key. */
  function MongoMatch(f: Filters): (m: Match)
    // the existence check on `title` is always there
    ensures "title" in m && m["title"] == Exists(true)
    // `createdAt` is there iff a bound is given; each bound iff its field is truthy
    ensures "createdAt" in m <==> Truthy(f.createdAfter) || Truthy(f.createdBefore)
    ensures "createdAt" in m ==> m["createdAt"] == DateRange(Bound(f.createdAfter), Bound(f.createdBefore))
    ensures "createdAt" in m ==> (m["createdAt"].gte.Some? <==> Truthy(f.createdAfter))
    ensures "createdAt" in m ==> (m["createdAt"].lte.Some? <==> Truthy(f.createdBefore))
    // every metadata entry becomes an equality on `meta.<key>`
    ensures f.meta.Some? ==> forall k :: k in f.meta.value ==>
      MetaPath(k) in m && m[MetaPath(k)] == Equals(f.meta.value[k])
    // the id allow-list iff a non-empty array is given
    ensures "_id" in m <==> f.ids.Some? && f.ids.value != []
    ensures "_id" in m ==> m["_id"] == In(f.ids.value)
    // nothing else
    ensures forall path :: path in m ==>
      path == "title" || path == "createdAt" || path == "_id" || IsMetaPath(path, f.meta)
  {
    var dated := DatedMatch(f);
    var metas := MetaMatch(f.meta);
    var merged := dated + metas;
    if f.ids.Some? && |f.ids.value| > 0 then merged["_id" := In(f.ids.value)] else merged
  }

  /** The `for (const [k, v] of Object.entries(meta))` loop: writes `meta.<k> = v` for every entry. */
  method WriteMetaConditions(m0: Match, entries: map<string, string>) returns (m: Match)
    ensures m == m0 + MetaConditions(entries, entries.Keys)
  {
    m := m0 + map[];
    var pending := entries.Keys;
    ghost var done: set<string> := {};
    while pending != {}
      invariant done + pending == entries.Keys && done !! pending
      invariant m == m0 + MetaConditions(entries, done)
      decreases pending
    {
      var k :| k in pending;
      MetaConditionsGrow(m0, entries, done, k);
      m := m[MetaPath(k) := Equals(entries[k])];
      pending := pending - {k};
      done := done + {k};
    }
  }

  /** The translator as written: a fresh predicate built up one key at a time. */
  method BuildMongoFilters(f: Filters) returns (m: Match)
    ensures m == MongoMatch(f)
  {
    m := map["title" := Exists(true)];

    if Truthy(f.createdAfter) {
      // `match.createdAt || {}` is still `{}` here
      m := m["createdAt" := DateRange(Some(DateOf(f.createdAfter.value)), None)];
    }

    if Truthy(f.createdBefore) {
      var range := if "createdAt" in m then m["createdAt"] else DateRange(None, None);
      m := m["createdAt" := range.(lte := Some(DateOf(f.createdBefore.value)))];
    }
    assert m == DatedMatch(f);

    if f.meta.Some? {
      m := WriteMetaConditions(m, f.meta.value);
    } else {
      assert m == m + MetaMatch(f.meta);
    }

    if f.ids.Some? && |f.ids.value| > 0 {
      m := m["_id" := In(f.ids.value)];
    }
  }
}
