/**
 * The enrichment script: asks a language model for a title and up to ten tags
 * per stored text, strips the Markdown code fence the model may wrap its JSON
 * in, validates the parsed answer, and writes title and tags back item by
 * item, counting successes and failures.
 */
module Enrich {
  import opened Wrappers
  import opened JsString
  import opened Documents
  import opened Json

  // ---------------------------------------------------------------------------
  // Code-fence stripping.
  // ---------------------------------------------------------------------------

  const Fence: string := "```"
  const JsonFence: string := "```json"

  /** `x.replace(/\s*```$/, "")`: a closing fence and the blanks before it removed. */
  function CloseFence(x: string): (r: string)
    ensures |r| <= |x|
    ensures EndsWith(x, Fence) ==> |r| <= |x| - |Fence|
  {
    if EndsWith(x, Fence) then TrimEnd(x[..|x| - |Fence|]) else x
  }

  /**
   * The fence removal on the trimmed response: an opening ```` ```json ```` or,
   * failing that, ```` ``` ```` with the blanks after it, then a closing fence
   * with the blanks before it.
   */
  function StripFence(s: string): (r: string)
    ensures |r| <= |s|
  {
    if StartsWith(s, JsonFence) then CloseFence(TrimStart(s[|JsonFence|..]))
    else if StartsWith(s, Fence) then CloseFence(TrimStart(s[|Fence|..]))
    else s
  }

  /** `response.text.trim()` followed by the fence removal: the text handed to `JSON.parse`. */
  function CleanResponse(responseText: string): string {
    StripFence(Trim(responseText))
  }

  /** Only a fenced text is changed, and a fenced one always loses its opening fence. */
  lemma StripFenceChanges(s: string)
    ensures StripFence(s) == s <==> !StartsWith(s, Fence)
    ensures StartsWith(s, Fence) ==> |StripFence(s)| <= |s| - |Fence|
  {
    if StartsWith(s, JsonFence) {
      assert s[..|Fence|] == s[..|JsonFence|][..|Fence|];
    }
  }

  /** JSON text that starts and ends with a non-blank character (or is empty). */
  predicate Clean(t: string) {
    t == [] || (!IsWhitespace(t[0]) && !IsWhitespace(t[|t| - 1]))
  }

  /** Removing an opening fence of length `n` and then a closing fence around clean text gives the text back. */
  lemma UnwrapFence(s: string, n: nat, w1: string, t: string, w2: string)
    requires AllWhitespace(w1) && AllWhitespace(w2) && Clean(t)
    requires n <= |s| && s[n..] == w1 + t + w2 + Fence
    ensures CloseFence(TrimStart(s[n..])) == t
  {
    var inner := w1 + (t + w2 + Fence);
    assert s[n..] == inner;
    if t == [] {
      assert w2 + Fence == (w2 + Fence)[..|w2|] + Fence;
      TrimStartOfClean(w1 + w2, Fence);
      assert inner == (w1 + w2) + Fence;
      assert Fence[|Fence| - |Fence|..] == Fence;
      assert TrimEnd([]) == [];
    } else {
      TrimStartOfClean(w1, t + w2 + Fence);
      var x := t + w2 + Fence;
      assert x[|x| - |Fence|..] == Fence;
      assert x[..|x| - |Fence|] == t + w2;
      TrimEndOfClean(t, w2);
    }
  }

  /** A ```` ```json ```` fence around clean JSON text is removed exactly. */
  lemma JsonFenceRoundTrip(w1: string, t: string, w2: string)
    requires AllWhitespace(w1) && AllWhitespace(w2) && Clean(t)
    ensures CleanResponse(JsonFence + w1 + t + w2 + Fence) == t
  {
    var s := JsonFence + w1 + t + w2 + Fence;
    assert s[0] == '`' && s[|s| - 1] == '`';
    TrimOfClean(s);
    assert s[..|JsonFence|] == JsonFence;
    assert s[|JsonFence|..] == w1 + t + w2 + Fence;
    UnwrapFence(s, |JsonFence|, w1, t, w2);
  }

  /** Blanks, or text that does not start with `json`, after a plain fence keep it from reading as ```` ```json ````. */
  lemma NotJsonFenced(w1: string, t: string, w2: string)
    requires AllWhitespace(w1) && AllWhitespace(w2) && Clean(t)
    requires w1 != [] || !StartsWith(t, "json")
    ensures !StartsWith(Fence + w1 + t + w2 + Fence, JsonFence)
  {
    var rest := w1 + t + w2 + Fence;
    var s := Fence + rest;
    if |s| >= |JsonFence| {
      var p := s[..|JsonFence|];
      assert p[|Fence|..] == rest[..4];
      if w1 != [] {
        assert rest[0] == w1[0];
        assert p[|Fence|] != JsonFence[|Fence|];
      } else if |t| >= 4 {
        assert rest[..4] == t[..4];
        assert p[|Fence|..] != JsonFence[|Fence|..];
      } else {
        var i := |t|;
        assert rest[i] == (w2 + Fence)[0];
        assert p[|Fence| + i] == rest[i];
        assert p[|Fence| + i] != JsonFence[|Fence| + i];
      }
    }
  }

  /**
   * A plain ```` ``` ```` fence is removed exactly too, unless nothing separates
   * it from text that starts with `json`: that answer takes the json branch.
   */
  lemma PlainFenceRoundTrip(w1: string, t: string, w2: string)
    requires AllWhitespace(w1) && AllWhitespace(w2) && Clean(t)
    requires w1 != [] || !StartsWith(t, "json")
    ensures CleanResponse(Fence + w1 + t + w2 + Fence) == t
  {
    var s := Fence + w1 + t + w2 + Fence;
    assert s[0] == '`' && s[|s| - 1] == '`';
    TrimOfClean(s);
    assert s[..|Fence|] == Fence;
    NotJsonFenced(w1, t, w2);
    assert s[|Fence|..] == w1 + t + w2 + Fence;
    UnwrapFence(s, |Fence|, w1, t, w2);
  }

  /** Unfenced clean text reaches `JSON.parse` unchanged. */
  lemma UnfencedUnchanged(t: string)
    requires Clean(t) && !StartsWith(t, Fence)
    ensures CleanResponse(t) == t
  {
    if t != [] {
      TrimOfClean(t);
    }
  }

  // ---------------------------------------------------------------------------
  // Validation of the parsed answer.
  // ---------------------------------------------------------------------------

  const MaxTags := 10
  const NullTitle: string := "Cannot read properties of null (reading 'title')"
  const InvalidTitle: string := "Invalid response: missing or invalid title"
  const TagsNotArray: string := "Invalid response: tags must be an array"
  const TooManyTags: string := "Invalid response: too many tags (max 10)"

  /** The object `generateTitleAndTags` returns. */
  datatype Enrichment = Enrichment(title: string, tags: seq<Json>)

  /** `parsed[key]`: present only on an object that has the key. */
  function Property(parsed: Json, key: string): (v: Option<Json>)
    ensures v.Some? <==> parsed.JObject? && key in parsed.fields
  {
    if parsed.JObject? && key in parsed.fields then Some(parsed.fields[key]) else None
  }

  /** `parsed.title` is truthy and a string. */
  predicate HasTitle(parsed: Json) {
    var t := Property(parsed, "title");
    t.Some? && t.value.JString? && t.value.s != ""
  }

  /** `Array.isArray(parsed.tags)`. */
  predicate HasTagArray(parsed: Json) {
    var t := Property(parsed, "tags");
    t.Some? && t.value.JArray?
  }

  /** The checks after `JSON.parse`, in their order; `null` fails on the property read itself. */
  function Validate(parsed: Json): (r: Result<Enrichment, Failure>)
    ensures r == Err(TypeError(NullTitle)) <==> parsed == JNull
    ensures r == Err(Error(InvalidTitle)) <==> parsed != JNull && !HasTitle(parsed)
    ensures r == Err(Error(TagsNotArray)) <==> HasTitle(parsed) && !HasTagArray(parsed)
    ensures r == Err(Error(TooManyTags)) <==>
      HasTitle(parsed) && HasTagArray(parsed) && |parsed.fields["tags"].elements| > MaxTags
    // success holds exactly the parsed title and tags
    ensures r.Ok? ==>
      && parsed.JObject?
      && Property(parsed, "title") == Some(JString(r.value.title))
      && Property(parsed, "tags") == Some(JArray(r.value.tags))
  {
    if parsed == JNull then Err(TypeError(NullTitle))
    else if !HasTitle(parsed) then Err(Error(InvalidTitle))
    else if !HasTagArray(parsed) then Err(Error(TagsNotArray))
    else
      var tags := parsed.fields["tags"].elements;
      if |tags| > MaxTags then Err(Error(TooManyTags))
      else Ok(Enrichment(parsed.fields["title"].s, tags))
  }

  /** What every accepted answer satisfies: a non-empty title and at most ten tags. */
  predicate WellFormed(e: Enrichment) {
    e.title != "" && |e.tags| <= MaxTags
  }

  /** An answer is accepted exactly when it is an object with a title and at most ten tags, and the result is well formed. */
  lemma ValidateAccepts(parsed: Json)
    ensures Validate(parsed).Ok? <==>
      HasTitle(parsed) && HasTagArray(parsed) && |parsed.fields["tags"].elements| <= MaxTags
    ensures Validate(parsed).Ok? ==> WellFormed(Validate(parsed).value)
  {
  }

  /** Ten tags are accepted and eleven are not. */
  lemma TagLimit(title: string, tags: seq<Json>)
    requires title != ""
    ensures var parsed := JObject(map["title" := JString(title), "tags" := JArray(tags)]);
      |tags| == MaxTags ==> Validate(parsed) == Ok(Enrichment(title, tags))
    ensures var parsed := JObject(map["title" := JString(title), "tags" := JArray(tags)]);
      |tags| == MaxTags + 1 ==> Validate(parsed) == Err(Error(TooManyTags))
  {
  }

  // ---------------------------------------------------------------------------
  // One call of the model.
  // ---------------------------------------------------------------------------

  const UndefinedTrim: string := "Cannot read properties of undefined (reading 'trim')"

  /** The prompt: the template, a blank line, a label, and the text. */
  function Prompt(template: string, text: string): (p: string)
    ensures |p| == |template| + |text| + 18
    ensures p[..|template|] == template && p[|p| - |text|..] == text
  {
    template + "\n\nFinancial text:\n" + text
  }

  /**
   * The collaborators of the script: the prompt template read from disk, the
   * model call (an upstream failure, or a response whose `text` may be
   * undefined), `JSON.parse` (None when it throws) and `save` (false when it
   * rejects).
   */
  datatype Enricher = Enricher(
    template: string,
    generate: string -> Result<Option<string>, Failure>,
    parse: string -> Option<Json>,
    save: Item -> bool)

  /** `generateTitleAndTags(text)`. */
  function GenerateTitleAndTags(text: string, env: Enricher): (r: Result<Enrichment, Failure>)
    ensures env.generate(Prompt(env.template, text)).Err? ==> r == Err(env.generate(Prompt(env.template, text)).error)
    ensures env.generate(Prompt(env.template, text)) == Ok(None) ==> r == Err(TypeError(UndefinedTrim))
    ensures r.Ok? ==> WellFormed(r.value)
  {
    match env.generate(Prompt(env.template, text))
    case Err(e) => Err(e)
    case Ok(None) => Err(TypeError(UndefinedTrim))
    case Ok(Some(responseText)) =>
      match env.parse(CleanResponse(responseText))
      case None => Err(SyntaxError)
      case Some(parsed) =>
        ValidateAccepts(parsed);
        Validate(parsed)
  }

  /**
   * An answer comes back exactly when the model returned text whose unfenced
   * form parses to an acceptable object, and it is that object's title and tags.
   */
  lemma GenerateAccepts(text: string, env: Enricher)
    ensures var response := env.generate(Prompt(env.template, text));
      GenerateTitleAndTags(text, env).Ok? <==>
        && response.Ok? && response.value.Some?
        && env.parse(CleanResponse(response.value.value)).Some?
        && Validate(env.parse(CleanResponse(response.value.value)).value).Ok?
    ensures var response := env.generate(Prompt(env.template, text));
      GenerateTitleAndTags(text, env).Ok? ==>
        GenerateTitleAndTags(text, env) == Validate(env.parse(CleanResponse(response.value.value)).value)
    ensures var response := env.generate(Prompt(env.template, text));
      response.Ok? && response.value.Some? && env.parse(CleanResponse(response.value.value)).None? ==>
        GenerateTitleAndTags(text, env) == Err(SyntaxError)
  {
  }

  // ---------------------------------------------------------------------------
  // The loop over the fetched items.
  // ---------------------------------------------------------------------------

  /** A stored text as loaded by the query; `text` is None when the document lacks it. */
  datatype Item = Item(text: Option<string>, title: Option<string>, tags: seq<Json>)

  /** One item after its turn of the loop, and whether it counted as a success. */
  datatype Outcome = Outcome(item: Item, saved: bool)

  /**
   * One turn of the loop: a missing text fails on the preview's `substring`; a
   * generated answer is written onto the item before `save`, so a failed save
   * leaves the in-memory item changed but counts as an error.
   */
  function Process(item: Item, env: Enricher): (o: Outcome)
    ensures o.item.text == item.text
    // every item counted as a success carries a non-empty title and at most ten tags
    ensures o.saved ==> o.item.title.Some? && o.item.title.value != "" && |o.item.tags| <= MaxTags
  {
    if item.text.None? then Outcome(item, false)
    else
      match GenerateTitleAndTags(item.text.value, env)
      case Err(_) => Outcome(item, false)
      case Ok(result) =>
        var updated := item.(title := Some(result.title), tags := result.tags);
        Outcome(updated, env.save(updated))
  }

  /**
   * An item is left as it was and counted as an error when it has no text or
   * generation fails; otherwise it takes the generated title and tags and
   * counts as a success exactly when `save` succeeds.
   */
  lemma ProcessCases(item: Item, env: Enricher)
    ensures item.text.None? || GenerateTitleAndTags(item.text.value, env).Err? ==>
      Process(item, env) == Outcome(item, false)
    ensures item.text.Some? && GenerateTitleAndTags(item.text.value, env).Ok? ==>
      var e := GenerateTitleAndTags(item.text.value, env).value;
      && Process(item, env).item == item.(title := Some(e.title), tags := e.tags)
      && Process(item, env).saved == env.save(Process(item, env).item)
  {
  }

  /** Whether the loop counts each item as a success. */
  function Outcomes(items: seq<Item>, env: Enricher): (r: seq<bool>)
    ensures |r| == |items|
  {
    if items == [] then [] else Outcomes(items[..|items| - 1], env) + [Process(items[|items| - 1], env).saved]
  }

  /** How many of `bs` hold. */
  function Count(bs: seq<bool>): (n: nat)
    ensures n <= |bs|
  {
    if bs == [] then 0 else Count(bs[..|bs| - 1]) + (if bs[|bs| - 1] then 1 else 0)
  }

  /** How many of `items` the loop counts as successes. */
  function Successes(items: seq<Item>, env: Enricher): (n: nat)
    ensures n <= |items|
  {
    Count(Outcomes(items, env))
  }

  lemma {:induction false} CountAll(bs: seq<bool>)
    ensures Count(bs) == |bs| <==> forall i :: 0 <= i < |bs| ==> bs[i]
    ensures Count(bs) == 0 <==> forall i :: 0 <= i < |bs| ==> !bs[i]
  {
    if bs != [] {
      var init := bs[..|bs| - 1];
      CountAll(init);
      assert forall i :: 0 <= i < |init| ==> init[i] == bs[i];
    }
  }

  lemma {:induction false} OutcomesAt(items: seq<Item>, env: Enricher, i: nat)
    requires i < |items|
    ensures Outcomes(items, env)[i] == Process(items[i], env).saved
    decreases |items|
  {
    if i < |items| - 1 {
      OutcomesAt(items[..|items| - 1], env, i);
    }
  }

  /** Every item succeeds exactly when the count reaches the number of items; none exactly when it is zero. */
  lemma AllOrNone(items: seq<Item>, env: Enricher)
    ensures Successes(items, env) == |items| <==> forall i :: 0 <= i < |items| ==> Process(items[i], env).saved
    ensures Successes(items, env) == 0 <==> forall i :: 0 <= i < |items| ==> !Process(items[i], env).saved
  {
    CountAll(Outcomes(items, env));
    forall i | 0 <= i < |items| {
      OutcomesAt(items, env, i);
    }
  }

  /** The items as the loop leaves them. */
  function Processed(items: seq<Item>, env: Enricher): (r: seq<Item>)
    ensures |r| == |items|
  {
    if items == [] then []
    else Processed(items[..|items| - 1], env) + [Process(items[|items| - 1], env).item]
  }

  /** The loop's state after one more item. */
  lemma ProcessedStep(items: seq<Item>, i: nat, env: Enricher)
    requires i < |items|
    ensures Processed(items[..i + 1], env) == Processed(items[..i], env) + [Process(items[i], env).item]
    ensures Successes(items[..i + 1], env)
         == Successes(items[..i], env) + (if Process(items[i], env).saved then 1 else 0)
  {
    assert items[..i + 1][..i] == items[..i];
    var bs := Outcomes(items[..i + 1], env);
    assert bs[..|bs| - 1] == Outcomes(items[..i], env);
  }

  /** Each item is processed on its own: the loop's result at `i` depends only on the item at `i`. */
  lemma {:induction false} ProcessedAt(items: seq<Item>, env: Enricher, i: nat)
    requires i < |items|
    ensures Processed(items, env)[i] == Process(items[i], env).item
    decreases |items|
  {
    if i < |items| - 1 {
      ProcessedAt(items[..|items| - 1], env, i);
    }
  }

  /**
   * The `for` loop of `enrich`: every item is processed in turn, a failure
   * never stops the loop, and each item counts once, as a success or an error.
   */
  method EnrichItems(items: array<Item>, env: Enricher) returns (successCount: nat, errorCount: nat)
    modifies items
    ensures successCount + errorCount == items.Length
    ensures successCount == Successes(old(items[..]), env)
    ensures items[..] == Processed(old(items[..]), env)
  {
    ghost var before := items[..];
    successCount := 0;
    errorCount := 0;
    for i := 0 to items.Length
      invariant successCount + errorCount == i
      invariant successCount == Successes(before[..i], env)
      invariant items[..i] == Processed(before[..i], env)
      invariant items[i..] == before[i..]
    {
      ProcessedStep(before, i, env);
      ProcessCases(before[i], env);
      assert items[i] == before[i] by {
        assert items[i..][0] == before[i..][0];
      }
      var item := items[i];
      if item.text.None? {
        // the preview's `substring` throws
        errorCount := errorCount + 1;
        assert items[..i + 1] == items[..i] + [item];
        assert items[i + 1..] == before[i + 1..];
        continue;
      }
      var result := GenerateTitleAndTags(item.text.value, env);
      if result.Err? {
        errorCount := errorCount + 1;
        assert items[..i + 1] == items[..i] + [item];
        assert items[i + 1..] == before[i + 1..];
        continue;
      }
      ghost var done := items[..i];
      items[i] := item.(title := Some(result.value.title), tags := result.value.tags);
      assert items[..i + 1] == done + [items[i]];
      assert items[i + 1..] == before[i + 1..];
      if env.save(items[i]) {
        successCount := successCount + 1;
      } else {
        errorCount := errorCount + 1;
      }
    }
    assert before[..items.Length] == before && items[..items.Length] == items[..];
  }
}
