/**
 * The bulk loader: reads a large JSON array of documents in chunks, cuts the
 * growing text buffer after its last complete top-level object, parses that
 * part, skips the documents already loaded by an earlier run, and hands the
 * rest to the database in batches, up to a cap.
 *
 * The file stream is the sequence of chunks, `JSON.parse` of the wrapped text
 * is the `parse` oracle (None when it throws), and `insertMany` appends the
 * batch to `inserted`.
 */
module Feed {
  import opened Wrappers
  import opened JsString
  import opened Json

  const BatchSize: nat := 100
  const SkipDocuments: nat := 1000
  const MaxDocuments: nat := 10000

  // ---------------------------------------------------------------------------
  // The brace scan.
  // ---------------------------------------------------------------------------

  function Delta(c: char): int {
    if c == '{' then 1 else if c == '}' then -1 else 0
  }

  /** The running brace depth after reading all of `s`: opening braces minus closing ones. */
  function Depth(s: string): int {
    if s == [] then 0 else Depth(s[..|s| - 1]) + Delta(s[|s| - 1])
  }

  /** The `}` at index `i` brings the depth back to zero. */
  predicate Closes(s: string, i: int) {
    0 <= i < |s| && s[i] == '}' && Depth(s[..i + 1]) == 0
  }

  /** One past the last `}` that closes a top-level object, or -1 if there is none. */
  function LastComplete(s: string): (last: int)
    ensures last == -1 || 1 <= last <= |s|
  {
    if s == [] then -1
    else if s[|s| - 1] == '}' && Depth(s) == 0 then |s|
    else LastComplete(s[..|s| - 1])
  }

  /** `LastComplete` is exactly what its name says. */
  lemma {:induction false} LastCompleteIsLast(s: string)
    ensures LastComplete(s) == -1 <==> forall i :: 0 <= i < |s| ==> !Closes(s, i)
    ensures LastComplete(s) != -1 ==> Closes(s, LastComplete(s) - 1)
    ensures forall i :: LastComplete(s) <= i < |s| ==> !Closes(s, i)
  {
    if s != [] {
      var p := s[..|s| - 1];
      LastCompleteIsLast(p);
      assert s[..|s|] == s;
      forall i | 0 <= i < |p| ensures Closes(s, i) == Closes(p, i) {
        assert s[..i + 1] == p[..i + 1];
      }
      if LastComplete(s) != -1 {
        assert Closes(s, LastComplete(s) - 1);
      }
    }
  }

  /** The scan of feed.js: one pass keeping the depth and the last closing position. */
  method ScanLastComplete(buffer: string) returns (lastCompleteIndex: int)
    ensures lastCompleteIndex == LastComplete(buffer)
  {
    lastCompleteIndex := -1;
    var bracketCount := 0;
    for i := 0 to |buffer|
      invariant bracketCount == Depth(buffer[..i])
      invariant lastCompleteIndex == LastComplete(buffer[..i])
    {
      assert buffer[..i + 1][..i] == buffer[..i];
      if buffer[i] == '{' {
        bracketCount := bracketCount + 1;
      }
      if buffer[i] == '}' {
        bracketCount := bracketCount - 1;
        if bracketCount == 0 {
          lastCompleteIndex := i + 1;
        }
      }
    }
    assert buffer[..|buffer|] == buffer;
  }

  // ---------------------------------------------------------------------------
  // What one chunk does to the buffer.
  // ---------------------------------------------------------------------------

  /** The buffer with the chunk appended; on the first chunk trimmed and without its leading `[`. */
  function Opened(buffer: string, first: bool): (b: string)
    ensures !first ==> b == buffer
    ensures first ==> var t := Trim(buffer);
      (StartsWithChar(t, '[') && t == "[" + b) || (!StartsWithChar(t, '[') && b == t)
  {
    if !first then buffer
    else
      var t := Trim(buffer);
      if StartsWithChar(t, '[') then
        assert t == [t[0]] + t[1..];
        t[1..]
      else t
  }

  /** What stays in the buffer of the text after the cut: trimmed, without one leading comma. */
  function Remainder(tail: string): string {
    var rest := Trim(tail);
    if StartsWithChar(rest, ',') then Trim(rest[1..]) else rest
  }

  /** The complete part without leading and trailing commas, trimmed. */
  function Cleaned(complete: string): string {
    Trim(DropTrailing(DropLeading(complete, ','), ','))
  }

  /** The buffer after a chunk and the documents the chunk yielded. */
  datatype Step = Step(buffer: string, documents: seq<Json>)

  /** The documents in the complete part of the buffer; none when it is blank or `JSON.parse` throws. */
  function CutDocuments(complete: string, parse: string -> Option<seq<Json>>): seq<Json> {
    var trimmed := Trim(complete);
    var clean := Cleaned(trimmed);
    if trimmed == "" || clean == "" then []
    // a parse error is logged and the objects of this cut are lost
    else parse("[" + clean + "]").GetOr([])
  }

  function ChunkStep(buffer: string, first: bool, chunk: string, parse: string -> Option<seq<Json>>): (st: Step)
    // with no complete object the buffer is kept whole and nothing is parsed
    ensures LastComplete(Opened(buffer + chunk, first)) == -1 ==> st == Step(Opened(buffer + chunk, first), [])
    // otherwise the buffer keeps what follows the last complete object, and the objects are parsed
  {
    var b := Opened(buffer + chunk, first);
    var last := LastComplete(b);
    if last == -1 then Step(b, [])
    else Step(Remainder(b[last..]), CutDocuments(b[..last], parse))
  }

  /** Blanks with at most one comma among them. */
  predicate BlanksAndComma(s: string) {
    AllWhitespace(s)
    || exists m :: 0 <= m < |s| && s[m] == ',' && AllWhitespace(s[..m]) && AllWhitespace(s[m + 1..])
  }

  lemma SliceOfSlice<T>(s: seq<T>, a: nat, b: nat, c: nat, d: nat)
    requires a <= b <= |s| && c <= d <= b - a
    ensures s[a..b][c..d] == s[a + c..a + d]
  {
    var t := s[a..b];
    assert |t[c..d]| == |s[a + c..a + d]|;
    forall i | 0 <= i < d - c
      ensures t[c..d][i] == s[a + c..a + d][i]
    {
      assert t[c..d][i] == t[c + i] == s[a + c + i];
    }
  }

  lemma CommaBetween(s: string, m: nat, lo: nat)
    requires m < lo <= |s| && s[m] == ','
    requires AllWhitespace(s[..m]) && AllWhitespace(s[m + 1..lo])
    ensures BlanksAndComma(s[..lo])
  {
    var p := s[..lo];
    assert p[..m] == s[..m] && p[m + 1..] == s[m + 1..lo];
  }

  /** Where the remainder starts inside the text after the cut. */
  ghost function RemainderStart(tail: string): nat {
    var rest := Trim(tail);
    if StartsWithChar(rest, ',') then SkipBlanks(tail, 0) + 1 + SkipBlanks(rest[1..], 0)
    else SkipBlanks(tail, 0)
  }

  /** The comma case of the remainder as an infix, stated over plain pieces of the text. */
  lemma CommaInfix(tail: string, lo1: nat, rest: string, lo2: nat, t: string)
    requires lo1 + |rest| <= |tail| && rest == tail[lo1..lo1 + |rest|]
    requires |rest| > 0
    requires 1 + lo2 + |t| <= |rest| && t == rest[1..][lo2..lo2 + |t|]
    ensures t == tail[lo1 + 1 + lo2..lo1 + 1 + lo2 + |t|]
  {
    var hi := lo1 + |rest|;
    SliceOfSlice(tail, lo1, hi, 1, |rest|);
    SliceOfSlice(tail, lo1 + 1, hi, lo2, lo2 + |t|);
  }

  /** The comma case of the remainder's prefix, stated over plain pieces of the text. */
  lemma CommaPrefix(tail: string, lo1: nat, rest: string, lo2: nat)
    requires lo1 + |rest| <= |tail| && rest == tail[lo1..lo1 + |rest|]
    requires |rest| > 0 && rest[0] == ',' && lo2 < |rest|
    requires AllWhitespace(tail[..lo1]) && AllWhitespace(rest[1..][..lo2])
    ensures BlanksAndComma(tail[..lo1 + 1 + lo2])
  {
    var hi := lo1 + |rest|;
    SliceOfSlice(tail, lo1, hi, 1, |rest|);
    SliceOfSlice(tail, lo1 + 1, hi, 0, lo2);
    assert tail[lo1 + 1..hi][..lo2] == tail[lo1 + 1..hi][0..lo2];
    assert tail[lo1] == rest[0];
    CommaBetween(tail, lo1, lo1 + 1 + lo2);
  }

  /** The comma case of `RemainderInfix`. */
  lemma RemainderInfixComma(tail: string)
    requires StartsWithChar(Trim(tail), ',')
    ensures RemainderStart(tail) + |Remainder(tail)| <= |tail|
    ensures Remainder(tail) == tail[RemainderStart(tail)..RemainderStart(tail) + |Remainder(tail)|]
  {
    var rest := Trim(tail);
    var lo1 := TrimIsInfix(tail);
    var lo2 := TrimIsInfix(rest[1..]);
    var t := Trim(rest[1..]);
    assert Remainder(tail) == t;
    assert RemainderStart(tail) == lo1 + 1 + lo2;
    CommaInfix(tail, lo1, rest, lo2, t);
  }

  /** The remainder is a piece of the text after the cut. */
  lemma RemainderInfix(tail: string)
    ensures RemainderStart(tail) + |Remainder(tail)| <= |tail|
    ensures Remainder(tail) == tail[RemainderStart(tail)..RemainderStart(tail) + |Remainder(tail)|]
  {
    if StartsWithChar(Trim(tail), ',') {
      RemainderInfixComma(tail);
    } else {
      var lo1 := TrimIsInfix(tail);
    }
  }

  /** The comma case of `RemainderPrefix`. */
  lemma RemainderPrefixComma(tail: string)
    requires StartsWithChar(Trim(tail), ',')
    ensures RemainderStart(tail) <= |tail| && BlanksAndComma(tail[..RemainderStart(tail)])
  {
    var rest := Trim(tail);
    var lo1 := TrimIsInfix(tail);
    var lo2 := TrimIsInfix(rest[1..]);
    assert RemainderStart(tail) == lo1 + 1 + lo2;
    CommaPrefix(tail, lo1, rest, lo2);
  }

  /** What precedes the remainder is blanks and at most one comma. */
  lemma RemainderPrefix(tail: string)
    requires RemainderStart(tail) <= |tail|
    ensures BlanksAndComma(tail[..RemainderStart(tail)])
  {
    if StartsWithChar(Trim(tail), ',') {
      RemainderPrefixComma(tail);
    } else {
      var lo1 := TrimIsInfix(tail);
    }
  }

  /**
   * The remainder is a piece of the text after the cut; what precedes it there
   * is blanks and at most one comma.
   */
  lemma RemainderWithin(tail: string) returns (lo: nat)
    ensures lo + |Remainder(tail)| <= |tail|
    ensures Remainder(tail) == tail[lo..lo + |Remainder(tail)|]
    ensures BlanksAndComma(tail[..lo])
  {
    lo := RemainderStart(tail);
    RemainderInfix(tail);
    RemainderPrefix(tail);
  }

  /**
   * After a cut, the kept buffer is a piece of the text after the last complete
   * object, preceded there only by blanks and at most one comma, and the parsed
   * documents come from the text before it.
   */
  lemma ChunkRemainder(buffer: string, first: bool, chunk: string, parse: string -> Option<seq<Json>>) returns (lo: nat)
    requires LastComplete(Opened(buffer + chunk, first)) != -1
    ensures var b := Opened(buffer + chunk, first);
      var tail := b[LastComplete(b)..];
      var st := ChunkStep(buffer, first, chunk, parse);
      && lo + |st.buffer| <= |tail|
      && st.buffer == tail[lo..lo + |st.buffer|]
      && BlanksAndComma(tail[..lo])
      && st.documents == CutDocuments(b[..LastComplete(b)], parse)
  {
    var b := Opened(buffer + chunk, first);
    var last := LastComplete(b);
    assert ChunkStep(buffer, first, chunk, parse) == Step(Remainder(b[last..]), CutDocuments(b[..last], parse));
    lo := RemainderWithin(b[last..]);
  }

  /** `buffer.slice(last).trim()`, then one leading comma dropped and trimmed again. */
  method KeepAfter(b: string, last: nat) returns (rest: string)
    requires last <= |b|
    ensures rest == Remainder(b[last..])
  {
    rest := Trim(b[last..]);
    if StartsWithChar(rest, ',') {
      rest := Trim(rest[1..]);
    }
  }

  /**
   * The complete part as the loop treats it: trimmed, stripped of commas and
   * parsed as an array; None when blank or when `JSON.parse` throws.
   */
  method ParseCut(complete: string, parse: string -> Option<seq<Json>>) returns (documents: Option<seq<Json>>)
    ensures documents.Some? ==> documents.value == CutDocuments(complete, parse)
    ensures documents.None? ==> CutDocuments(complete, parse) == []
  {
    var completeBuffer := Trim(complete);
    if completeBuffer == "" {
      return None;
    }
    var cleanBuffer := Trim(DropTrailing(DropLeading(completeBuffer, ','), ','));
    if cleanBuffer == "" {
      return None;
    }
    documents := parse("[" + cleanBuffer + "]");
  }

  /** The buffer and all documents after a whole run of chunks. */
  function Streamed(chunks: seq<string>, parse: string -> Option<seq<Json>>): Step {
    if chunks == [] then Step("", [])
    else
      var before := Streamed(chunks[..|chunks| - 1], parse);
      var st := ChunkStep(before.buffer, |chunks| == 1, chunks[|chunks| - 1], parse);
      Step(st.buffer, before.documents + st.documents)
  }

  /** One more chunk extends the stream by one `ChunkStep`. */
  lemma StreamedNext(chunks: seq<string>, k: nat, parse: string -> Option<seq<Json>>)
    requires k < |chunks|
    ensures var before := Streamed(chunks[..k], parse);
      var st := ChunkStep(before.buffer, k == 0, chunks[k], parse);
      Streamed(chunks[..k + 1], parse) == Step(st.buffer, before.documents + st.documents)
  {
    assert chunks[..k + 1][..k] == chunks[..k];
  }

  // ---------------------------------------------------------------------------
  // Skip, cap and batch accounting.
  // ---------------------------------------------------------------------------

  /** The documents of the batches, in order. */
  function Flatten(batches: seq<seq<Json>>): (all: seq<Json>) {
    if batches == [] then [] else Flatten(batches[..|batches| - 1]) + batches[|batches| - 1]
  }

  /** The documents after the first `n`. */
  function Drop(s: seq<Json>, n: nat): (r: seq<Json>)
    ensures |r| == if |s| <= n then 0 else |s| - n
    ensures forall i :: 0 <= i < |r| ==> r[i] == s[n + i]
  {
    if |s| <= n then [] else s[n..]
  }

  lemma DropSnoc(s: seq<Json>, d: Json, n: nat)
    ensures Drop(s + [d], n) == if |s| < n then [] else Drop(s, n) + [d]
  {
    if |s| >= n {
      assert Drop(s + [d], n) == Drop(s, n) + [d];
    }
  }

  /** Full batches hold `BatchSize` documents each. */
  lemma {:induction false} FlattenFull(batches: seq<seq<Json>>)
    requires forall i :: 0 <= i < |batches| ==> |batches[i]| == BatchSize
    ensures |Flatten(batches)| == BatchSize * |batches|
  {
    if batches != [] {
      FlattenFull(batches[..|batches| - 1]);
    }
  }

  /** Below the cap, full batches leave room for another full one. */
  lemma RoomForFullBatch(batches: seq<seq<Json>>)
    requires forall i :: 0 <= i < |batches| ==> |batches[i]| == BatchSize
    requires |Flatten(batches)| < MaxDocuments
    ensures MaxDocuments - |Flatten(batches)| >= BatchSize
  {
    FlattenFull(batches);
  }

  class Loader {
    var buffer: string
    var documentBatch: seq<Json>
    var totalProcessed: nat
    var totalRead: nat
    var isFirstChunk: bool
    /** The batches handed to `insertMany`, in order. */
    var inserted: seq<seq<Json>>
    /** Every document parsed so far, in order. */
    ghost var parsed: seq<Json>

    /**
     * Every parsed document past the first `SkipDocuments` is either inserted
     * or waiting in the batch, in parse order, and the counters agree.
     */
    ghost predicate Accounted()
      reads this
    {
      && totalRead == |parsed|
      && Flatten(inserted) + documentBatch == Drop(parsed, SkipDocuments)
      && totalProcessed == |Flatten(inserted)| <= MaxDocuments
      && (forall i :: 0 <= i < |inserted| ==> 0 < |inserted[i]| <= BatchSize)
    }

    /** Every batch inserted so far holds exactly `BatchSize` documents. */
    ghost predicate Full()
      reads this
    {
      forall i :: 0 <= i < |inserted| ==> |inserted[i]| == BatchSize
    }

    /** Between chunks, a full batch is never left waiting below the cap. */
    ghost predicate Valid()
      reads this
    {
      Accounted() && (totalProcessed < MaxDocuments ==> |documentBatch| < BatchSize)
    }

    constructor ()
      ensures Valid()
      ensures buffer == "" && documentBatch == [] && isFirstChunk
      ensures totalProcessed == 0 && totalRead == 0 && inserted == [] && parsed == []
    {
      buffer := "";
      documentBatch := [];
      totalProcessed := 0;
      totalRead := 0;
      isFirstChunk := true;
      inserted := [];
      parsed := [];
    }

    /** One pass of the `for (const doc of documents)` loop: count the document, keep it past the skip. */
    method ReadDocument(doc: Json)
      requires Accounted()
      modifies this
      ensures Accounted()
      ensures parsed == old(parsed) + [doc]
      ensures inserted == old(inserted) && totalProcessed == old(totalProcessed)
      ensures buffer == old(buffer) && isFirstChunk == old(isFirstChunk)
    {
      ghost var waiting := documentBatch;
      totalRead := totalRead + 1;
      DropSnoc(parsed, doc, SkipDocuments);
      parsed := parsed + [doc];
      // the `break` at the cap cannot fire: callers only read below the cap
      if totalRead > SkipDocuments {
        documentBatch := documentBatch + [doc];
        assert Flatten(inserted) + documentBatch == (Flatten(inserted) + waiting) + [doc];
      }
    }

    /** The `for (const doc of documents)` loop. */
    method ReadDocuments(documents: seq<Json>)
      requires Accounted()
      modifies this
      ensures Accounted()
      ensures parsed == old(parsed) + documents
      ensures inserted == old(inserted) && totalProcessed == old(totalProcessed)
      ensures buffer == old(buffer) && isFirstChunk == old(isFirstChunk)
    {
      for j := 0 to |documents|
        invariant Accounted()
        invariant parsed == old(parsed) + documents[..j]
        invariant inserted == old(inserted) && totalProcessed == old(totalProcessed)
        invariant buffer == old(buffer) && isFirstChunk == old(isFirstChunk)
      {
        ReadDocument(documents[j]);
        assert documents[..j + 1] == documents[..j] + [documents[j]];
      }
      assert documents[..|documents|] == documents;
    }

    /** `documentBatch.splice(0, batchSize)`, its `insertMany` and the counter update. */
    method InsertBatch(batchSize: nat)
      requires Accounted()
      requires 0 < batchSize <= |documentBatch| && batchSize <= BatchSize
      requires totalProcessed + batchSize <= MaxDocuments
      modifies this
      ensures Accounted()
      ensures inserted == old(inserted) + [old(documentBatch)[..batchSize]]
      ensures documentBatch == old(documentBatch)[batchSize..]
      ensures totalProcessed == old(totalProcessed) + batchSize
      ensures parsed == old(parsed) && totalRead == old(totalRead)
      ensures buffer == old(buffer) && isFirstChunk == old(isFirstChunk)
    {
      var batch := documentBatch[..batchSize];
      assert documentBatch == batch + documentBatch[batchSize..];
      documentBatch := documentBatch[batchSize..];
      assert (inserted + [batch])[..|inserted|] == inserted;
      inserted := inserted + [batch];
      totalProcessed := totalProcessed + |batch|;
    }

    /** The `while` loop: insert full batches from the front, never past the cap. */
    method SaveFullBatches()
      requires Accounted()
      modifies this
      ensures Valid()
      ensures parsed == old(parsed) && totalRead == old(totalRead)
      ensures buffer == old(buffer) && isFirstChunk == old(isFirstChunk)
      ensures |old(inserted)| <= |inserted| && inserted[..|old(inserted)|] == old(inserted)
      ensures forall i :: |old(inserted)| <= i < |inserted| ==>
        |inserted[i]| == BatchSize || totalProcessed == MaxDocuments
      ensures old(Full()) ==> Full()
    {
      while |documentBatch| >= BatchSize && totalProcessed < MaxDocuments
        invariant Accounted()
        invariant parsed == old(parsed) && totalRead == old(totalRead)
        invariant buffer == old(buffer) && isFirstChunk == old(isFirstChunk)
        invariant |old(inserted)| <= |inserted| && inserted[..|old(inserted)|] == old(inserted)
        invariant forall i :: |old(inserted)| <= i < |inserted| ==>
          |inserted[i]| == BatchSize || totalProcessed == MaxDocuments
        invariant old(Full()) ==> Full()
        decreases |documentBatch|
      {
        var remainingSlots := MaxDocuments - totalProcessed;
        var batchSize := if BatchSize < remainingSlots then BatchSize else remainingSlots;
        if Full() {
          RoomForFullBatch(inserted);
        }
        InsertBatch(batchSize);
      }
    }

    /**
     * The text part of a chunk: append it, cut the buffer after the last
     * complete object and parse the cut; None when there is nothing to parse
     * or `JSON.parse` throws.
     */
    method TakeComplete(chunk: string, parse: string -> Option<seq<Json>>) returns (documents: Option<seq<Json>>)
      modifies this
      ensures var st := ChunkStep(old(buffer), old(isFirstChunk), chunk, parse);
        && buffer == st.buffer
        && (documents.Some? ==> documents.value == st.documents)
        && (documents.None? ==> st.documents == [])
      ensures !isFirstChunk
      ensures documentBatch == old(documentBatch) && inserted == old(inserted) && parsed == old(parsed)
      ensures totalProcessed == old(totalProcessed) && totalRead == old(totalRead)
    {
      buffer := buffer + chunk;
      if isFirstChunk {
        buffer := Trim(buffer);
        if StartsWithChar(buffer, '[') {
          buffer := buffer[1..];
        }
        isFirstChunk := false;
      }
      ghost var b := buffer;
      assert b == Opened(old(buffer) + chunk, old(isFirstChunk));

      var lastCompleteIndex := ScanLastComplete(buffer);
      if lastCompleteIndex == -1 {
        return None;
      }
      var complete := buffer[..lastCompleteIndex];
      buffer := KeepAfter(buffer, lastCompleteIndex);
      documents := ParseCut(complete, parse);
    }

    /** One chunk of the stream, as the body of the `for await` loop runs it. */
    method OnChunk(chunk: string, parse: string -> Option<seq<Json>>)
      requires Valid() && totalProcessed < MaxDocuments
      modifies this
      ensures Valid()
      ensures var st := ChunkStep(old(buffer), old(isFirstChunk), chunk, parse);
        buffer == st.buffer && parsed == old(parsed) + st.documents
      ensures !isFirstChunk
      ensures |old(inserted)| <= |inserted| && inserted[..|old(inserted)|] == old(inserted)
      ensures forall i :: |old(inserted)| <= i < |inserted| ==>
        |inserted[i]| == BatchSize || totalProcessed == MaxDocuments
      ensures old(Full()) ==> Full()
    {
      var documents := TakeComplete(chunk, parse);
      if documents.None? {
        assert parsed == old(parsed) + [];
        return;
      }
      ReadDocuments(documents.value);
      SaveFullBatches();
    }

    /** After the stream: insert what is left of the batch, up to the cap. */
    method Finish()
      requires Valid()
      modifies this
      ensures Valid()
      ensures Flatten(inserted) == Take(Drop(parsed, SkipDocuments), MaxDocuments)
      ensures parsed == old(parsed) && buffer == old(buffer)
      ensures |old(inserted)| <= |inserted| <= |old(inserted)| + 1
      ensures inserted[..|old(inserted)|] == old(inserted)
      ensures old(Full()) ==> forall i :: 0 <= i < |inserted| - 1 ==> |inserted[i]| == BatchSize
    {
      ghost var all := Drop(parsed, SkipDocuments);
      if |documentBatch| > 0 && totalProcessed < MaxDocuments {
        var remainingSlots := MaxDocuments - totalProcessed;
        // `splice(0, remainingSlots)`
        var batchSize := if remainingSlots < |documentBatch| then remainingSlots else |documentBatch|;
        var batch := documentBatch[..batchSize];
        assert documentBatch == batch + documentBatch[batchSize..];
        documentBatch := documentBatch[batchSize..];
        assert (inserted + [batch])[..|inserted|] == inserted;
        inserted := inserted + [batch];
        totalProcessed := totalProcessed + |batch|;
      }
      assert Flatten(inserted) == all[..|Flatten(inserted)|];
    }
  }

  /**
   * The whole load: chunks are processed until the stream ends or the cap is
   * reached, then the rest of the batch is inserted. What reaches the database
   * is, in order, the parsed documents after the skipped ones, cut at the cap,
   * in batches of `BatchSize`, of which only the last may be smaller.
   */
  method Load(chunks: seq<string>, parse: string -> Option<seq<Json>>) returns (loader: Loader, consumed: nat)
    ensures fresh(loader) && loader.Valid()
    ensures consumed <= |chunks|
    ensures consumed < |chunks| ==> loader.totalProcessed == MaxDocuments
    ensures loader.parsed == Streamed(chunks[..consumed], parse).documents
    ensures Flatten(loader.inserted) == Take(Drop(loader.parsed, SkipDocuments), MaxDocuments)
    ensures forall i :: 0 <= i < |loader.inserted| ==> 0 < |loader.inserted[i]| <= BatchSize
    ensures forall i :: 0 <= i < |loader.inserted| - 1 ==> |loader.inserted[i]| == BatchSize
  {
    loader := new Loader();
    consumed := 0;
    while consumed < |chunks| && loader.totalProcessed < MaxDocuments
      invariant fresh(loader) && loader.Valid() && loader.Full()
      invariant consumed <= |chunks|
      invariant loader.isFirstChunk == (consumed == 0)
      invariant loader.buffer == Streamed(chunks[..consumed], parse).buffer
      invariant loader.parsed == Streamed(chunks[..consumed], parse).documents
      decreases |chunks| - consumed
    {
      StreamedNext(chunks, consumed, parse);
      loader.OnChunk(chunks[consumed], parse);
      consumed := consumed + 1;
    }
    loader.Finish();
  }
}
