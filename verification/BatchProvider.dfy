/**
 The provider side of batch embedding: putting one response back into input order, retrying a
 rate-limited chunk, chunking a long input, and the two-channel fallback.
 */
module BatchProvider {
  import opened Wrappers
  import opened Vectors
  import opened Chunking

  const DEFAULT_MAX_RETRIES := 5

  datatype Item = Item(index: int, embedding: Vector)

  datatype Reply = Data(items: seq<Item>) | RateLimited(message: string) | Broken(message: string)

  // ---------------------------------------------------------------- one response

  /** Every item carries a distinct index in range. */
  ghost predicate Usable(data: seq<Item>, n: nat) {
    && |data| == n
    && (forall i :: 0 <= i < |data| ==> 0 <= data[i].index < n)
    && (forall i, j :: 0 <= i < j < |data| ==> data[i].index != data[j].index)
  }

  ghost function Below(n: nat): (s: set<int>)
    ensures |s| == n && forall k :: k in s <==> 0 <= k < n
  {
    if n == 0 then {} else Below(n - 1) + {n - 1}
  }

  lemma {:induction false} DistinctCount(data: seq<Item>, m: nat)
    requires m <= |data| && forall i, j :: 0 <= i < j < |data| ==> data[i].index != data[j].index
    ensures |set i | 0 <= i < m :: data[i].index| == m
  {
    var s := set i | 0 <= i < m :: data[i].index;
    if m > 0 {
      DistinctCount(data, m - 1);
      var t := set i | 0 <= i < m - 1 :: data[i].index;
      assert s == t + {data[m - 1].index};
    } else {
      assert s == {};
    }
  }

  lemma SubsetOfSameSize(s: set<int>, t: set<int>)
    requires s <= t && |s| == |t|
    ensures s == t
  {
    assert |t - s| == 0;
  }

  /** Pigeonhole: n distinct indices below n reach every slot. */
  lemma EverySlotNamed(data: seq<Item>, n: nat, k: int)
    requires Usable(data, n) && 0 <= k < n
    ensures exists i :: 0 <= i < n && data[i].index == k
  {
    DistinctCount(data, n);
    var s := set i | 0 <= i < n :: data[i].index;
    SubsetOfSameSize(s, Below(n));
    assert k in s;
  }

  /** Slot `k` holds the vector of the item that carries index `k`. */
  ghost predicate FilledByIndex(data: seq<Item>, vecs: seq<Vector>, k: int)
    requires 0 <= k < |vecs|
  {
    exists i :: 0 <= i < |data| && data[i].index == k && vecs[k] == data[i].embedding
  }

  /** The first half of reordering: invert the index permutation, or find it unusable. */
  method InvertIndices(data: seq<Item>, n: nat) returns (usable: bool, byIndex: array<nat>)
    ensures fresh(byIndex) && byIndex.Length == n
    ensures usable == Usable(data, n)
    ensures usable ==> forall j :: 0 <= j < n ==> byIndex[data[j].index] == j
  {
    byIndex := new nat[n](_ => 0);
    var seen := new bool[n](_ => false);
    usable := |data| == n;
    var i := 0;
    while i < |data|
      invariant 0 <= i <= |data|
      invariant usable == (|data| == n)
      invariant forall j :: 0 <= j < i ==> 0 <= data[j].index < n && byIndex[data[j].index] == j
      invariant forall k :: 0 <= k < n ==> seen[k] == (byIndex[k] < i && data[byIndex[k]].index == k)
    {
      var idx := data[i].index;
      if idx < 0 || idx >= n || seen[idx] {
        usable := false;
        return;
      }
      seen[idx] := true;
      byIndex[idx] := i;
      i := i + 1;
    }
  }

  /**
   Puts the vectors back into input order. With usable indices the provider's permutation is
   inverted: the vector with index k lands in slot k, and every slot is filled that way.
   Otherwise response order is kept.
   */
  method ReorderBatchVectors(data: seq<Item>, n: nat) returns (vecs: seq<Vector>)
    requires n <= |data|
    ensures |vecs| == n
    ensures Usable(data, n) ==> forall i :: 0 <= i < n ==> vecs[data[i].index] == data[i].embedding
    ensures Usable(data, n) ==> forall k :: 0 <= k < n ==> FilledByIndex(data, vecs, k)
    ensures !Usable(data, n) ==> forall k :: 0 <= k < n ==> vecs[k] == data[k].embedding
  {
    var usable, byIndex := InvertIndices(data, n);
    if usable {
      forall k | 0 <= k < n ensures byIndex[k] < n && data[byIndex[k]].index == k {
        EverySlotNamed(data, n, k);
      }
    }
    vecs := [];
    for out := 0 to n
      invariant |vecs| == out
      invariant forall k :: 0 <= k < out ==> vecs[k] == data[if usable then byIndex[k] else k].embedding
    {
      var src := if usable then byIndex[out] else out;
      vecs := vecs + [data[src].embedding];
    }
    if usable {
      forall k | 0 <= k < n ensures FilledByIndex(data, vecs, k) {
        assert data[byIndex[k]].index == k;
      }
    }
  }

  // ---------------------------------------------------------------- one chunk, with retries

  /**
   What the outside world answers for one chunk: the reply of each attempt, and whether the wait
   before it was cancelled.
   */
  datatype Attempts = Attempts(reply: nat -> Reply, cancelled: nat -> bool)

  predicate Delivers(p: Attempts, chunk: seq<string>, attempt: nat) {
    p.reply(attempt).Data? && |p.reply(attempt).items| == |chunk|
  }

  /** Attempt `a` is made: every earlier one was rate limited and no wait was cancelled. */
  predicate Reached(p: Attempts, a: nat) {
    && (forall b :: 0 <= b < a ==> p.reply(b).RateLimited?)
    && (forall b :: 1 <= b <= a ==> !p.cancelled(b))
  }

  ghost predicate ChunkSucceeds(p: Attempts, chunk: seq<string>, maxRetries: nat) {
    exists a :: 0 <= a <= maxRetries && Reached(p, a) && Delivers(p, chunk, a)
  }

  /** A response that puts the embedding of the text where its index, or else its position, says. */
  ghost predicate HonestReply(embed: string -> Vector, chunk: seq<string>, items: seq<Item>) {
    |items| == |chunk| ==>
      if Usable(items, |chunk|)
      then forall i :: 0 <= i < |items| ==> items[i].embedding == embed(chunk[items[i].index])
      else forall i :: 0 <= i < |items| ==> items[i].embedding == embed(chunk[i])
  }

  ghost predicate HonestAttempts(p: Attempts, embed: string -> Vector, chunk: seq<string>) {
    forall a :: p.reply(a).Data? ==> HonestReply(embed, chunk, p.reply(a).items)
  }

  ghost predicate Embeds(embed: string -> Vector, texts: seq<string>, vecs: seq<Vector>) {
    |vecs| == |texts| && forall i :: 0 <= i < |texts| ==> vecs[i] == embed(texts[i])
  }

  method EmbedChunkOnce(reply: Reply, ghost embed: string -> Vector, chunk: seq<string>)
    returns (r: Result<seq<Vector>, string>, retryable: bool)
    ensures r.Success? <==> reply.Data? && |reply.items| == |chunk|
    ensures retryable <==> reply.RateLimited?
    ensures r.Success? && HonestReply(embed, chunk, reply.items) ==> Embeds(embed, chunk, r.value)
    ensures r.Success? ==> |r.value| == |chunk|
  {
    match reply
    case RateLimited(m) => return Failure(m), true;
    case Broken(m) => return Failure(m), false;
    case Data(items) =>
      if |items| != |chunk| {
        return Failure("wrong number of vectors"), false;
      }
      var vecs := ReorderBatchVectors(items, |chunk|);
      if HonestReply(embed, chunk, items) {
        forall k | 0 <= k < |chunk| ensures vecs[k] == embed(chunk[k]) {
          if Usable(items, |chunk|) {
            assert FilledByIndex(items, vecs, k);
          }
        }
      }
      return Success(vecs), false;
  }

  /** Succeeds exactly when some attempt within the retry budget is reached and delivers. */
  method EmbedChunkWithRetry(p: Attempts, ghost embed: string -> Vector, chunk: seq<string>, maxRetries: nat)
    returns (r: Result<seq<Vector>, string>)
    ensures r.Success? <==> ChunkSucceeds(p, chunk, maxRetries)
    ensures r.Success? && HonestAttempts(p, embed, chunk) ==> Embeds(embed, chunk, r.value)
    ensures r.Success? ==> |r.value| == |chunk|
  {
    var lastErr := "";
    for attempt := 0 to maxRetries + 1
      invariant forall a :: 0 <= a < attempt ==> p.reply(a).RateLimited?
      invariant forall a :: 1 <= a < attempt ==> !p.cancelled(a)
    {
      if attempt > 0 && p.cancelled(attempt) {
        assert forall a :: attempt <= a ==> !Reached(p, a);
        return Failure("context cancelled");
      }
      assert Reached(p, attempt);
      var vecs, retryable := EmbedChunkOnce(p.reply(attempt), embed, chunk);
      if vecs.Success? {
        assert Delivers(p, chunk, attempt);
        return vecs;
      }
      lastErr := vecs.error;
      if !retryable {
        assert forall a :: attempt < a ==> !Reached(p, a);
        return vecs;
      }
    }
    return Failure("retries exhausted: " + lastErr);
  }

  // ---------------------------------------------------------------- many chunks

  /** The exchange about the chunk that starts at a position: equal chunks may be answered differently. */
  type Provider = nat -> Attempts

  function Window(texts: seq<string>, start: nat): seq<string>
    requires start < |texts|
  {
    texts[start..if start + BATCH_LIMIT < |texts| then start + BATCH_LIMIT else |texts|]
  }

  ghost predicate AllChunksSucceed(p: Provider, texts: seq<string>, upTo: nat, maxRetries: nat) {
    forall k: nat {:trigger Window(texts, k * BATCH_LIMIT)} ::
      k * BATCH_LIMIT < upTo && k * BATCH_LIMIT < |texts| ==>
        ChunkSucceeds(p(k * BATCH_LIMIT), Window(texts, k * BATCH_LIMIT), maxRetries)
  }

  ghost predicate HonestProvider(p: Provider, embed: string -> Vector, texts: seq<string>) {
    forall start: nat :: start < |texts| ==> HonestAttempts(p(start), embed, Window(texts, start))
  }

  lemma EmbedsMore(embed: string -> Vector, texts: seq<string>, out: seq<Vector>, vecs: seq<Vector>, start: nat,
                   end: nat)
    requires start <= end <= |texts| && Embeds(embed, texts[..start], out) && Embeds(embed, texts[start..end], vecs)
    ensures Embeds(embed, texts[..end], out + vecs)
  {
    assert texts[..end] == texts[..start] + texts[start..end];
  }

  lemma AllSucceedNext(p: Provider, texts: seq<string>, k: nat, maxRetries: nat)
    requires k * BATCH_LIMIT < |texts| && AllChunksSucceed(p, texts, k * BATCH_LIMIT, maxRetries)
    requires ChunkSucceeds(p(k * BATCH_LIMIT), Window(texts, k * BATCH_LIMIT), maxRetries)
    ensures AllChunksSucceed(p, texts, (k + 1) * BATCH_LIMIT, maxRetries)
  {}

  /**
   One vector per text in input order: for an honest provider the answer is the embedding of
   every text. It fails exactly when some 64-text chunk fails.
   */
  method EmbedBatch(p: Provider, ghost embed: string -> Vector, texts: seq<string>, retries: int)
    returns (r: Result<seq<Vector>, string>)
    ensures r.Success? ==> |r.value| == |texts|
    ensures r.Success? && HonestProvider(p, embed, texts) ==> Embeds(embed, texts, r.value)
    ensures r.Success? <==> AllChunksSucceed(p, texts, |texts|, if retries <= 0 then DEFAULT_MAX_RETRIES else retries)
  {
    if |texts| == 0 {
      return Success([]);
    }
    var maxRetries: nat := if retries <= 0 then DEFAULT_MAX_RETRIES else retries;
    var out: seq<Vector> := [];
    var start := 0;
    ghost var k: nat := 0;
    while start < |texts|
      invariant start == k * BATCH_LIMIT
      invariant |out| == if start < |texts| then start else |texts|
      invariant HonestProvider(p, embed, texts) ==> Embeds(embed, texts[..|out|], out)
      invariant AllChunksSucceed(p, texts, start, maxRetries)
    {
      var end := if start + BATCH_LIMIT < |texts| then start + BATCH_LIMIT else |texts|;
      var vecs := EmbedChunkWithRetry(p(start), embed, texts[start..end], maxRetries);
      assert texts[start..end] == Window(texts, k * BATCH_LIMIT);
      if vecs.Failure? {
        return vecs;
      }
      if HonestProvider(p, embed, texts) {
        assert HonestAttempts(p(start), embed, Window(texts, start));
        EmbedsMore(embed, texts, out, vecs.value, start, end);
      }
      AllSucceedNext(p, texts, k, maxRetries);
      out := out + vecs.value;
      start := start + BATCH_LIMIT;
      k := k + 1;
    }
    assert texts[..|texts|] == texts;
    return Success(out);
  }

  // ---------------------------------------------------------------- two channels

  /** The single-text embedding: the semantic vector when it has a signal, else the keyword vector. */
  function DualEmbed(semantic: string -> Option<Vector>, keyword: string -> Vector, text: string): Vector {
    var v := semantic(text);
    if v.Some? && HasMagnitude(v.value) then v.value else keyword(text)
  }

  /** A semantic vector with a component other than zero is taken; in every other case the keyword vector is. */
  lemma DualEmbedMeans(semantic: string -> Option<Vector>, keyword: string -> Vector, text: string, i: nat)
    ensures semantic(text).Some? && i < |semantic(text).value| && semantic(text).value[i] != 0.0 ==>
        DualEmbed(semantic, keyword, text) == semantic(text).value
    ensures semantic(text).None? || (forall j :: 0 <= j < |semantic(text).value| ==> semantic(text).value[j] == 0.0) ==>
        DualEmbed(semantic, keyword, text) == keyword(text)
  {}

  /**
   The batched form agrees with the single form text by text, whether the semantic batch
   succeeds, fails or returns the wrong number, as long as its vectors are those of the
   single semantic call.
   */
  method DualEmbedBatch(batch: Option<seq<Vector>>, semantic: string -> Option<Vector>, keyword: string -> Vector,
                        texts: seq<string>) returns (out: seq<Vector>)
    requires batch.Some? && |batch.value| == |texts| ==>
      forall i :: 0 <= i < |texts| ==> semantic(texts[i]) == Some(batch.value[i])
    ensures |out| == |texts| && forall i :: 0 <= i < |texts| ==> out[i] == DualEmbed(semantic, keyword, texts[i])
  {
    out := [];
    if batch.Some? && |batch.value| == |texts| {
      for i := 0 to |texts|
        invariant |out| == i
        invariant forall j :: 0 <= j < i ==> out[j] == DualEmbed(semantic, keyword, texts[j])
      {
        out := out + [if HasMagnitude(batch.value[i]) then batch.value[i] else keyword(texts[i])];
      }
    } else {
      for i := 0 to |texts|
        invariant |out| == i
        invariant forall j :: 0 <= j < i ==> out[j] == DualEmbed(semantic, keyword, texts[j])
      {
        out := out + [DualEmbed(semantic, keyword, texts[i])];
      }
    }
  }
}
