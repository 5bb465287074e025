/**
 Hierarchical clustering of one entity's debug episodes: start with singletons and merge the
 closest pair, by average linkage, until no pair reaches the threshold.
 */
module PitfallClustering {
  import opened Wrappers
  import opened Bags
  import opened Vectors

  const LEXICAL_THRESHOLD := 0.3

  datatype Item = Item(id: int, summary: string, taskType: string, entityID: string, projectID: string,
                       language: string)

  /** The similarity functions, and the embedder (None when it fails). */
  datatype Measures = Measures(
    embed: string -> Option<Vector>, cosine: (Vector, Vector) -> real, overlap: (string, string) -> real)

  // ---------------------------------------------------------------- average linkage

  datatype Tally = Tally(total: real, count: nat)

  /** The values of `f` on one index against a list, and on every pair of two lists; None is skipped. */
  ghost function RowTally(a: nat, b: seq<nat>, f: (nat, nat) -> Option<real>): Tally {
    if b == [] then Tally(0.0, 0) else
    var n := |b| - 1;
    var t := RowTally(a, b[..n], f);
    match f(a, b[n])
    case None => t
    case Some(x) => Tally(t.total + x, t.count + 1)
  }

  ghost function PairTally(a: seq<nat>, b: seq<nat>, f: (nat, nat) -> Option<real>): Tally {
    if a == [] then Tally(0.0, 0) else
    var n := |a| - 1;
    Join(PairTally(a[..n], b, f), RowTally(a[n], b, f))
  }

  ghost function Average(t: Tally): real {
    if t.count == 0 then 0.0 else t.total / t.count as real
  }

  datatype Corpus = Corpus(items: seq<Item>, vectors: seq<Option<Vector>>, m: Measures)

  predicate ValidCorpus(c: Corpus) {
    |c.vectors| == |c.items|
  }

  function VectorPair(c: Corpus): (nat, nat) -> Option<real>
    requires ValidCorpus(c)
  {
    (i: nat, j: nat) =>
      if i < |c.vectors| && j < |c.vectors| && c.vectors[i].Some? && c.vectors[j].Some?
      then Some(c.m.cosine(c.vectors[i].value, c.vectors[j].value)) else None
  }

  function TextPair(c: Corpus): (nat, nat) -> Option<real>
    requires ValidCorpus(c)
  {
    (i: nat, j: nat) =>
      if i < |c.items| && j < |c.items| then Some(c.m.overlap(c.items[i].summary, c.items[j].summary)) else None
  }

  /** Average cosine over the pairs with vectors; average text overlap when there is no such pair. */
  ghost function Linkage(c: Corpus, a: seq<nat>, b: seq<nat>): real
    requires ValidCorpus(c)
  {
    var t := PairTally(a, b, VectorPair(c));
    if t.count > 0 then Average(t) else Average(PairTally(a, b, TextPair(c)))
  }

  method TallyPairs(a: seq<nat>, b: seq<nat>, f: (nat, nat) -> Option<real>) returns (total: real, count: nat)
    ensures Tally(total, count) == PairTally(a, b, f)
  {
    total, count := 0.0, 0;
    for i := 0 to |a|
      invariant Tally(total, count) == PairTally(a[..i], b, f)
    {
      ghost var before := Tally(total, count);
      for j := 0 to |b|
        invariant total == before.total + RowTally(a[i], b[..j], f).total
        invariant count == before.count + RowTally(a[i], b[..j], f).count
      {
        assert b[..j + 1][..j] == b[..j];
        match f(a[i], b[j])
        case None =>
        case Some(x) => total, count := total + x, count + 1;
      }
      assert b[..|b|] == b;
      assert a[..i + 1][..i] == a[..i];
    }
    assert a[..|a|] == a;
  }

  lemma {:induction false} NothingToTally(a: seq<nat>, b: seq<nat>, f: (nat, nat) -> Option<real>)
    requires a == [] || b == []
    ensures PairTally(a, b, f) == Tally(0.0, 0)
  {
    if a != [] { NothingToTally(a[..|a| - 1], b, f); }
  }

  /** The linkage of two clusters; 0 when one of them is empty. */
  method ClusterSimilarity(c: Corpus, a: seq<nat>, b: seq<nat>) returns (r: real)
    requires ValidCorpus(c)
    ensures r == Linkage(c, a, b)
    ensures a == [] || b == [] ==> r == 0.0
  {
    if |a| == 0 || |b| == 0 {
      NothingToTally(a, b, VectorPair(c));
      NothingToTally(a, b, TextPair(c));
      return 0.0;
    }
    var total, count := TallyPairs(a, b, VectorPair(c));
    if count == 0 {
      total, count := TallyPairs(a, b, TextPair(c));
      return if count == 0 then 0.0 else total / count as real;
    }
    return total / count as real;
  }

  /** The total lies between `lo` and `hi` times the count. */
  ghost predicate Within(t: Tally, lo: real, hi: real) {
    lo * t.count as real <= t.total <= hi * t.count as real
  }

  ghost function Join(t: Tally, u: Tally): Tally {
    Tally(t.total + u.total, t.count + u.count)
  }

  lemma JoinWithin(t: Tally, u: Tally, lo: real, hi: real)
    requires Within(t, lo, hi) && Within(u, lo, hi)
    ensures Within(Join(t, u), lo, hi)
  {
    var x, y := t.count as real, u.count as real;
    assert lo * (x + y) == lo * x + lo * y;
    assert hi * (x + y) == hi * x + hi * y;
  }

  ghost predicate Bounded(a: seq<nat>, b: seq<nat>, f: (nat, nat) -> Option<real>, lo: real, hi: real) {
    forall i, j :: i in a && j in b && f(i, j).Some? ==> lo <= f(i, j).value <= hi
  }

  lemma {:induction false} RowWithin(a: nat, b: seq<nat>, f: (nat, nat) -> Option<real>, lo: real, hi: real)
    requires Bounded([a], b, f, lo, hi)
    ensures Within(RowTally(a, b, f), lo, hi)
  {
    if b != [] {
      var n := |b| - 1;
      RowWithin(a, b[..n], f, lo, hi);
      assert a in [a] && b[n] in b;
      if f(a, b[n]).Some? { JoinWithin(RowTally(a, b[..n], f), Tally(f(a, b[n]).value, 1), lo, hi); }
    }
  }

  lemma {:induction false} PairsWithin(a: seq<nat>, b: seq<nat>, f: (nat, nat) -> Option<real>, lo: real, hi: real)
    requires Bounded(a, b, f, lo, hi)
    ensures Within(PairTally(a, b, f), lo, hi)
  {
    if a != [] {
      var n := |a| - 1;
      assert a[n] in a;
      PairsWithin(a[..n], b, f, lo, hi);
      RowWithin(a[n], b, f, lo, hi);
      JoinWithin(PairTally(a[..n], b, f), RowTally(a[n], b, f), lo, hi);
    }
  }

  lemma AverageWithin(t: Tally, lo: real, hi: real)
    requires t.count > 0 && Within(t, lo, hi)
    ensures lo <= Average(t) <= hi
  {
    var count, q := t.count as real, Average(t);
    assert q * count == t.total;
    assert (q - lo) * count >= 0.0;
    assert (hi - q) * count >= 0.0;
  }

  /** The linkage is an average: it lies between the least and the greatest similarity averaged. */
  lemma LinkageIsAnAverage(c: Corpus, a: seq<nat>, b: seq<nat>, lo: real, hi: real)
    requires ValidCorpus(c) && a != [] && b != []
    requires forall i :: i in a || i in b ==> i < |c.items|
    requires Bounded(a, b, VectorPair(c), lo, hi) && Bounded(a, b, TextPair(c), lo, hi)
    ensures lo <= Linkage(c, a, b) <= hi
  {
    PairsWithin(a, b, VectorPair(c), lo, hi);
    PairsWithin(a, b, TextPair(c), lo, hi);
    TextTallyCounts(c, a, b);
    AverageWithin(PairTally(a, b, TextPair(c)), lo, hi);
    if PairTally(a, b, VectorPair(c)).count > 0 {
      AverageWithin(PairTally(a, b, VectorPair(c)), lo, hi);
    }
  }

  lemma TextTallyCounts(c: Corpus, a: seq<nat>, b: seq<nat>)
    requires ValidCorpus(c) && a != [] && b != []
    requires forall i :: i in a || i in b ==> i < |c.items|
    ensures PairTally(a, b, TextPair(c)).count > 0
  {
    assert a[|a| - 1] in a && b[|b| - 1] in b;
  }

  // ---------------------------------------------------------------- partitions

  ghost function Iota(n: nat): seq<nat> {
    seq(n, i => i)
  }

  /** Each index below `n` stands in exactly one cluster, once, and no cluster is empty. */
  ghost predicate Partition(clusters: seq<seq<nat>>, n: nat) {
    && Pool<nat>(clusters) == multiset(Iota(n))
    && forall c :: 0 <= c < |clusters| ==> clusters[c] != []
  }

  /** Appending cluster `j` to cluster `i` and removing `j` keeps every element. */
  lemma MergeKeepsElements<T>(s: seq<seq<T>>, i: nat, j: nat)
    requires i < j < |s|
    ensures var merged := s[i := s[i] + s[j]]; Pool(merged[..j] + merged[j + 1..]) == Pool(s)
  {
    var merged := s[i := s[i] + s[j]];
    var others := s[..i] + s[i + 1..];
    assert others == merged[..i] + merged[i + 1..];
    PoolSplit(s, i);
    PoolSplit(merged, i);
    PoolSplit(merged, j);
    assert multiset(s[i] + s[j]) == multiset(s[i]) + multiset(s[j]);
    assert Pool(merged) == Pool(others) + (multiset(s[i]) + multiset(s[j]));
    assert Pool(merged) == (Pool(others) + multiset(s[i])) + multiset(s[j]);
    MultisetCancel(Pool(merged[..j] + merged[j + 1..]), Pool(s), multiset(s[j]));
  }

  lemma {:induction false} SingletonsPartition(s: seq<seq<nat>>)
    requires forall i :: 0 <= i < |s| ==> s[i] == [i]
    ensures Partition(s, |s|)
  {
    var n := |s|;
    if n > 0 {
      SingletonsPartition(s[..n - 1]);
      PoolSplit<nat>(s, n - 1);
      assert s[..n - 1] + s[n..] == s[..n - 1];
      assert Iota(n) == Iota(n - 1) + [n - 1];
    }
  }

  // ---------------------------------------------------------------- the merge loop

  ghost predicate NoneCloser(c: Corpus, clusters: seq<seq<nat>>, bound: real)
    requires ValidCorpus(c)
  {
    forall i, j :: 0 <= i < j < |clusters| ==> Linkage(c, clusters[i], clusters[j]) <= bound
  }

  /** The best pair so far, or none and 0. */
  ghost predicate BestSoFar(c: Corpus, clusters: seq<seq<nat>>, i: int, j: int, best: real)
    requires ValidCorpus(c)
  {
    if i < 0 then best == 0.0
    else i < j < |clusters| && best == Linkage(c, clusters[i], clusters[j]) && best > 0.0
  }

  /** No pair that starts before `i` is closer than `best`. */
  ghost predicate NoneCloserBefore(c: Corpus, clusters: seq<seq<nat>>, i: nat, best: real)
    requires ValidCorpus(c) && i <= |clusters|
  {
    forall m :: 0 <= m < i ==> NoneCloserTo(c, clusters, m, |clusters|, best)
  }

  /** No cluster after `m` and before `j` is closer to `m`. */
  ghost predicate NoneCloserTo(c: Corpus, clusters: seq<seq<nat>>, m: nat, j: nat, best: real)
    requires ValidCorpus(c) && m < |clusters| && j <= |clusters|
  {
    forall n :: m < n < j ==> Linkage(c, clusters[m], clusters[n]) <= best
  }

  lemma HigherBound(c: Corpus, clusters: seq<seq<nat>>, i: nat, best: real, higher: real)
    requires ValidCorpus(c) && i <= |clusters| && NoneCloserBefore(c, clusters, i, best) && best <= higher
    ensures NoneCloserBefore(c, clusters, i, higher)
  {
    forall m | 0 <= m < i ensures NoneCloserTo(c, clusters, m, |clusters|, higher) {
      assert NoneCloserTo(c, clusters, m, |clusters|, best);
    }
  }

  method ClosestPair(c: Corpus, clusters: seq<seq<nat>>) returns (bestI: int, bestJ: int, bestSim: real)
    requires ValidCorpus(c)
    ensures BestSoFar(c, clusters, bestI, bestJ, bestSim)
    ensures NoneCloser(c, clusters, bestSim)
  {
    bestI, bestJ, bestSim := -1, -1, 0.0;
    for i := 0 to |clusters|
      invariant BestSoFar(c, clusters, bestI, bestJ, bestSim) && NoneCloserBefore(c, clusters, i, bestSim)
    {
      for j := i + 1 to |clusters|
        invariant BestSoFar(c, clusters, bestI, bestJ, bestSim) && NoneCloserBefore(c, clusters, i, bestSim)
        invariant NoneCloserTo(c, clusters, i, j, bestSim)
      {
        var sim := ClusterSimilarity(c, clusters[i], clusters[j]);
        if sim > bestSim {
          HigherBound(c, clusters, i, bestSim, sim);
          bestSim, bestI, bestJ := sim, i, j;
        }
      }
    }
    forall i, j | 0 <= i < j < |clusters| ensures Linkage(c, clusters[i], clusters[j]) <= bestSim {
      assert NoneCloserTo(c, clusters, i, |clusters|, bestSim);
    }
  }

  /** When merging stops: every pair is below a positive threshold; otherwise no pair is above zero. */
  ghost predicate Separated(c: Corpus, clusters: seq<seq<nat>>, threshold: real)
    requires ValidCorpus(c)
  {
    forall i, j :: 0 <= i < j < |clusters| ==>
      if threshold > 0.0 then Linkage(c, clusters[i], clusters[j]) < threshold
        else Linkage(c, clusters[i], clusters[j]) <= 0.0
  }

  /** Which two clusters a join takes. */
  datatype Place = Place(i: nat, j: nat)

  /** The clusters after cluster `j` was appended to cluster `i`. */
  ghost function JoinedAt(clusters: seq<seq<nat>>, i: nat, j: nat): seq<seq<nat>>
    requires i < j < |clusters|
  {
    var merged := clusters[i := clusters[i] + clusters[j]];
    merged[..j] + merged[j + 1..]
  }

  /** `after` joins two clusters of `before` that reach the threshold, and no two are closer. */
  ghost predicate JoinsClosest(c: Corpus, threshold: real, before: seq<seq<nat>>, after: seq<seq<nat>>, at: Place)
    requires ValidCorpus(c)
  {
    && at.i < at.j < |before| && after == JoinedAt(before, at.i, at.j)
    && var linkage := Linkage(c, before[at.i], before[at.j]);
       linkage >= threshold && linkage > 0.0 && NoneCloser(c, before, linkage)
  }

  ghost function Singletons(n: nat): seq<seq<nat>> {
    seq(n, i => [i])
  }

  /** How the clusters came about: from singletons, each join being one of a closest pair. */
  ghost predicate Dendrogram(c: Corpus, threshold: real, trace: seq<seq<seq<nat>>>, joins: seq<Place>)
    requires ValidCorpus(c)
  {
    && |trace| == |joins| + 1 && trace[0] == Singletons(|c.items|)
    && forall k :: 0 <= k < |joins| ==> JoinsClosest(c, threshold, trace[k], trace[k + 1], joins[k])
  }

  lemma DendrogramNext(c: Corpus, threshold: real, trace: seq<seq<seq<nat>>>, joins: seq<Place>, next: seq<seq<nat>>,
                       at: Place)
    requires ValidCorpus(c) && Dendrogram(c, threshold, trace, joins)
    requires JoinsClosest(c, threshold, trace[|joins|], next, at)
    ensures Dendrogram(c, threshold, trace + [next], joins + [at])
  {}

  method MergeClosest(c: Corpus, threshold: real)
    returns (clusters: seq<seq<nat>>, ghost trace: seq<seq<seq<nat>>>, ghost joins: seq<Place>)
    requires ValidCorpus(c) && |c.items| > 0
    ensures Partition(clusters, |c.items|)
    ensures Separated(c, clusters, threshold)
    ensures Dendrogram(c, threshold, trace, joins) && trace[|joins|] == clusters
    ensures |clusters| + |joins| == |c.items| && |clusters| > 0
  {
    var n := |c.items|;
    clusters := seq(n, i => [i]);
    SingletonsPartition(clusters);
    trace, joins := [clusters], [];
    while true
      invariant Partition(clusters, n)
      invariant Dendrogram(c, threshold, trace, joins) && trace[|joins|] == clusters
      invariant |clusters| + |joins| == n && |clusters| > 0
      decreases |clusters|
    {
      var bestI, bestJ, bestSim := ClosestPair(c, clusters);
      if bestSim < threshold || bestI < 0 {
        break;
      }
      MergeKeepsElements<nat>(clusters, bestI, bestJ);
      ghost var next := JoinedAt(clusters, bestI, bestJ);
      DendrogramNext(c, threshold, trace, joins, next, Place(bestI, bestJ));
      trace, joins := trace + [next], joins + [Place(bestI, bestJ)];
      clusters := clusters[bestI := clusters[bestI] + clusters[bestJ]];
      clusters := clusters[..bestJ] + clusters[bestJ + 1..];
    }
  }

  // ---------------------------------------------------------------- what holds a cluster together

  /** A single index, or two such parts whose linkage reaches the threshold. */
  ghost predicate Linked(c: Corpus, threshold: real, s: seq<nat>)
    requires ValidCorpus(c)
    decreases |s|
  {
    || |s| == 1
    || exists k :: 0 < k < |s| && Linked(c, threshold, s[..k]) && Linked(c, threshold, s[k..])
         && Linkage(c, s[..k], s[k..]) >= threshold && Linkage(c, s[..k], s[k..]) > 0.0
  }

  lemma JoinIsLinked(c: Corpus, threshold: real, a: seq<nat>, b: seq<nat>)
    requires ValidCorpus(c) && a != [] && b != [] && Linked(c, threshold, a) && Linked(c, threshold, b)
    requires Linkage(c, a, b) >= threshold && Linkage(c, a, b) > 0.0
    ensures Linked(c, threshold, a + b)
  {
    var s, k := a + b, |a|;
    assert s[..k] == a && s[k..] == b;
  }

  ghost predicate AllLinked(c: Corpus, threshold: real, clusters: seq<seq<nat>>)
    requires ValidCorpus(c)
  {
    forall k :: 0 <= k < |clusters| ==> clusters[k] != [] && Linked(c, threshold, clusters[k])
  }

  lemma JoinedMembers(before: seq<seq<nat>>, i: nat, j: nat, k: nat)
    requires i < j < |before| && k < |before| - 1
    ensures |JoinedAt(before, i, j)| == |before| - 1
    ensures JoinedAt(before, i, j)[k] ==
        if k == i then before[i] + before[j] else if k < j then before[k] else before[k + 1]
  {}

  lemma JoinKeepsLinked(c: Corpus, threshold: real, before: seq<seq<nat>>, after: seq<seq<nat>>, at: Place)
    requires ValidCorpus(c) && AllLinked(c, threshold, before) && JoinsClosest(c, threshold, before, after, at)
    ensures AllLinked(c, threshold, after)
  {
    JoinIsLinked(c, threshold, before[at.i], before[at.j]);
    forall k | 0 <= k < |after| ensures after[k] != [] && Linked(c, threshold, after[k]) {
      JoinedMembers(before, at.i, at.j, k);
    }
  }

  /** Every cluster of every stage is held together by joins at the threshold or above. */
  lemma {:induction false} ClustersAreLinked(c: Corpus, threshold: real, trace: seq<seq<seq<nat>>>, joins: seq<Place>,
                                             k: nat)
    requires ValidCorpus(c) && Dendrogram(c, threshold, trace, joins) && k <= |joins|
    ensures AllLinked(c, threshold, trace[k])
  {
    if k > 0 {
      ClustersAreLinked(c, threshold, trace, joins, k - 1);
      assert JoinsClosest(c, threshold, trace[k - 1], trace[k - 1 + 1], joins[k - 1]);
      JoinKeepsLinked(c, threshold, trace[k - 1], trace[k], joins[k - 1]);
    }
  }

  /** How alike two episodes are: by their vectors when both have one, else by their texts. */
  function Alike(c: Corpus, i: nat, j: nat): real
    requires ValidCorpus(c) && i < |c.items| && j < |c.items|
  {
    if c.vectors[i].Some? && c.vectors[j].Some? then c.m.cosine(c.vectors[i].value, c.vectors[j].value)
    else c.m.overlap(c.items[i].summary, c.items[j].summary)
  }

  lemma TallyOfTwo(i: nat, j: nat, f: (nat, nat) -> Option<real>, r: Option<real>)
    requires f(i, j) == r
    ensures PairTally([i], [j], f) == if r.None? then Tally(0.0, 0) else Tally(r.value, 1)
  {
    assert [i][..0] == [] && [j][..0] == [];
    assert RowTally(i, [j], f) == if r.None? then Tally(0.0, 0) else Tally(r.value, 1);
  }

  lemma AverageOfOne(x: real)
    ensures Average(Tally(x, 1)) == x
  {
    assert Tally(x, 1).count as real == 1.0;
  }

  lemma LinkageByTally(c: Corpus, a: seq<nat>, b: seq<nat>, t: Tally, u: Tally)
    requires ValidCorpus(c) && t == PairTally(a, b, VectorPair(c)) && u == PairTally(a, b, TextPair(c))
    ensures Linkage(c, a, b) == if t.count > 0 then Average(t) else Average(u)
  {}

  lemma LinkageOfTwo(c: Corpus, i: nat, j: nat)
    requires ValidCorpus(c) && i < |c.items| && j < |c.items|
    ensures Linkage(c, [i], [j]) == Alike(c, i, j)
  {
    var x := c.m.overlap(c.items[i].summary, c.items[j].summary);
    var u := Tally(x, 1);
    TallyOfTwo(i, j, TextPair(c), Some(x));
    AverageOfOne(x);
    if c.vectors[i].Some? && c.vectors[j].Some? {
      var y := c.m.cosine(c.vectors[i].value, c.vectors[j].value);
      TallyOfTwo(i, j, VectorPair(c), Some(y));
      AverageOfOne(y);
      LinkageByTally(c, [i], [j], Tally(y, 1), u);
    } else {
      TallyOfTwo(i, j, VectorPair(c), None);
      LinkageByTally(c, [i], [j], Tally(0.0, 0), u);
    }
  }

  /** Nothing is joined exactly when no two episodes are alike enough. */
  lemma ApartIffUnlike(c: Corpus, threshold: real, trace: seq<seq<seq<nat>>>, joins: seq<Place>)
    requires ValidCorpus(c) && Dendrogram(c, threshold, trace, joins) && threshold > 0.0
    requires Separated(c, trace[|joins|], threshold)
    ensures joins == [] <==> forall i, j :: 0 <= i < j < |c.items| ==> Alike(c, i, j) < threshold
  {
    var n, first := |c.items|, trace[0];
    forall i, j | 0 <= i < j < n ensures Linkage(c, first[i], first[j]) == Alike(c, i, j) { LinkageOfTwo(c, i, j); }
    if joins != [] {
      assert JoinsClosest(c, threshold, first, trace[0 + 1], joins[0]);
      assert Alike(c, joins[0].i, joins[0].j) >= threshold;
    }
  }

  /** The vector of a summary, or None when embedding fails or carries no signal. */
  function SignalOf(m: Measures, text: string): Option<Vector> {
    match m.embed(text)
    case None => None
    case Some(v) => if HasMagnitude(v) then Some(v) else None
  }

  function CorpusOf(m: Measures, items: seq<Item>): (c: Corpus)
    ensures ValidCorpus(c) && c.items == items
  {
    Corpus(items, seq(|items|, i requires 0 <= i < |items| => SignalOf(m, items[i].summary)), m)
  }

  function EffectiveThreshold(c: Corpus, mergeThreshold: real): real {
    if forall i :: 0 <= i < |c.vectors| ==> c.vectors[i].None? then LEXICAL_THRESHOLD else mergeThreshold
  }

  function EpisodeAt(items: seq<Item>): nat -> Item
    requires items != []
  {
    (i: nat) => if i < |items| then items[i] else items[0]
  }

  /** Merging stopped after these joins: a partition of the episodes, no two parts of which are close enough. */
  ghost predicate Stopped(c: Corpus, threshold: real, trace: seq<seq<seq<nat>>>, joins: seq<Place>)
    requires ValidCorpus(c)
  {
    && Dendrogram(c, threshold, trace, joins) && Separated(c, trace[|joins|], threshold)
    && Partition(trace[|joins|], |c.items|) && |trace[|joins|]| + |joins| == |c.items|
  }

  /** `result` shows, as episodes, what merging closest clusters ends with. */
  ghost predicate SubClustered(m: Measures, items: seq<Item>, mergeThreshold: real, result: seq<seq<Item>>)
    requires items != []
  {
    var c := CorpusOf(m, items);
    var threshold := EffectiveThreshold(c, mergeThreshold);
    exists trace, joins :: Stopped(c, threshold, trace, joins) && result == MapAll(EpisodeAt(items), trace[|joins|])
  }

  lemma OneEpisodeAlone(m: Measures, items: seq<Item>, mergeThreshold: real)
    requires |items| == 1
    ensures SubClustered(m, items, mergeThreshold, [items])
  {
    var trace, joins: seq<Place> := [Singletons(1)], [];
    SingletonsPartition(trace[0]);
    assert Stopped(CorpusOf(m, items), EffectiveThreshold(CorpusOf(m, items), mergeThreshold), trace, joins);
    assert Map(EpisodeAt(items), [0]) == items;
    assert MapAll(EpisodeAt(items), trace[0]) == [items];
  }

  /** The sub-clusters of one entity group, as episodes. */
  method SubCluster(m: Measures, items: seq<Item>, mergeThreshold: real) returns (result: seq<seq<Item>>)
    ensures Pool(result) == multiset(items)
    ensures items != [] ==> SubClustered(m, items, mergeThreshold, result)
    ensures items != [] ==> forall k :: 0 <= k < |result| ==> result[k] != []
  {
    if |items| <= 1 {
      result := [items];
      PoolSplit(result, 0);
      if items != [] { OneEpisodeAlone(m, items, mergeThreshold); }
      return;
    }
    var c := CorpusOf(m, items);
    ghost var trace, joins;
    var clusters;
    clusters, trace, joins := MergeClosest(c, EffectiveThreshold(c, mergeThreshold));
    var episode := EpisodeAt(items);
    result := [];
    for ci := 0 to |clusters|
      invariant |result| == ci && forall k :: 0 <= k < ci ==> result[k] == Map(episode, clusters[k])
    {
      result := result + [Map(episode, clusters[ci])];
    }
    assert result == MapAll(episode, clusters);
    MapPool<nat, Item>(episode, clusters, Iota(|items|));
    assert Map(episode, Iota(|items|)) == items;
  }

  // ---------------------------------------------------------------- what sub-clusters mean

  /** The sub-clusters hold exactly the episodes. */
  lemma SubClustersHoldAll(m: Measures, items: seq<Item>, mergeThreshold: real, result: seq<seq<Item>>)
    requires items != [] && SubClustered(m, items, mergeThreshold, result)
    ensures Pool(result) == multiset(items)
  {
    var c := CorpusOf(m, items);
    var threshold := EffectiveThreshold(c, mergeThreshold);
    var trace, joins :| Stopped(c, threshold, trace, joins) && result == MapAll(EpisodeAt(items), trace[|joins|]);
    MapPool<nat, Item>(EpisodeAt(items), trace[|joins|], Iota(|items|));
    assert Map(EpisodeAt(items), Iota(|items|)) == items;
  }

  lemma {:induction false} PoolOfSingletons<T>(s: seq<seq<T>>)
    requires forall k :: 0 <= k < |s| ==> |s[k]| == 1
    ensures |Pool(s)| == |s|
  {
    if s != [] { PoolOfSingletons(s[1..]); }
  }

  lemma AllSingleIff(c: Corpus, threshold: real, trace: seq<seq<seq<nat>>>, joins: seq<Place>)
    requires ValidCorpus(c) && Stopped(c, threshold, trace, joins)
    ensures (forall k :: 0 <= k < |trace[|joins|]| ==> |trace[|joins|][k]| == 1) <==> joins == []
  {
    var last, n := trace[|joins|], |c.items|;
    if joins == [] {
      assert forall k :: 0 <= k < |last| ==> last[k] == [k];
    } else {
      assert |multiset(Iota(n))| == n > |last|;
      if forall k :: 0 <= k < |last| ==> |last[k]| == 1 { PoolOfSingletons(last); }
    }
  }

  lemma AlikeMeans(m: Measures, items: seq<Item>, i: nat, j: nat)
    requires i < |items| && j < |items|
    ensures Alike(CorpusOf(m, items), i, j) == match (SignalOf(m, items[i].summary), SignalOf(m, items[j].summary))
      case (Some(v), Some(w)) => m.cosine(v, w)
      case _ => m.overlap(items[i].summary, items[j].summary)
  {}

  lemma ThresholdMeans(m: Measures, items: seq<Item>, mergeThreshold: real)
    ensures EffectiveThreshold(CorpusOf(m, items), mergeThreshold)
        == if forall n :: 0 <= n < |items| ==> SignalOf(m, items[n].summary).None? then 0.3 else mergeThreshold
  {
    var c := CorpusOf(m, items);
    assert forall n :: 0 <= n < |items| ==> c.vectors[n] == SignalOf(m, items[n].summary);
  }

  lemma SinglesIffUnlike(m: Measures, items: seq<Item>, mergeThreshold: real, result: seq<seq<Item>>)
    requires items != [] && SubClustered(m, items, mergeThreshold, result) && mergeThreshold > 0.0
    ensures (forall k :: 0 <= k < |result| ==> |result[k]| == 1) <==>
      forall i, j :: 0 <= i < j < |items| ==>
        Alike(CorpusOf(m, items), i, j) < EffectiveThreshold(CorpusOf(m, items), mergeThreshold)
  {
    var c := CorpusOf(m, items);
    var threshold := EffectiveThreshold(c, mergeThreshold);
    var trace, joins :| Stopped(c, threshold, trace, joins) && result == MapAll(EpisodeAt(items), trace[|joins|]);
    AllSingleIff(c, threshold, trace, joins);
    ApartIffUnlike(c, threshold, trace, joins);
    assert forall k :: 0 <= k < |result| ==> |result[k]| == |trace[|joins|][k]|;
  }

  /**
   All episodes stay apart exactly when no two are alike enough: by the cosine of their vectors when
   both have one, else by the overlap of their summaries, and measured against the lexical threshold
   when no episode has a vector.
   */
  lemma ApartIff(m: Measures, items: seq<Item>, mergeThreshold: real, result: seq<seq<Item>>)
    requires items != [] && SubClustered(m, items, mergeThreshold, result) && mergeThreshold > 0.0
    ensures (forall k :: 0 <= k < |result| ==> |result[k]| == 1) <==>
      forall i, j :: 0 <= i < j < |items| ==>
        (match (SignalOf(m, items[i].summary), SignalOf(m, items[j].summary))
         case (Some(v), Some(w)) => m.cosine(v, w)
         case _ => m.overlap(items[i].summary, items[j].summary))
        < if forall n :: 0 <= n < |items| ==> SignalOf(m, items[n].summary).None? then 0.3 else mergeThreshold
  {
    SinglesIffUnlike(m, items, mergeThreshold, result);
    ThresholdMeans(m, items, mergeThreshold);
    forall i, j | 0 <= i < j < |items|
      ensures Alike(CorpusOf(m, items), i, j)
        == match (SignalOf(m, items[i].summary), SignalOf(m, items[j].summary))
           case (Some(v), Some(w)) => m.cosine(v, w)
           case _ => m.overlap(items[i].summary, items[j].summary)
    {
      AlikeMeans(m, items, i, j);
    }
  }

  /** What a sub-cluster shows is held together: every split of it goes back to a join at the threshold or above. */
  lemma SubClustersAreLinked(m: Measures, items: seq<Item>, mergeThreshold: real, result: seq<seq<Item>>, k: nat)
    returns (s: seq<nat>)
    requires items != [] && SubClustered(m, items, mergeThreshold, result) && k < |result|
    ensures result[k] == Map(EpisodeAt(items), s) && s != []
    ensures Linked(CorpusOf(m, items), EffectiveThreshold(CorpusOf(m, items), mergeThreshold), s)
  {
    var c := CorpusOf(m, items);
    var threshold := EffectiveThreshold(c, mergeThreshold);
    var trace, joins :| Stopped(c, threshold, trace, joins) && result == MapAll(EpisodeAt(items), trace[|joins|]);
    ClustersAreLinked(c, threshold, trace, joins, |joins|);
    s := trace[|joins|][k];
  }

  lemma CloseByVectors(c: Corpus, a: seq<nat>, b: seq<nat>, lo: real, hi: real)
    requires ValidCorpus(c) && a != [] && b != [] && Bounded(a, b, VectorPair(c), lo, hi)
    requires forall i :: i in a || i in b ==> i < |c.items| && c.vectors[i].Some?
    ensures Linkage(c, a, b) >= lo
  {
    PairsWithin(a, b, VectorPair(c), lo, hi);
    assert a[|a| - 1] in a && b[|b| - 1] in b;
    AverageWithin(PairTally(a, b, VectorPair(c)), lo, hi);
  }

  lemma ClustersAreBelow(clusters: seq<seq<nat>>, n: nat, k: nat)
    requires Partition(clusters, n) && k < |clusters|
    ensures forall i :: i in clusters[k] ==> i < n
  {
    forall i | i in clusters[k] ensures i < n { PartitionMeans(clusters, n, i); }
  }

  /** Two clusters of episodes that are all alike enough do not remain apart. */
  lemma AlikeAreNotSeparated(c: Corpus, threshold: real, clusters: seq<seq<nat>>, hi: real)
    requires ValidCorpus(c) && Partition(clusters, |c.items|) && Separated(c, clusters, threshold) && threshold > 0.0
    requires forall i :: 0 <= i < |c.items| ==> c.vectors[i].Some?
    requires forall i, j :: 0 <= i < |c.items| && 0 <= j < |c.items| ==>
      threshold <= c.m.cosine(c.vectors[i].value, c.vectors[j].value) <= hi
    ensures |clusters| <= 1
  {
    if |clusters| > 1 {
      ClustersAreBelow(clusters, |c.items|, 0);
      ClustersAreBelow(clusters, |c.items|, 1);
      CloseByVectors(c, clusters[0], clusters[1], threshold, hi);
    }
  }

  /** Episodes with vectors that are all alike enough end in one cluster. */
  lemma AllAlikeJoin(m: Measures, items: seq<Item>, mergeThreshold: real, result: seq<seq<Item>>, hi: real)
    requires items != [] && SubClustered(m, items, mergeThreshold, result) && mergeThreshold > 0.0
    requires forall i :: 0 <= i < |items| ==> SignalOf(m, items[i].summary).Some?
    requires forall i, j :: 0 <= i < |items| && 0 <= j < |items| ==>
      mergeThreshold <= m.cosine(SignalOf(m, items[i].summary).value, SignalOf(m, items[j].summary).value) <= hi
    ensures |result| == 1
  {
    var c := CorpusOf(m, items);
    var threshold := EffectiveThreshold(c, mergeThreshold);
    var trace, joins :| Stopped(c, threshold, trace, joins) && result == MapAll(EpisodeAt(items), trace[|joins|]);
    ThresholdMeans(m, items, mergeThreshold);
    assert SignalOf(m, items[0].summary).Some?;
    AlikeAreNotSeparated(c, threshold, trace[|joins|], hi);
    assert |multiset(Iota(|items|))| == |items|;
  }

  lemma {:induction false} IotaCounts(n: nat, i: nat)
    ensures multiset(Iota(n))[i] == if i < n then 1 else 0
  {
    if n > 0 {
      IotaCounts(n - 1, i);
      assert Iota(n) == Iota(n - 1) + [n - 1];
    }
  }

  /** A partition in plain words: every index below `n`, and nothing else, is in exactly one cluster. */
  lemma PartitionMeans(clusters: seq<seq<nat>>, n: nat, i: nat)
    requires Partition(clusters, n)
    ensures i < n <==> exists c :: 0 <= c < |clusters| && i in clusters[c]
    ensures forall c, d :: 0 <= c < d < |clusters| && i in clusters[c] ==> i !in clusters[d]
    ensures forall c :: 0 <= c < |clusters| ==> multiset(clusters[c])[i] <= 1
  {
    IotaCounts(n, i);
    PoolMember<nat>(clusters, i);
    forall c | 0 <= c < |clusters|
      ensures multiset(clusters[c])[i] <= 1
      ensures forall d :: c < d < |clusters| && i in clusters[c] ==> i !in clusters[d]
    {
      PoolSplit<nat>(clusters, c);
      var rest := clusters[..c] + clusters[c + 1..];
      if i in clusters[c] {
        PoolMember<nat>(rest, i);
        assert i in multiset(clusters[c]);
        forall d | c < d < |clusters| ensures i !in clusters[d] {
          assert rest[d - 1] == clusters[d];
        }
      }
    }
  }
}
