/**
 Ranking of search candidates: the hand-written exchange sort, the rank lists of the semantic
 and the lexical channel, and their reciprocal-rank fusion.
 */
module RankFusion {
  import opened Wrappers
  import SortSlice

  const DEFAULT_K := 60

  datatype Row = Row(id: nat, summary: string, weight: real, surprise: real, vector: seq<real>, occurredAt: int)

  datatype Scored = Scored(mem: Row, score: real)

  // ---------------------------------------------------------------- the exchange sort

  /** Higher score first, then higher weight. */
  predicate Ahead(a: Scored, b: Scored) {
    a.score > b.score || (a.score == b.score && a.mem.weight >= b.mem.weight)
  }

  ghost predicate Sorted(s: seq<Scored>) {
    forall i, j :: 0 <= i < j < |s| ==> Ahead(s[i], s[j])
  }

  /** Places up to `i` are final: nothing after them belongs before them. */
  ghost predicate Settled(s: seq<Scored>, i: nat) {
    forall m, n :: 0 <= m < i && m < n < |s| ==> Ahead(s[m], s[n])
  }

  ghost predicate AheadOf(s: seq<Scored>, i: nat, j: nat) {
    i < |s| && forall n :: i < n < j && n < |s| ==> Ahead(s[i], s[n])
  }

  lemma ExchangeKeepsSettled(s: seq<Scored>, i: nat, j: nat)
    requires i < j < |s| && Settled(s, i)
    ensures Settled(s[i := s[j]][j := s[i]], i)
    ensures multiset(s[i := s[j]][j := s[i]]) == multiset(s)
    ensures AheadOf(s, i, j) && !Ahead(s[i], s[j]) ==> AheadOf(s[i := s[j]][j := s[i]], i, j + 1)
  {
  }

  /** The inner loop: the best of the rest is exchanged into place `i`. */
  method ExchangePass(items: array<Scored>, i: nat)
    requires i < items.Length && Settled(items[..], i)
    modifies items
    ensures Settled(items[..], i + 1)
    ensures multiset(items[..]) == old(multiset(items[..]))
  {
    for j := i + 1 to items.Length
      invariant Settled(items[..], i)
      invariant AheadOf(items[..], i, j)
      invariant multiset(items[..]) == old(multiset(items[..]))
    {
      if items[i].score < items[j].score
         || (items[i].score == items[j].score && items[i].mem.weight < items[j].mem.weight) {
        ExchangeKeepsSettled(items[..], i, j);
        ghost var before := items[..];
        items[i], items[j] := items[j], items[i];
        assert items[..] == before[i := before[j]][j := before[i]];
      }
    }
  }

  method SortScoredEpisodics(items: array<Scored>)
    modifies items
    ensures Sorted(items[..])
    ensures multiset(items[..]) == old(multiset(items[..]))
  {
    for i := 0 to items.Length
      invariant Settled(items[..], i)
      invariant multiset(items[..]) == old(multiset(items[..]))
    {
      ExchangePass(items, i);
    }
  }

  /** A sorted copy of a list, by the exchange sort. */
  method SortedCopy(list: seq<Scored>) returns (r: seq<Scored>)
    ensures Sorted(r) && multiset(r) == multiset(list)
  {
    var items := new Scored[|list|](i requires 0 <= i < |list| => list[i]);
    assert items[..] == list;
    SortScoredEpisodics(items);
    r := items[..];
  }

  // ---------------------------------------------------------------- channels and ranks

  /** The candidates one channel scores, in candidate order; None skips a candidate. */
  ghost function Channel(candidates: seq<Row>, score: Row -> Option<real>): (r: seq<Scored>)
    ensures |r| <= |candidates|
    ensures forall i :: 0 <= i < |r| ==> r[i].mem in candidates && score(r[i].mem) == Some(r[i].score)
    ensures forall m :: m in candidates && score(m).Some? ==> Scored(m, score(m).value) in r
  {
    if candidates == [] then [] else
    var n := |candidates| - 1;
    var rest := Channel(candidates[..n], score);
    assert candidates == candidates[..n] + [candidates[n]];
    match score(candidates[n])
    case None => rest
    case Some(x) => rest + [Scored(candidates[n], x)]
  }

  method ScoreChannel(candidates: seq<Row>, score: Row -> Option<real>) returns (r: seq<Scored>)
    ensures r == Channel(candidates, score)
  {
    r := [];
    for i := 0 to |candidates|
      invariant r == Channel(candidates[..i], score)
    {
      assert candidates[..i + 1][..i] == candidates[..i];
      match score(candidates[i])
      case None =>
      case Some(x) => r := r + [Scored(candidates[i], x)];
    }
    assert candidates[..|candidates|] == candidates;
  }

  ghost predicate DistinctRows(rows: seq<Row>) {
    forall i, j :: 0 <= i < j < |rows| ==> rows[i].id != rows[j].id
  }

  ghost predicate DistinctIds(s: seq<Scored>) {
    forall i, j :: 0 <= i < j < |s| ==> s[i].mem.id != s[j].mem.id
  }

  /** `ranks` gives every listed id its 1-based place in some sorted arrangement of the list. */
  ghost predicate Ranks(list: seq<Scored>, ranks: map<nat, nat>) {
    exists s :: Sorted(s) && multiset(s) == multiset(list) && PlacesOf(s, ranks)
  }

  ghost predicate PlacesOf(s: seq<Scored>, ranks: map<nat, nat>) {
    && (forall i :: 0 <= i < |s| ==> s[i].mem.id in ranks && ranks[s[i].mem.id] == i + 1)
    && (forall id :: id in ranks ==> Lists(s, id))
  }

  ghost predicate Lists(s: seq<Scored>, id: nat) {
    exists i :: 0 <= i < |s| && s[i].mem.id == id
  }

  method RankMap(items: seq<Scored>) returns (m: map<nat, nat>)
    requires DistinctIds(items)
    ensures PlacesOf(items, m)
  {
    m := map[];
    for i := 0 to |items|
      invariant forall j :: 0 <= j < i ==> items[j].mem.id in m && m[items[j].mem.id] == j + 1
      invariant forall id :: id in m ==> Lists(items, id)
    {
      m := m[items[i].mem.id := i + 1];
    }
  }

  lemma {:induction false} ChannelIsDistinct(candidates: seq<Row>, score: Row -> Option<real>)
    requires DistinctRows(candidates)
    ensures DistinctIds(Channel(candidates, score))
  {
    if candidates != [] {
      var n := |candidates| - 1;
      ChannelIsDistinct(candidates[..n], score);
      forall i | 0 <= i < |Channel(candidates[..n], score)|
        ensures Channel(candidates[..n], score)[i].mem.id != candidates[n].id
      {
        assert Channel(candidates[..n], score)[i].mem in candidates[..n];
      }
    }
  }

  /** A permutation of a list without repeated ids has none either. */
  lemma PermutationIsDistinct(s: seq<Scored>, list: seq<Scored>)
    requires multiset(s) == multiset(list) && DistinctIds(list)
    ensures DistinctIds(s)
  {
    SortSlice.PermutedDistinct(list, s);
    forall i, j | 0 <= i < j < |s| ensures s[i].mem.id != s[j].mem.id {
      assert s[i] in list && s[j] in list;
    }
  }

  /** What a rank means: distinct places, and a strictly better score means a smaller rank. */
  lemma RanksFollowScores(list: seq<Scored>, ranks: map<nat, nat>, a: Scored, b: Scored)
    requires DistinctIds(list) && Ranks(list, ranks) && a in list && b in list
    ensures a.mem.id in ranks && b.mem.id in ranks
    ensures a.score > b.score ==> ranks[a.mem.id] < ranks[b.mem.id]
    ensures a != b ==> ranks[a.mem.id] != ranks[b.mem.id]
  {
    var s :| Sorted(s) && multiset(s) == multiset(list) && PlacesOf(s, ranks);
    assert a in multiset(s) && b in multiset(s);
    var i :| 0 <= i < |s| && s[i] == a;
    var j :| 0 <= j < |s| && s[j] == b;
    assert j < i ==> Ahead(s[j], s[i]);
  }

  /** A strict winner stands first, and who is strictly behind all others stands last. */
  lemma FirstAndLast(list: seq<Scored>, ranks: map<nat, nat>, x: Scored)
    requires DistinctIds(list) && Ranks(list, ranks) && x in list
    ensures x.mem.id in ranks
    ensures (forall y :: y in list && y != x ==> x.score > y.score) ==> ranks[x.mem.id] == 1
    ensures (forall y :: y in list && y != x ==> x.score < y.score) ==> ranks[x.mem.id] == |list|
  {
    var s :| Sorted(s) && multiset(s) == multiset(list) && PlacesOf(s, ranks);
    PermutationIsDistinct(s, list);
    assert |s| == |multiset(s)| == |multiset(list)| == |list|;
    assert forall y :: y in list <==> y in multiset(s);
    var i :| 0 <= i < |s| && s[i] == x;
    var first, last := s[0], s[|s| - 1];
    assert first in multiset(s) && last in multiset(s);
    if i > 0 { assert Ahead(first, x) && first != x; }
    if i < |s| - 1 { assert Ahead(x, last) && last != x; }
  }

  // ---------------------------------------------------------------- fusion

  function Reciprocal(k: nat, ranks: map<nat, nat>, id: nat): real
    requires k > 0
  {
    if id in ranks then 1.0 / (k + ranks[id]) as real else 0.0
  }

  function Boosted(base: real, boost: real, surprise: real): real {
    if boost > 0.0 then base * (1.0 + boost * surprise) else base
  }

  function BaseScore(k: nat, sem: map<nat, nat>, lex: map<nat, nat>, id: nat): real
    requires k > 0
  {
    Reciprocal(k, sem, id) + Reciprocal(k, lex, id)
  }

  function FusedScore(k: nat, sem: map<nat, nat>, lex: map<nat, nat>, boost: real, m: Row): real
    requires k > 0
  {
    Boosted(BaseScore(k, sem, lex, m.id), boost, m.surprise)
  }

  function EffectiveK(rrfK: int): (k: nat)
    ensures k > 0 && (rrfK > 0 ==> k == rrfK) && (rrfK <= 0 ==> k == DEFAULT_K)
  {
    if rrfK <= 0 then DEFAULT_K else rrfK
  }

  /** The query a search carries; `cosine` and `overlap` are the similarity functions. */
  datatype Query = Query(
    embedding: seq<real>, text: string, rrfK: int, boost: real,
    cosine: (seq<real>, seq<real>) -> real, overlap: (string, string) -> real)

  function SemanticScore(q: Query): Row -> Option<real> {
    (m: Row) => if |m.vector| == 0 || |m.vector| != |q.embedding| then None else Some(q.cosine(q.embedding, m.vector))
  }

  function LexicalScore(q: Query): Row -> Option<real> {
    (m: Row) => if q.overlap(q.text, m.summary) > 0.0 then Some(q.overlap(q.text, m.summary)) else None
  }

  /** Both rank maps are rankings of their channel. */
  ghost predicate RanksOf(q: Query, candidates: seq<Row>, sem: map<nat, nat>, lex: map<nat, nat>) {
    && Ranks(Channel(candidates, SemanticScore(q)), sem)
    && Ranks(Channel(candidates, LexicalScore(q)), lex)
  }

  /** The fused list: each candidate some channel ranked, with its fused score. */
  function Fused(candidates: seq<Row>, k: nat, sem: map<nat, nat>, lex: map<nat, nat>, boost: real): Row -> Option<real>
    requires k > 0
  {
    (m: Row) => if BaseScore(k, sem, lex, m.id) == 0.0 then None else Some(FusedScore(k, sem, lex, boost, m))
  }

  method RankChannel(candidates: seq<Row>, score: Row -> Option<real>) returns (ranks: map<nat, nat>)
    requires DistinctRows(candidates)
    ensures Ranks(Channel(candidates, score), ranks)
  {
    var list := ScoreChannel(candidates, score);
    var sorted := SortedCopy(list);
    ChannelIsDistinct(candidates, score);
    PermutationIsDistinct(sorted, list);
    ranks := RankMap(sorted);
  }

  method RrfRanked(candidates: seq<Row>, q: Query)
    returns (fused: seq<Scored>, sem: map<nat, nat>, lex: map<nat, nat>)
    requires DistinctRows(candidates)
    ensures RanksOf(q, candidates, sem, lex)
    ensures fused == Channel(candidates, Fused(candidates, EffectiveK(q.rrfK), sem, lex, q.boost))
  {
    var k := EffectiveK(q.rrfK);
    sem := RankChannel(candidates, SemanticScore(q));
    lex := RankChannel(candidates, LexicalScore(q));
    fused := ScoreChannel(candidates, Fused(candidates, k, sem, lex, q.boost));
  }

  /** The first `limit` of a ranked list, optionally re-ordered newest first. */
  method TopScoredEpisodics(ranked: seq<Scored>, limit: nat, timeSorted: bool) returns (results: seq<Row>)
    ensures |results| == if limit < |ranked| then limit else |ranked|
    ensures !timeSorted ==> forall i :: 0 <= i < |results| ==> results[i] == ranked[i].mem
    ensures timeSorted ==> SortSlice.Descending(results, (m: Row) => m.occurredAt as real)
    ensures multiset(results) == multiset(seq(|results|, i requires 0 <= i < |results| => ranked[i].mem))
  {
    var n := if limit < |ranked| then limit else |ranked|;
    results := seq(n, i requires 0 <= i < n => ranked[i].mem);
    if timeSorted {
      ghost var top := results;
      results := SortSlice.Sort(results, (m: Row) => m.occurredAt as real);
      assert |results| == |multiset(results)| == |multiset(top)| == n;
    }
  }

  /** Results in descending fused score, nothing better left out. */
  ghost predicate BestFirst(q: Query, candidates: seq<Row>, sem: map<nat, nat>, lex: map<nat, nat>, results: seq<Row>) {
    var k := EffectiveK(q.rrfK);
    && (forall i :: 0 <= i < |results| ==> results[i] in candidates && BaseScore(k, sem, lex, results[i].id) != 0.0)
    && (forall i, j :: 0 <= i < j < |results| ==>
          FusedScore(k, sem, lex, q.boost, results[i]) >= FusedScore(k, sem, lex, q.boost, results[j]))
    && (forall m, i :: m in candidates && m !in results && BaseScore(k, sem, lex, m.id) != 0.0 && 0 <= i < |results| ==>
          FusedScore(k, sem, lex, q.boost, results[i]) >= FusedScore(k, sem, lex, q.boost, m))
  }

  /** The first `limit` of a ranked list, as they rank and as they are reported. */
  method CutRanked(ranked: seq<Scored>, limit: nat, timeSorted: bool) returns (results: seq<Row>, ghost best: seq<Row>)
    requires DistinctIds(ranked)
    ensures |best| == (if limit < |ranked| then limit else |ranked|) && forall i :: 0 <= i < |best| ==>
        best[i] == ranked[i].mem
    ensures DistinctRows(best)
    ensures if timeSorted then multiset(results) == multiset(best) &&
        SortSlice.Descending(results, (m: Row) => m.occurredAt as real)
            else results == best
  {
    results := TopScoredEpisodics(ranked, limit, timeSorted);
    best := seq(|results|, i requires 0 <= i < |results| => ranked[i].mem);
  }

  /**
   The whole fused search: the best `limit` of the memories some channel ranked, each once, in
   descending fused score, or the same memories newest first.
   */
  method SearchFused(candidates: seq<Row>, q: Query, limit: nat, timeSorted: bool)
    returns (results: seq<Row>, sem: map<nat, nat>, lex: map<nat, nat>, ghost best: seq<Row>)
    requires DistinctRows(candidates)
    ensures RanksOf(q, candidates, sem, lex)
    ensures BestFirst(q, candidates, sem, lex, best) && DistinctRows(best)
    ensures var n := |Channel(candidates, Fused(candidates, EffectiveK(q.rrfK), sem, lex, q.boost))|;
      |best| == if limit < n then limit else n
    ensures if timeSorted then multiset(results) == multiset(best) &&
        SortSlice.Descending(results, (m: Row) => m.occurredAt as real)
            else results == best
  {
    var fused;
    fused, sem, lex := RrfRanked(candidates, q);
    var ranked := SortedCopy(fused);
    RankedIsDistinct(candidates, Fused(candidates, EffectiveK(q.rrfK), sem, lex, q.boost), ranked);
    results, best := CutRanked(ranked, limit, timeSorted);
    CutIsBestFirst(q, candidates, sem, lex, ranked, best);
  }

  lemma RankedIsDistinct(candidates: seq<Row>, score: Row -> Option<real>, ranked: seq<Scored>)
    requires DistinctRows(candidates) && multiset(ranked) == multiset(Channel(candidates, score))
    ensures DistinctIds(ranked) && |ranked| == |Channel(candidates, score)|
  {
    ChannelIsDistinct(candidates, score);
    PermutationIsDistinct(ranked, Channel(candidates, score));
    assert |ranked| == |multiset(ranked)| == |multiset(Channel(candidates, score))|;
  }

  /** Cutting a sorted fused list leaves nothing better behind. */
  lemma CutIsBestFirst(q: Query, candidates: seq<Row>, sem: map<nat, nat>, lex: map<nat, nat>,
                       ranked: seq<Scored>, results: seq<Row>)
    requires Sorted(ranked) && |results| <= |ranked|
    requires multiset(ranked) == multiset(Channel(candidates, Fused(candidates, EffectiveK(q.rrfK), sem, lex, q.boost)))
    requires forall i :: 0 <= i < |results| ==> results[i] == ranked[i].mem
    ensures BestFirst(q, candidates, sem, lex, results)
  {
    forall i | 0 <= i < |ranked| ensures IsFused(q, candidates, sem, lex, ranked[i]) {
      assert ranked[i] in multiset(ranked);
    }
    forall i, j | 0 <= i < j < |results|
      ensures Ahead(ranked[i], ranked[j])
    {
    }
    forall m, i | m in candidates && m !in results && BaseScore(EffectiveK(q.rrfK), sem, lex, m.id) != 0.0 &&
      0 <= i < |results|
      ensures FusedScore(EffectiveK(q.rrfK), sem, lex, q.boost, results[i])
        >= FusedScore(EffectiveK(q.rrfK), sem, lex, q.boost, m)
    {
      var j := PlaceInRanked(q, candidates, sem, lex, ranked, m);
      assert j >= |results| by { assert forall n :: 0 <= n < |results| ==> results[n] == ranked[n].mem; }
      assert Ahead(ranked[i], ranked[j]);
    }
  }

  ghost predicate IsFused(q: Query, candidates: seq<Row>, sem: map<nat, nat>, lex: map<nat, nat>, x: Scored) {
    var k := EffectiveK(q.rrfK);
    x.mem in candidates && BaseScore(k, sem, lex, x.mem.id) != 0.0 && x.score == FusedScore(k, sem, lex, q.boost, x.mem)
  }

  /** Every candidate that some channel ranked has a place in the ranked list. */
  lemma PlaceInRanked(q: Query, candidates: seq<Row>, sem: map<nat, nat>, lex: map<nat, nat>,
                      ranked: seq<Scored>, m: Row) returns (j: nat)
    requires multiset(ranked) == multiset(Channel(candidates, Fused(candidates, EffectiveK(q.rrfK), sem, lex, q.boost)))
    requires m in candidates && BaseScore(EffectiveK(q.rrfK), sem, lex, m.id) != 0.0
    ensures j < |ranked| && ranked[j].mem == m
  {
    var k := EffectiveK(q.rrfK);
    var x := Scored(m, FusedScore(k, sem, lex, q.boost, m));
    assert Fused(candidates, k, sem, lex, q.boost)(m) == Some(x.score);
    assert x in Channel(candidates, Fused(candidates, k, sem, lex, q.boost));
    assert x in multiset(ranked);
    j :| 0 <= j < |ranked| && ranked[j] == x;
  }

  // ---------------------------------------------------------------- the ranking laws

  lemma ReciprocalShrinks(x: real, y: real)
    requires 0.0 < x < y
    ensures 1.0 / x > 1.0 / y > 0.0
  {
    var p, q := 1.0 / x, 1.0 / y;
    assert p * x == 1.0 && q * y == 1.0;
    assert q > 0.0;
    assert (y - x) * (p * q) == (q * y) * p - (p * x) * q;
    assert p * q > 0.0;
    assert (y - x) * (p * q) > 0.0;
  }

  lemma ProductMonotone(a: real, b: real, c: real)
    requires a <= b && c >= 0.0
    ensures a * c <= b * c
  {
    assert (b - a) * c >= 0.0;
  }

  /** In one channel: `a` is ranked higher than `b`, or `a` is ranked and `b` is not. */
  ghost predicate Higher(ranks: map<nat, nat>, a: nat, b: nat) {
    a in ranks && (b in ranks ==> ranks[a] < ranks[b])
  }

  ghost predicate NoLower(ranks: map<nat, nat>, a: nat, b: nat) {
    b in ranks ==> a in ranks && ranks[a] <= ranks[b]
  }

  lemma HigherScoresMore(k: nat, ranks: map<nat, nat>, a: nat, b: nat)
    requires k > 0
    ensures Reciprocal(k, ranks, a) >= 0.0
    ensures Higher(ranks, a, b) ==> Reciprocal(k, ranks, a) > Reciprocal(k, ranks, b)
    ensures NoLower(ranks, a, b) ==> Reciprocal(k, ranks, a) >= Reciprocal(k, ranks, b)
  {
    if a in ranks {
      ReciprocalShrinks((k + ranks[a]) as real, (k + ranks[a] + 1) as real);
    }
    if a in ranks && b in ranks && ranks[a] < ranks[b] {
      ReciprocalShrinks((k + ranks[a]) as real, (k + ranks[b]) as real);
    }
  }

  lemma BoostKeepsOrder(x: real, y: real, boost: real, s: real, t: real)
    requires x > y >= 0.0 && (boost > 0.0 ==> s >= t && s >= 0.0)
    ensures Boosted(x, boost, s) > Boosted(y, boost, t)
  {
    if boost > 0.0 {
      ProductMonotone(t, s, boost);
      LargerProduct(x, y, 1.0 + boost * s, 1.0 + boost * t);
    }
  }

  lemma LargerProduct(x: real, y: real, f: real, g: real)
    requires x > y >= 0.0 && f >= g && f > 0.0
    ensures x * f > y * g
  {
    ProductMonotone(g, f, y);
    assert (x - y) * f > 0.0;
  }

  /** A strictly greater fused score means an earlier place, also when the list is cut. */
  lemma GreaterComesFirst(q: Query, candidates: seq<Row>, sem: map<nat, nat>, lex: map<nat, nat>,
                          results: seq<Row>, a: Row, j: nat)
    requires BestFirst(q, candidates, sem, lex, results) && a in candidates && j < |results|
    requires BaseScore(EffectiveK(q.rrfK), sem, lex, a.id) != 0.0
    requires FusedScore(EffectiveK(q.rrfK), sem, lex, q.boost, a)
      > FusedScore(EffectiveK(q.rrfK), sem, lex, q.boost, results[j])
    ensures exists i :: 0 <= i < j && results[i] == a
  {
    assert a in results;
    var i :| 0 <= i < |results| && results[i] == a;
  }

  /**
   Dominance: ranked higher in one channel and no lower in the other, `a` comes before `b` in the
   answer; with a boost, when its surprise is not negative and no lower.
   */
  lemma DominantComesFirst(q: Query, candidates: seq<Row>, sem: map<nat, nat>, lex: map<nat, nat>,
                           results: seq<Row>, a: Row, j: nat)
    requires BestFirst(q, candidates, sem, lex, results) && a in candidates && j < |results|
    requires var b := results[j];
      || (Higher(sem, a.id, b.id) && NoLower(lex, a.id, b.id))
      || (Higher(lex, a.id, b.id) && NoLower(sem, a.id, b.id))
    requires q.boost > 0.0 ==> a.surprise >= results[j].surprise && a.surprise >= 0.0
    ensures exists i :: 0 <= i < j && results[i] == a
  {
    var k, b := EffectiveK(q.rrfK), results[j];
    HigherScoresMore(k, sem, a.id, b.id);
    HigherScoresMore(k, lex, a.id, b.id);
    HigherScoresMore(k, sem, b.id, b.id);
    HigherScoresMore(k, lex, b.id, b.id);
    BoostKeepsOrder(BaseScore(k, sem, lex, a.id), BaseScore(k, sem, lex, b.id), q.boost, a.surprise, b.surprise);
    GreaterComesFirst(q, candidates, sem, lex, results, a, j);
  }

  ghost predicate RankedBelow(ranks: map<nat, nat>, id: nat, place: nat) {
    id in ranks ==> ranks[id] > place
  }

  /** Two places beyond K + 2 are together worth less than one first place. */
  lemma TwoLowRanksAreLess(k: nat, sem: map<nat, nat>, lex: map<nat, nat>, b: nat)
    requires k > 0 && RankedBelow(sem, b, k + 2) && RankedBelow(lex, b, k + 2)
    ensures BaseScore(k, sem, lex, b) < 1.0 / (k + 1) as real
  {
    var bound := (2 * k + 2) as real;
    forall ranks: map<nat, nat> | RankedBelow(ranks, b, k + 2)
      ensures 0.0 <= Reciprocal(k, ranks, b) < 1.0 / bound
    {
      if b in ranks { ReciprocalShrinks(bound, (k + ranks[b]) as real); }
    }
    assert 1.0 / bound + 1.0 / bound == 1.0 / (k + 1) as real by {
      var h := (k + 1) as real;
      assert bound == 2.0 * h;
      assert (1.0 / bound) * bound == 1.0;
      assert (1.0 / bound + 1.0 / bound) * h == 1.0;
    }
  }

  /** Without boost, first place in one channel beats any memory below place K + 2 in both. */
  lemma ChannelWinnerComesFirst(q: Query, candidates: seq<Row>, sem: map<nat, nat>, lex: map<nat, nat>,
                                results: seq<Row>, a: Row, j: nat)
    requires BestFirst(q, candidates, sem, lex, results) && a in candidates && j < |results|
    requires (a.id in sem && sem[a.id] == 1) || (a.id in lex && lex[a.id] == 1)
    requires RankedBelow(sem, results[j].id, EffectiveK(q.rrfK) + 2) &&
        RankedBelow(lex, results[j].id, EffectiveK(q.rrfK) + 2)
    requires q.boost <= 0.0
    ensures exists i :: 0 <= i < j && results[i] == a
  {
    var k := EffectiveK(q.rrfK);
    TwoLowRanksAreLess(k, sem, lex, results[j].id);
    HigherScoresMore(k, sem, a.id, a.id);
    HigherScoresMore(k, lex, a.id, a.id);
    ReciprocalShrinks((k + 1) as real, (k + 2) as real);
    GreaterComesFirst(q, candidates, sem, lex, results, a, j);
  }

  /** At place K + 2 in both channels a memory scores as much as the winner of one channel alone. */
  lemma {:induction false} EqualAtBound(k: nat, sem: map<nat, nat>, lex: map<nat, nat>, a: nat, b: nat)
    requires k > 0 && a in sem && sem[a] == 1 && a !in lex
    requires b in sem && sem[b] == k + 2 && b in lex && lex[b] == k + 2
    ensures BaseScore(k, sem, lex, a) == BaseScore(k, sem, lex, b)
  {
    var h := (k + 1) as real;
    var bound := (k + (k + 2)) as real;
    assert bound == 2.0 * h;
    assert (1.0 / bound) * bound == 1.0;
    assert (1.0 / bound + 1.0 / bound) * h == 1.0;
  }
}
