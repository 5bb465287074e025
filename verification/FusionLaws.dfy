/** The order of a fused search, said about vectors, texts and surprise themselves. */
module FusionLaws {
  import opened Wrappers
  import opened RankFusion

  predicate Better(x: real, a: Row, y: real, b: Row) {
    x > y || (x == y && a.weight > b.weight)
  }

  lemma SameIdSameRow(candidates: seq<Row>, a: Row, b: Row)
    requires DistinctRows(candidates) && a in candidates && b in candidates && a.id == b.id
    ensures a == b
  {}

  lemma PlaceOfRow(list: seq<Scored>, s: seq<Scored>, ranks: map<nat, nat>, x: Scored) returns (i: nat)
    requires multiset(s) == multiset(list) && PlacesOf(s, ranks) && x in list
    ensures i < |s| && s[i] == x && x.mem.id in ranks && ranks[x.mem.id] == i + 1
  {
    assert x in multiset(s);
    i :| 0 <= i < |s| && s[i] == x;
  }

  /** A channel ranks exactly what it scores. */
  lemma RankedIffScored(candidates: seq<Row>, score: Row -> Option<real>, ranks: map<nat, nat>, a: Row)
    requires DistinctRows(candidates) && Ranks(Channel(candidates, score), ranks) && a in candidates
    ensures a.id in ranks <==> score(a).Some?
  {
    var list := Channel(candidates, score);
    var s: seq<Scored> :| Sorted(s) && multiset(s) == multiset(list) && PlacesOf(s, ranks);
    if score(a).Some? {
      var i := PlaceOfRow(list, s, ranks, Scored(a, score(a).value));
    } else if a.id in ranks {
      var i :| 0 <= i < |s| && s[i].mem.id == a.id;
      assert s[i] in multiset(s) && s[i] in list;
      SameIdSameRow(candidates, a, s[i].mem);
    }
  }

  /** Better in the channel, or as good and heavier: ranked higher. */
  lemma BetterRanksHigher(list: seq<Scored>, ranks: map<nat, nat>, x: Scored, y: Scored)
    requires Ranks(list, ranks) && x in list && y in list && Better(x.score, x.mem, y.score, y.mem)
    ensures x.mem.id in ranks && y.mem.id in ranks && ranks[x.mem.id] < ranks[y.mem.id]
  {
    var s: seq<Scored> :| Sorted(s) && multiset(s) == multiset(list) && PlacesOf(s, ranks);
    var i := PlaceOfRow(list, s, ranks, x);
    var j := PlaceOfRow(list, s, ranks, y);
    assert forall m, n :: 0 <= m < n < |s| ==> Ahead(s[m], s[n]);
  }

  /** The semantic channel ranks the candidates with a vector of the right length by cosine, then by weight. */
  lemma SemanticRanks(q: Query, candidates: seq<Row>, sem: map<nat, nat>, lex: map<nat, nat>, a: Row, b: Row)
    requires DistinctRows(candidates) && RanksOf(q, candidates, sem, lex) && a in candidates && b in candidates
    ensures a.id in sem <==> a.vector != [] && |a.vector| == |q.embedding|
    ensures var x, y := q.cosine(q.embedding, a.vector), q.cosine(q.embedding, b.vector);
      a.id in sem && b.id in sem && Better(x, a, y, b) ==> sem[a.id] < sem[b.id]
  {
    RankedIffScored(candidates, SemanticScore(q), sem, a);
    RankedIffScored(candidates, SemanticScore(q), sem, b);
    var x, y := q.cosine(q.embedding, a.vector), q.cosine(q.embedding, b.vector);
    if a.id in sem && b.id in sem && Better(x, a, y, b) {
      BetterRanksHigher(Channel(candidates, SemanticScore(q)), sem, Scored(a, x), Scored(b, y));
    }
  }

  /** The lexical channel ranks the candidates that share something with the query by overlap, then by weight. */
  lemma LexicalRanks(q: Query, candidates: seq<Row>, sem: map<nat, nat>, lex: map<nat, nat>, a: Row, b: Row)
    requires DistinctRows(candidates) && RanksOf(q, candidates, sem, lex) && a in candidates && b in candidates
    ensures a.id in lex <==> q.overlap(q.text, a.summary) > 0.0
    ensures var x, y := q.overlap(q.text, a.summary), q.overlap(q.text, b.summary);
      a.id in lex && b.id in lex && Better(x, a, y, b) ==> lex[a.id] < lex[b.id]
  {
    RankedIffScored(candidates, LexicalScore(q), lex, a);
    RankedIffScored(candidates, LexicalScore(q), lex, b);
    var x, y := q.overlap(q.text, a.summary), q.overlap(q.text, b.summary);
    if a.id in lex && b.id in lex && Better(x, a, y, b) {
      BetterRanksHigher(Channel(candidates, LexicalScore(q)), lex, Scored(a, x), Scored(b, y));
    }
  }

  /** The share one channel adds. */
  function Share(rrfK: int, ranks: map<nat, nat>, m: Row): real {
    var k := if rrfK <= 0 then 60 else rrfK;
    if m.id in ranks then 1.0 / (k + ranks[m.id]) as real else 0.0
  }

  /** Reciprocal ranks added up, lifted by surprise when a boost is asked for. */
  function Formula(q: Query, sem: map<nat, nat>, lex: map<nat, nat>, m: Row): real {
    Lift(Share(q.rrfK, sem, m) + Share(q.rrfK, lex, m), q.boost, m.surprise)
  }

  function Lift(base: real, boost: real, surprise: real): real {
    if boost > 0.0 then base * (1.0 + boost * surprise) else base
  }

  lemma ShareIsReciprocal(rrfK: int, ranks: map<nat, nat>, m: Row)
    ensures Share(rrfK, ranks, m) == Reciprocal(EffectiveK(rrfK), ranks, m.id) >= 0.0
    ensures Share(rrfK, ranks, m) > 0.0 <==> m.id in ranks
  {
    var k := EffectiveK(rrfK);
    if m.id in ranks { ReciprocalShrinks((k + ranks[m.id]) as real, (k + ranks[m.id] + 1) as real); }
  }

  lemma ScoreIsFormula(q: Query, sem: map<nat, nat>, lex: map<nat, nat>, m: Row)
    ensures FusedScore(EffectiveK(q.rrfK), sem, lex, q.boost, m) == Formula(q, sem, lex, m)
    ensures BaseScore(EffectiveK(q.rrfK), sem, lex, m.id) == Share(q.rrfK, sem, m) + Share(q.rrfK, lex, m)
    ensures BaseScore(EffectiveK(q.rrfK), sem, lex, m.id) != 0.0 <==> m.id in sem || m.id in lex
  {
    ShareIsReciprocal(q.rrfK, sem, m);
    ShareIsReciprocal(q.rrfK, lex, m);
    BoostMultiplies(Share(q.rrfK, sem, m) + Share(q.rrfK, lex, m), q.boost, m.surprise);
  }

  lemma BoostMultiplies(base: real, boost: real, surprise: real)
    ensures Boosted(base, boost, surprise) == Lift(base, boost, surprise)
  {}

  /** Results stand in the order of the formula, and no ranked candidate with a greater value is left out. */
  lemma InOrderOfFormula(q: Query, candidates: seq<Row>, sem: map<nat, nat>, lex: map<nat, nat>, results: seq<Row>,
                         i: nat, m: Row)
    requires BestFirst(q, candidates, sem, lex, results) && i < |results| && m in candidates
    ensures results[i] in candidates && (results[i].id in sem || results[i].id in lex)
    ensures m in results[i..] || (m !in results && (m.id in sem || m.id in lex)) ==>
      Formula(q, sem, lex, results[i]) >= Formula(q, sem, lex, m)
  {
    ScoreIsFormula(q, sem, lex, results[i]);
    ScoreIsFormula(q, sem, lex, m);
    if m in results[i..] {
      var n :| 0 <= n < |results| - i && results[i..][n] == m;
      assert results[i + n] == m;
    }
  }

  /** Of two equally ranked memories the more surprising one comes first under a boost. */
  lemma SurpriseLifts(q: Query, candidates: seq<Row>, sem: map<nat, nat>, lex: map<nat, nat>, results: seq<Row>,
                      a: Row, j: nat)
    requires BestFirst(q, candidates, sem, lex, results) && a in candidates && j < |results| && q.boost > 0.0
    requires Share(q.rrfK, sem, a) + Share(q.rrfK, lex, a)
      == Share(q.rrfK, sem, results[j]) + Share(q.rrfK, lex, results[j]) > 0.0
    requires a.surprise > results[j].surprise
    ensures exists i :: 0 <= i < j && results[i] == a
  {
    ScoreIsFormula(q, sem, lex, a);
    ScoreIsFormula(q, sem, lex, results[j]);
    SurpriseRaises(q, sem, lex, a, results[j]);
    GreaterComesFirst(q, candidates, sem, lex, results, a, j);
  }

  lemma SurpriseRaises(q: Query, sem: map<nat, nat>, lex: map<nat, nat>, a: Row, b: Row)
    requires q.boost > 0.0 && a.surprise > b.surprise
    requires Share(q.rrfK, sem, a) + Share(q.rrfK, lex, a) == Share(q.rrfK, sem, b) + Share(q.rrfK, lex, b) > 0.0
    ensures Formula(q, sem, lex, a) > Formula(q, sem, lex, b)
  {
    LiftGrows(Share(q.rrfK, sem, a) + Share(q.rrfK, lex, a), q.boost, a.surprise, b.surprise);
  }

  lemma LiftGrows(base: real, boost: real, s: real, t: real)
    requires base > 0.0 && boost > 0.0 && s > t
    ensures Lift(base, boost, s) > Lift(base, boost, t)
  {
    StrictProduct(boost, t, s);
    StrictProduct(base, 1.0 + boost * t, 1.0 + boost * s);
  }

  lemma StrictProduct(c: real, x: real, y: real)
    requires c > 0.0 && x < y
    ensures c * x < c * y
  {
    assert c * (y - x) > 0.0;
  }
}
