/** The bound of rank fusion is attained: a search in which place K + 2 in both channels is as good as a first place. */
module FusionWitness {
  import opened Wrappers
  import opened Vectors
  import opened RankFusion
  import opened SampleTexts
  import Text

  const NEAR: Vector := [1.0, 0.0]
  const BETWEEN: Vector := [0.6, 0.8]
  const FAR: Vector := [0.0, 1.0]

  /** A search for "ab" near the first axis. */
  function Search(k: nat, cosine: (Vector, Vector) -> real): Query {
    Query(NEAR, "ab", k, 0.0, cosine, (a, b) => Text.BigramOverlap((c: char) => Lower(c), a, b))
  }

  /** Nearest by meaning, without a word in common. */
  function Winner(): Row { Row(0, "cd", 0.5, 0.0, NEAR, 0) }

  /** Last in both channels. */
  function Loser(): Row { Row(1, "abc", 0.5, 0.0, FAR, 0) }

  /** Has no vector, so it is ranked by its words only. */
  function Wordy(): Row { Row(2, "ab", 0.5, 0.0, [], 0) }

  function Middle(i: nat): Row { Row(i + 3, "ab", 0.5, 0.0, BETWEEN, 0) }

  function Middles(k: nat): (rows: seq<Row>)
    ensures |rows| == k && forall i :: 0 <= i < k ==> rows[i] == Middle(i)
  {
    if k == 0 then [] else Middles(k - 1) + [Middle(k - 1)]
  }

  function Candidates(k: nat): (rows: seq<Row>)
    ensures |rows| == k + 3 && DistinctRows(rows)
  {
    [Winner(), Loser(), Wordy()] + Middles(k)
  }

  lemma Scores(k: nat, cosine: (Vector, Vector) -> real, i: nat)
    requires OnUnitVectors(cosine)
    ensures var s := SemanticScore(Search(k, cosine));
      s(Winner()) == Some(1.0) && s(Loser()) == Some(0.0) && s(Wordy()) == None && s(Middle(i)) == Some(0.6)
    ensures var s := LexicalScore(Search(k, cosine));
      && s(Winner()) == None && s(Loser()).Some? && 0.0 < s(Loser()).value < 1.0
      && s(Wordy()) == Some(1.0) && s(Middle(i)) == Some(1.0)
  {
    DotOfTwo(1.0, 0.0, 1.0, 0.0);
    DotOfTwo(0.0, 1.0, 0.0, 1.0);
    DotOfTwo(0.6, 0.8, 0.6, 0.8);
    DotOfTwo(1.0, 0.0, 0.0, 1.0);
    DotOfTwo(1.0, 0.0, 0.6, 0.8);
    Overlaps();
  }

  lemma PairBigram(x: char, y: char)
    ensures Text.Bigrams([x, y]) == {[x, y]}
  {
    assert Text.BigramAt([x, y], 0) == [x, y];
  }

  lemma Folded(s: string)
    requires forall i :: 0 <= i < |s| ==> !('A' <= s[i] <= 'Z')
    ensures Text.Lowered((c: char) => Lower(c), s) == s
  {}

  lemma Overlaps()
    ensures var overlap := (a, b) => Text.BigramOverlap((c: char) => Lower(c), a, b);
      overlap("ab", "cd") == 0.0 && overlap("ab", "ab") == 1.0 && 0.0 < overlap("ab", "abc") < 1.0
  {
    Folded("ab");
    Folded("cd");
    Folded("abc");
    PairBigram('a', 'b');
    PairBigram('c', 'd');
    ShortBigrams('a', 'b', 'c');
    assert "ab"[0] != "cd"[0] && "ab"[0] != "bc"[0];
    var ab, cd, abc := Text.Bigrams("ab"), Text.Bigrams("cd"), Text.Bigrams("abc");
    assert ab * cd == {} && ab * ab == {"ab"} && ab * abc == {"ab"};
  }

  // ---------------------------------------------------------------- the two channels

  function CountScored(rows: seq<Row>, score: Row -> Option<real>): nat {
    if rows == [] then 0 else CountScored(rows[..|rows| - 1], score) + if score(rows[|rows| - 1]).Some? then 1 else 0
  }

  lemma {:induction false} ChannelCount(rows: seq<Row>, score: Row -> Option<real>)
    ensures |Channel(rows, score)| == CountScored(rows, score)
  {
    if rows != [] { ChannelCount(rows[..|rows| - 1], score); }
  }

  lemma {:induction false} AllAreScored(rows: seq<Row>, more: seq<Row>, score: Row -> Option<real>)
    requires forall i :: 0 <= i < |more| ==> score(more[i]).Some?
    ensures CountScored(rows + more, score) == CountScored(rows, score) + |more|
  {
    if more == [] {
      assert rows + more == rows;
    } else {
      var n := |more| - 1;
      assert (rows + more)[..|rows| + n] == rows + more[..n];
      AllAreScored(rows, more[..n], score);
    }
  }

  /** One of the three is not scored. */
  lemma ChannelSize(score: Row -> Option<real>, a: Row, b: Row, c: Row, others: seq<Row>)
    requires score(b).Some? && (score(a).Some? <==> score(c) == None) && (forall m :: m in others ==> score(m).Some?)
    ensures |Channel([a, b, c] + others, score)| == |others| + 2
  {
    var rows := [a, b, c];
    assert rows[..2] == [a, b] && rows[..2][..1] == [a] && rows[..2][..1][..0] == [];
    assert CountScored([a], score) == if score(a).Some? then 1 else 0;
    assert CountScored([a, b], score) == CountScored([a], score) + 1;
    assert CountScored(rows, score) == 2;
    AllAreScored(rows, others, score);
    ChannelCount(rows + others, score);
  }

  lemma ChannelMembers(rows: seq<Row>, score: Row -> Option<real>)
    ensures forall x :: x in Channel(rows, score) <==> x.mem in rows && score(x.mem) == Some(x.score)
  {
    forall x: Scored | x.mem in rows && score(x.mem) == Some(x.score) ensures x in Channel(rows, score) {
      assert Scored(x.mem, score(x.mem).value) in Channel(rows, score);
    }
  }

  lemma BestIsFirst(rows: seq<Row>, score: Row -> Option<real>, ranks: map<nat, nat>, a: Row)
    requires DistinctRows(rows) && Ranks(Channel(rows, score), ranks) && a in rows && score(a).Some?
    requires forall m :: m in rows && m != a && score(m).Some? ==> score(m).value < score(a).value
    ensures a.id in ranks && ranks[a.id] == 1
  {
    ChannelIsDistinct(rows, score);
    ChannelMembers(rows, score);
    FirstAndLast(Channel(rows, score), ranks, Scored(a, score(a).value));
  }

  lemma WorstIsLast(rows: seq<Row>, score: Row -> Option<real>, ranks: map<nat, nat>, b: Row)
    requires DistinctRows(rows) && Ranks(Channel(rows, score), ranks) && b in rows && score(b).Some?
    requires forall m :: m in rows && m != b && score(m).Some? ==> score(m).value > score(b).value
    ensures b.id in ranks && ranks[b.id] == |Channel(rows, score)|
  {
    ChannelIsDistinct(rows, score);
    ChannelMembers(rows, score);
    FirstAndLast(Channel(rows, score), ranks, Scored(b, score(b).value));
  }

  lemma UnscoredHasNoPlace(rows: seq<Row>, score: Row -> Option<real>, ranks: map<nat, nat>, a: Row)
    requires DistinctRows(rows) && Ranks(Channel(rows, score), ranks) && a in rows && score(a) == None
    ensures a.id !in ranks
  {
    ChannelMembers(rows, score);
    NotListed(Channel(rows, score), ranks, a.id);
  }

  lemma NotListed(list: seq<Scored>, ranks: map<nat, nat>, id: nat)
    requires Ranks(list, ranks) && forall x :: x in list ==> x.mem.id != id
    ensures id !in ranks
  {
    var s: seq<Scored> :| Sorted(s) && multiset(s) == multiset(list) && PlacesOf(s, ranks);
    forall i | 0 <= i < |s| ensures s[i].mem.id != id {
      assert s[i] in multiset(s);
    }
  }

  /** Best and worst in one channel; unscored and worst in the other. */
  lemma Places(rows: seq<Row>, semantic: Row -> Option<real>, lexical: Row -> Option<real>, a: Row, b: Row,
               sem: map<nat, nat>, lex: map<nat, nat>)
    requires DistinctRows(rows) && Ranks(Channel(rows, semantic), sem) && Ranks(Channel(rows, lexical), lex)
    requires a in rows && semantic(a) == Some(1.0) && lexical(a) == None
    requires b in rows && semantic(b) == Some(0.0) && lexical(b).Some? && lexical(b).value < 1.0
    requires forall m :: m in rows && m != a && m != b ==>
      (semantic(m) == None || semantic(m) == Some(0.6)) && lexical(m) == Some(1.0)
    ensures a.id in sem && sem[a.id] == 1 && b.id in sem && sem[b.id] == |Channel(rows, semantic)|
    ensures a.id !in lex && b.id in lex && lex[b.id] == |Channel(rows, lexical)|
  {
    BestIsFirst(rows, semantic, sem, a);
    WorstIsLast(rows, semantic, sem, b);
    WorstIsLast(rows, lexical, lex, b);
    UnscoredHasNoPlace(rows, lexical, lex, a);
  }

  lemma CandidateRows(k: nat, m: Row)
    ensures Winner() in Candidates(k) && Loser() in Candidates(k)
    ensures m in Candidates(k) ==>
        m == Winner() || m == Loser() || m == Wordy() || exists i: nat :: i < k && m == Middle(i)
  {
    assert Candidates(k)[0] == Winner() && Candidates(k)[1] == Loser();
    if m in Middles(k) {
      var i :| 0 <= i < k && Middles(k)[i] == m;
      assert m == Middle(i);
    }
  }

  lemma CandidateScores(k: nat, cosine: (Vector, Vector) -> real, m: Row)
    requires OnUnitVectors(cosine) && m in Candidates(k) && m != Winner() && m != Loser()
    ensures var q := Search(k, cosine);
      (SemanticScore(q)(m) == None || SemanticScore(q)(m) == Some(0.6)) && LexicalScore(q)(m) == Some(1.0)
  {
    CandidateRows(k, m);
    Scores(k, cosine, 0);
    if m != Wordy() {
      var i: nat :| i < k && m == Middle(i);
      Scores(k, cosine, i);
    }
  }

  lemma ChannelSizes(k: nat, cosine: (Vector, Vector) -> real)
    requires OnUnitVectors(cosine)
    ensures |Channel(Candidates(k), SemanticScore(Search(k, cosine)))| == k + 2
    ensures |Channel(Candidates(k), LexicalScore(Search(k, cosine)))| == k + 2
  {
    var q := Search(k, cosine);
    Scores(k, cosine, 0);
    forall m | m in Middles(k) ensures SemanticScore(q)(m).Some? && LexicalScore(q)(m).Some? {
      var i :| 0 <= i < k && Middles(k)[i] == m;
      Scores(k, cosine, i);
    }
    ChannelSize(SemanticScore(q), Winner(), Loser(), Wordy(), Middles(k));
    ChannelSize(LexicalScore(q), Winner(), Loser(), Wordy(), Middles(k));
  }

  /**
   Place K + 2 in both channels is as good as a first place in one, for every K: the bound of the
   theorem on channel winners cannot be improved.
   */
  lemma BoundIsAttained(k: nat, cosine: (Vector, Vector) -> real, sem: map<nat, nat>, lex: map<nat, nat>)
    requires k > 0 && OnUnitVectors(cosine) && RanksOf(Search(k, cosine), Candidates(k), sem, lex)
    ensures var a, b := Winner().id, Loser().id;
      && a in sem && sem[a] == 1 && b in sem && sem[b] == k + 2 && b in lex && lex[b] == k + 2
      && a !in lex && BaseScore(k, sem, lex, a) == BaseScore(k, sem, lex, b)
  {
    var q := Search(k, cosine);
    Scores(k, cosine, 0);
    forall m | m in Candidates(k) && m != Winner() && m != Loser()
      ensures (SemanticScore(q)(m) == None || SemanticScore(q)(m) == Some(0.6)) && LexicalScore(q)(m) == Some(1.0)
    {
      CandidateScores(k, cosine, m);
    }
    CandidateRows(k, Winner());
    ChannelSizes(k, cosine);
    Places(Candidates(k), SemanticScore(q), LexicalScore(q), Winner(), Loser(), sem, lex);
    EqualAtBound(k, sem, lex, Winner().id, Loser().id);
  }
}
