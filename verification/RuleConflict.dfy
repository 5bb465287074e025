/**
 Rule-conflict governance. One pass snapshots the rules of a project, pairs contradicting active
 rules bucket by bucket, records each new pair and retires the less trusted side.
 */
module RuleConflict {
  import opened Wrappers
  import opened MemoryStore
  import opened UpdateTracker
  import opened SortSlice

  datatype Rule = Rule(id: int, kind: string, content: string, trust: int, weight: real, obsoletedAt: Option<int>,
                       entityGroup: string)
  {
    predicate Active() { obsoletedAt.None? }
  }

  datatype ConflictStatus = Pending | AutoResolved | ManualResolved

  datatype Conflict = Conflict(id: int, a: int, b: int, entityGroup: string, status: ConflictStatus,
                               resolution: Option<int>, createdAt: int)

  /** Rules, edges and conflict records. */
  datatype Books = Books(rules: map<int, Rule>, edges: seq<Edge>, conflicts: map<int, Conflict>)

  ghost predicate Filed(s: Books) {
    && (forall k :: k in s.rules ==> s.rules[k].id == k)
    && (forall k :: k in s.conflicts ==> s.conflicts[k].id == k)
  }

  // ---------------------------------------------------------------- detection

  datatype Detector = Detector(minSimilarity: real, maxPerKind: int)
  {
    function MinSimilarity(): real { if minSimilarity <= 0.0 then 0.25 else minSimilarity }
    function MaxPerKind(): nat { if maxPerKind <= 0 then 50 else maxPerKind }
  }

  const DEFAULT_DETECTOR := Detector(0.25, 50)

  datatype Pair = Pair(a: Rule, b: Rule)

  /** Opposite directives about the same subject. */
  predicate Opposed(l: Language, d: Detector, a: Rule, b: Rule) {
    && l.polarity(a.content).Some? && l.polarity(b.content).Some? && l.polarity(a.content) != l.polarity(b.content)
    && l.dice(a.content, b.content) >= d.MinSimilarity()
  }

  ghost predicate SymmetricDice(l: Language) {
    forall a, b :: l.dice(a, b) == l.dice(b, a)
  }

  /** The first active rules of a kind, up to the cap. */
  function Bucket(d: Detector, rules: seq<Rule>, kind: string): seq<Rule> {
    if rules == [] then [] else
    var n := |rules| - 1;
    var front := Bucket(d, rules[..n], kind);
    if rules[n].Active() && rules[n].kind == kind && |front| < d.MaxPerKind() then front + [rules[n]] else front
  }

  /** The pairs of `bucket[i]` with the members from `i + 1` up to `j`. */
  function Row(l: Language, d: Detector, bucket: seq<Rule>, i: nat, j: nat): seq<Pair>
    requires i < |bucket| && j <= |bucket|
  {
    if j <= i + 1 then [] else
    Row(l, d, bucket, i, j - 1) + if Opposed(l, d, bucket[i], bucket[j - 1]) then [Pair(bucket[i], bucket[j - 1])]
      else []
  }

  function Rows(l: Language, d: Detector, bucket: seq<Rule>, i: nat): seq<Pair>
    requires i <= |bucket|
  {
    if i == 0 then [] else Rows(l, d, bucket, i - 1) + Row(l, d, bucket, i - 1, |bucket|)
  }

  function PairsOf(l: Language, d: Detector, bucket: seq<Rule>): seq<Pair> {
    Rows(l, d, bucket, |bucket|)
  }

  /** Buckets are visited in the order `kinds`. */
  function Pairs(l: Language, d: Detector, rules: seq<Rule>, kinds: seq<string>): seq<Pair> {
    if kinds == [] then [] else
    var n := |kinds| - 1;
    Pairs(l, d, rules, kinds[..n]) + PairsOf(l, d, Bucket(d, rules, kinds[n]))
  }

  ghost predicate KindsOf(d: Detector, rules: seq<Rule>, kinds: seq<string>) {
    Distinct(kinds) && forall k :: k in kinds <==> Bucket(d, rules, k) != []
  }

  method FillBuckets(d: Detector, rules: seq<Rule>) returns (buckets: map<string, seq<Rule>>)
    ensures forall k :: k in buckets <==> Bucket(d, rules, k) != []
    ensures forall k :: k in buckets ==> buckets[k] == Bucket(d, rules, k)
  {
    buckets := map[];
    for i := 0 to |rules|
      invariant forall k :: k in buckets <==> Bucket(d, rules[..i], k) != []
      invariant forall k :: k in buckets ==> buckets[k] == Bucket(d, rules[..i], k)
    {
      var r := rules[i];
      assert rules[..i + 1][..i] == rules[..i];
      if !r.Active() { continue; }
      var bucket := if r.kind in buckets then buckets[r.kind] else [];
      if |bucket| >= d.MaxPerKind() { continue; }
      buckets := buckets[r.kind := bucket + [r]];
    }
    assert rules[..|rules|] == rules;
  }

  method PairUp(l: Language, d: Detector, bucket: seq<Rule>) returns (pairs: seq<Pair>)
    ensures pairs == PairsOf(l, d, bucket)
  {
    pairs := [];
    for i := 0 to |bucket|
      invariant pairs == Rows(l, d, bucket, i)
    {
      ghost var before := pairs;
      for j := i + 1 to |bucket|
        invariant pairs == before + Row(l, d, bucket, i, j)
      {
        var a, b := bucket[i], bucket[j];
        var pa, pb := l.polarity(a.content), l.polarity(b.content);
        if pa.None? || pb.None? || pa == pb { continue; }
        if l.dice(a.content, b.content) < d.MinSimilarity() { continue; }
        pairs := pairs + [Pair(a, b)];
      }
    }
  }

  /** The conflicting pairs among the rules; the order of the buckets is arbitrary. */
  method Detect(l: Language, d: Detector, rules: seq<Rule>) returns (pairs: seq<Pair>, kinds: seq<string>)
    ensures KindsOf(d, rules, kinds) && pairs == Pairs(l, d, rules, kinds)
  {
    var buckets := FillBuckets(d, rules);
    pairs, kinds := [], [];
    var rest := buckets.Keys;
    while rest != {}
      invariant rest <= buckets.Keys && Distinct(kinds)
      invariant forall k :: k in kinds <==> k in buckets && k !in rest
      invariant pairs == Pairs(l, d, rules, kinds)
      decreases rest
    {
      var kind := AnyOf(rest);
      rest := rest - {kind};
      var more := PairUp(l, d, buckets[kind]);
      assert (kinds + [kind])[..|kinds|] == kinds;
      pairs := pairs + more;
      kinds := kinds + [kind];
    }
  }

  // ---------------------------------------------------------------- what detection finds

  function CountActive(rules: seq<Rule>, kind: string): nat {
    if rules == [] then 0 else
    var n := |rules| - 1;
    CountActive(rules[..n], kind) + if rules[n].Active() && rules[n].kind == kind then 1 else 0
  }

  /** A bucket holds active snapshot rules of its kind, each once. */
  lemma {:induction false} BucketMembers(d: Detector, rules: seq<Rule>, kind: string)
    ensures forall r :: r in Bucket(d, rules, kind) ==> r in rules && r.Active() && r.kind == kind
    ensures DistinctRules(rules) ==> DistinctRules(Bucket(d, rules, kind))
  {
    if rules != [] {
      var n := |rules| - 1;
      BucketMembers(d, rules[..n], kind);
      assert rules == rules[..n] + [rules[n]];
    }
  }

  /** Within the cap it holds them all. */
  lemma {:induction false} BucketIsComplete(d: Detector, rules: seq<Rule>, kind: string, r: Rule)
    ensures |Bucket(d, rules, kind)| <= CountActive(rules, kind)
    ensures CountActive(rules, kind) <= d.MaxPerKind() && r in rules && r.Active() && r.kind == kind ==>
        r in Bucket(d, rules, kind)
  {
    if rules != [] {
      var n := |rules| - 1;
      BucketIsComplete(d, rules[..n], kind, r);
    }
  }

  ghost predicate DistinctRules(rules: seq<Rule>) {
    forall i, j :: 0 <= i < j < |rules| ==> rules[i].id != rules[j].id
  }

  lemma {:induction false} RowMembers(l: Language, d: Detector, bucket: seq<Rule>, i: nat, j: nat)
    requires i < |bucket| && j <= |bucket|
    ensures forall p :: p in Row(l, d, bucket, i, j) <==>
      exists k :: i < k < j && p == Pair(bucket[i], bucket[k]) && Opposed(l, d, bucket[i], bucket[k])
    decreases j
  {
    if j > i + 1 { RowMembers(l, d, bucket, i, j - 1); }
  }

  lemma {:induction false} RowsMembers(l: Language, d: Detector, bucket: seq<Rule>, i: nat)
    requires i <= |bucket|
    ensures forall p :: p in Rows(l, d, bucket, i) <==>
      exists h, k :: 0 <= h < i && h < k < |bucket| && p == Pair(bucket[h], bucket[k]) &&
        Opposed(l, d, bucket[h], bucket[k])
  {
    if i > 0 {
      RowsMembers(l, d, bucket, i - 1);
      RowMembers(l, d, bucket, i - 1, |bucket|);
    }
  }

  /** The unordered pair, as the records are compared. */
  function PairKey(a: int, b: int): (int, int) {
    if a < b then (a, b) else (b, a)
  }

  function KeyOf(p: Pair): (int, int) {
    PairKey(p.a.id, p.b.id)
  }

  ghost predicate DistinctKeys(ps: seq<Pair>) {
    forall i, j :: 0 <= i < j < |ps| ==> KeyOf(ps[i]) != KeyOf(ps[j])
  }

  lemma ConcatDistinctKeys(ps: seq<Pair>, qs: seq<Pair>)
    requires DistinctKeys(ps) && DistinctKeys(qs)
    requires forall p, q :: p in ps && q in qs ==> KeyOf(p) != KeyOf(q)
    ensures DistinctKeys(ps + qs)
  {}

  lemma {:induction false} RowKeys(l: Language, d: Detector, bucket: seq<Rule>, i: nat, j: nat)
    requires DistinctRules(bucket) && i < |bucket| && j <= |bucket|
    ensures DistinctKeys(Row(l, d, bucket, i, j))
    decreases j
  {
    if j > i + 1 {
      RowKeys(l, d, bucket, i, j - 1);
      RowMembers(l, d, bucket, i, j - 1);
      if Opposed(l, d, bucket[i], bucket[j - 1]) {
        ConcatDistinctKeys(Row(l, d, bucket, i, j - 1), [Pair(bucket[i], bucket[j - 1])]);
      }
    }
  }

  lemma {:induction false} RowsKeys(l: Language, d: Detector, bucket: seq<Rule>, i: nat)
    requires DistinctRules(bucket) && i <= |bucket|
    ensures DistinctKeys(Rows(l, d, bucket, i))
  {
    if i > 0 {
      RowsKeys(l, d, bucket, i - 1);
      RowKeys(l, d, bucket, i - 1, |bucket|);
      RowsMembers(l, d, bucket, i - 1);
      RowMembers(l, d, bucket, i - 1, |bucket|);
      ConcatDistinctKeys(Rows(l, d, bucket, i - 1), Row(l, d, bucket, i - 1, |bucket|));
    }
  }

  ghost predicate Contradicts(l: Language, d: Detector, rules: seq<Rule>, p: Pair) {
    && p.a in rules && p.b in rules && p.a.id != p.b.id
    && p.a.Active() && p.b.Active() && p.a.kind == p.b.kind && Opposed(l, d, p.a, p.b)
  }

  lemma BucketPairs(l: Language, d: Detector, rules: seq<Rule>, kind: string)
    requires DistinctRules(rules)
    ensures forall p :: p in PairsOf(l, d, Bucket(d, rules, kind)) ==> Contradicts(l, d, rules, p) && p.a.kind == kind
    ensures DistinctKeys(PairsOf(l, d, Bucket(d, rules, kind)))
  {
    var bucket := Bucket(d, rules, kind);
    BucketMembers(d, rules, kind);
    RowsMembers(l, d, bucket, |bucket|);
    RowsKeys(l, d, bucket, |bucket|);
  }

  /** Only contradictions are detected, and each unordered pair once. */
  lemma {:induction false} DetectedContradict(l: Language, d: Detector, rules: seq<Rule>, kinds: seq<string>)
    requires DistinctRules(rules) && Distinct(kinds)
    ensures forall p :: p in Pairs(l, d, rules, kinds) ==> Contradicts(l, d, rules, p) && p.a.kind in kinds
    ensures DistinctKeys(Pairs(l, d, rules, kinds))
  {
    if kinds != [] {
      var n := |kinds| - 1;
      DetectedContradict(l, d, rules, kinds[..n]);
      BucketPairs(l, d, rules, kinds[n]);
      var ps, qs := Pairs(l, d, rules, kinds[..n]), PairsOf(l, d, Bucket(d, rules, kinds[n]));
      forall p, q | p in ps && q in qs ensures KeyOf(p) != KeyOf(q) {
        assert p.a.kind in kinds[..n] && p.a.kind != q.a.kind;
        DifferentIds(rules, p.a, q.a);
        DifferentIds(rules, p.a, q.b);
      }
      ConcatDistinctKeys(ps, qs);
    }
  }

  lemma DifferentIds(rules: seq<Rule>, a: Rule, b: Rule)
    requires DistinctRules(rules) && a in rules && b in rules && a != b
    ensures a.id != b.id
  {}

  /** Within the cap every contradiction is detected, in one order or the other. */
  lemma ContradictionsAreDetected(l: Language, d: Detector, rules: seq<Rule>, kinds: seq<string>, a: Rule, b: Rule)
    requires DistinctRules(rules) && KindsOf(d, rules, kinds) && SymmetricDice(l)
    requires Contradicts(l, d, rules, Pair(a, b)) && CountActive(rules, a.kind) <= d.MaxPerKind()
    ensures Pair(a, b) in Pairs(l, d, rules, kinds) || Pair(b, a) in Pairs(l, d, rules, kinds)
  {
    var bucket := Bucket(d, rules, a.kind);
    BucketIsComplete(d, rules, a.kind, a);
    BucketIsComplete(d, rules, a.kind, b);
    var i :| 0 <= i < |bucket| && bucket[i] == a;
    var j :| 0 <= j < |bucket| && bucket[j] == b;
    assert Opposed(l, d, b, a);
    RowsMembers(l, d, bucket, |bucket|);
    assert i != j;
    assert Pair(a, b) in PairsOf(l, d, bucket) || Pair(b, a) in PairsOf(l, d, bucket);
    KindContributes(l, d, rules, kinds, a.kind);
  }

  lemma {:induction false} KindContributes(l: Language, d: Detector, rules: seq<Rule>, kinds: seq<string>, kind: string)
    requires kind in kinds
    ensures forall p :: p in PairsOf(l, d, Bucket(d, rules, kind)) ==> p in Pairs(l, d, rules, kinds)
  {
    var n := |kinds| - 1;
    if kinds[n] != kind { KindContributes(l, d, rules, kinds[..n], kind); }
  }
}
