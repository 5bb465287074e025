/**
 Which rules a conflict pass pairs and retires, said about the texts and trust levels themselves:
 only opposite directives about the same subject meet.
 */
module RuleLaws {
  import opened Wrappers
  import opened MemoryStore
  import opened RuleConflict
  import opened RuleGovernance
  import opened RuleFixpoint
  import opened Directives

  /** One text forbids, the other prescribes without forbidding, and they share a quarter of their bigrams. */
  lemma OpposedMeans(lower: char -> char, d: Detector, a: Rule, b: Rule)
    ensures Opposed(TextLanguage(lower), d, a, b) <==> (
      var forbids := (s: string) => Marked(lower, PROHIBITIVE_MARKERS, s);
      var prescribes := (s: string) =>
        Marked(lower, AFFIRMATIVE_MARKERS, s) && !Marked(lower, PROHIBITIVE_MARKERS, s);
      && ((forbids(a.content) && prescribes(b.content)) || (prescribes(a.content) && forbids(b.content)))
      && Text.Dice(a.content, b.content) >= if d.minSimilarity <= 0.0 then 0.25 else d.minSimilarity)
  {}

  /** Within the cap, detection pairs two rules exactly when both are active, of one kind, and opposed. */
  lemma PairedIff(lower: char -> char, d: Detector, rules: seq<Rule>, kinds: seq<string>, a: Rule, b: Rule)
    requires DistinctRules(rules) && KindsOf(d, rules, kinds) && a in rules && b in rules
    requires CountActive(rules, a.kind) <= if d.maxPerKind <= 0 then 50 else d.maxPerKind
    ensures var ps := Pairs(TextLanguage(lower), d, rules, kinds);
      Pair(a, b) in ps || Pair(b, a) in ps <==> (
        var forbids := (s: string) => Marked(lower, PROHIBITIVE_MARKERS, s);
        var prescribes := (s: string) =>
          Marked(lower, AFFIRMATIVE_MARKERS, s) && !Marked(lower, PROHIBITIVE_MARKERS, s);
        && a.obsoletedAt == None && b.obsoletedAt == None && a.kind == b.kind
        && ((forbids(a.content) && prescribes(b.content)) || (prescribes(a.content) && forbids(b.content)))
        && Text.Dice(a.content, b.content) >= if d.minSimilarity <= 0.0 then 0.25 else d.minSimilarity)
  {
    var l := TextLanguage(lower);
    BigramDiceIsSymmetric(lower);
    Text.DiceSymmetric(a.content, b.content);
    DetectedContradict(l, d, rules, kinds);
    OpposedMeans(lower, d, a, b);
    OpposedMeans(lower, d, b, a);
    if a.Active() && b.Active() && a.kind == b.kind && Opposed(l, d, a, b) {
      assert a.content != b.content;
      ContradictionsAreDetected(l, d, rules, kinds, a, b);
    }
  }

  /** Whatever the caps, a pass settles only pairs of opposite directives about the same subject. */
  lemma SettledAreOpposite(lower: char -> char, s: Books, project: string, c: Choice, p: Pair)
    requires ValidPass(s, project, c) && p in NewPairs(TextLanguage(lower), c)
    ensures var forbids := (s: string) => Marked(lower, PROHIBITIVE_MARKERS, s);
      var prescribes := (s: string) =>
        Marked(lower, AFFIRMATIVE_MARKERS, s) && !Marked(lower, PROHIBITIVE_MARKERS, s);
      && p.a.id in s.rules && s.rules[p.a.id] == p.a && p.b.id in s.rules && s.rules[p.b.id] == p.b
      && p.a.obsoletedAt == None && p.b.obsoletedAt == None && p.a.kind == p.b.kind
      && (project != "" ==> p.a.entityGroup == project && p.b.entityGroup == project)
      && ((forbids(p.a.content) && prescribes(p.b.content)) || (prescribes(p.a.content) && forbids(p.b.content)))
      && Text.Dice(p.a.content, p.b.content) >= 0.25
  {
    var l := TextLanguage(lower);
    NewPairsWereActive(l, s, project, c);
    SnapshotRules(s, project, c.rules);
    DetectedContradict(l, DEFAULT_DETECTOR, c.rules, c.kinds);
    UntrackedMembers(Pairs(l, DEFAULT_DETECTOR, c.rules, c.kinds), Tracked(c.existing));
    OpposedMeans(lower, DEFAULT_DETECTOR, p.a, p.b);
  }

  /**
   A rule retired by a pass lost against a more trusted active rule of its kind with the opposite
   directive; so rules that agree never retire each other.
   */
  lemma RetiredByOpposite(lower: char -> char, s: Books, project: string, c: Choice, k: int) returns (w: int)
    requires ValidPass(s, project, c) && k in s.rules && s.rules[k].obsoletedAt == None
    requires var t := AfterPass(TextLanguage(lower), s, c); k in t.rules ==> t.rules[k].obsoletedAt != None
    ensures var forbids := (s: string) => Marked(lower, PROHIBITIVE_MARKERS, s);
      var prescribes := (s: string) =>
        Marked(lower, AFFIRMATIVE_MARKERS, s) && !Marked(lower, PROHIBITIVE_MARKERS, s);
      && w in s.rules && Edge(w, k, ConflictsWith) in AfterPass(TextLanguage(lower), s, c).edges
      && (var a, b := s.rules[w], s.rules[k];
        && a.trust > b.trust && a.kind == b.kind && a.obsoletedAt == None
        && (project != "" ==> a.entityGroup == project && b.entityGroup == project)
        && ((forbids(a.content) && prescribes(b.content)) || (prescribes(a.content) && forbids(b.content)))
        && Text.Dice(a.content, b.content) >= 0.25)
  {
    var l := TextLanguage(lower);
    var ps := NewPairs(l, c);
    SettleRetires(s, ps, c.supply, c.clock);
    SettleDraws(s, ps, c.supply, c.clock);
    var p :| p in ps && Unequal(p) && Loser(p).id == k;
    SettledAreOpposite(lower, s, project, c, p);
    w := Winner(p).id;
    assert DrawsEdge(ps, ConflictEdge(p));
    Text.DiceSymmetric(p.a.content, p.b.content);
  }
}
