/**
 Whoever is retired automatically is outranked: backwards along CONFLICTS_WITH edges, trust rises
 strictly up to a rule that is still active.
 */
module RuleDominance {
  import opened SortSlice
  import opened MemoryStore
  import opened UpdateTracker
  import opened RuleConflict
  import opened RuleGovernance
  import opened RuleFixpoint

  /** An automatic pass over some project, or a fresh active rule. */
  datatype Step = AutoPass(project: string, c: Choice) | AddRule(rule: Rule)

  ghost predicate Allowed(s: Books, step: Step) {
    match step
    case AutoPass(project, c) => ValidPass(s, project, c)
    case AddRule(r) => r.id !in s.rules && r.Active()
  }

  function Next(l: Language, s: Books, step: Step): Books {
    match step
    case AutoPass(_, c) => AfterPass(l, s, c)
    case AddRule(r) => s.(rules := s.rules[r.id := r])
  }

  ghost predicate AllowedRun(l: Language, s: Books, steps: seq<Step>)
    decreases |steps|
  {
    steps == [] || (Allowed(s, steps[0]) && AllowedRun(l, Next(l, s, steps[0]), steps[1..]))
  }

  function Run(l: Language, s: Books, steps: seq<Step>): Books
    decreases |steps|
  {
    if steps == [] then s else Run(l, Next(l, s, steps[0]), steps[1..])
  }

  predicate Above(s: Books, j: int, k: int) {
    j in s.rules && k in s.rules && Edge(j, k, ConflictsWith) in s.edges && s.rules[j].trust > s.rules[k].trust
  }

  /** Some rule that was not retired at the start was preferred to `k`. */
  ghost predicate Outranked(s: Books, start: set<int>, k: int) {
    exists j :: j !in start && Above(s, j, k)
  }

  /**
   `start` holds the rules retired before automatic governance began; they stay retired, and every
   other retired rule is outranked.
   */
  ghost predicate Dominated(s: Books, start: set<int>) {
    && Filed(s)
    && (forall k :: k in start && k in s.rules ==> !s.rules[k].Active())
    && (forall k :: k in s.rules && k !in start && !s.rules[k].Active() ==> Outranked(s, start, k))
  }

  /** The winner of a settled pair stands above its loser from then on. */
  lemma LoserIsOutranked(s: Books, t: Books, start: set<int>, ps: seq<Pair>, p: Pair)
    requires p in ps && Unequal(p) && Loser(p).id in t.rules && Winner(p).id in t.rules && Winner(p).id !in start
    requires t.rules[Loser(p).id].trust == Loser(p).trust && t.rules[Winner(p).id].trust == Winner(p).trust
    requires forall e :: e in t.edges <==> e in s.edges || DrawsEdge(ps, e)
    ensures Outranked(t, start, Loser(p).id)
  {
    assert DrawsEdge(ps, ConflictEdge(p));
    assert Above(t, Winner(p).id, Loser(p).id);
  }

  /** Whoever was outranked stays so: edges stay, and trust does not change. */
  lemma StaysOutranked(s: Books, t: Books, start: set<int>, k: int)
    requires Outranked(s, start, k) && t.rules.Keys == s.rules.Keys
    requires forall j :: j in s.rules ==> SameRule(s.rules[j], t.rules[j])
    requires forall e :: e in s.edges ==> e in t.edges
    ensures Outranked(t, start, k)
  {
    var j :| j !in start && Above(s, j, k);
    assert SameRule(s.rules[j], t.rules[j]) && SameRule(s.rules[k], t.rules[k]);
    assert Above(t, j, k);
  }

  /** A rule retired in a pass is outranked by one that was active before it. */
  lemma RetiredInPassIsOutranked(s: Books, t: Books, start: set<int>, ps: seq<Pair>, p: Pair)
    requires p in ps && Unequal(p)
    requires p.a.id in s.rules && s.rules[p.a.id] == p.a && p.a.Active() && p.b.id in s.rules &&
        s.rules[p.b.id] == p.b && p.b.Active()
    requires forall k :: k in start && k in s.rules ==> !s.rules[k].Active()
    requires t.rules.Keys == s.rules.Keys && forall k :: k in s.rules ==> SameRule(s.rules[k], t.rules[k])
    requires forall e :: e in t.edges <==> e in s.edges || DrawsEdge(ps, e)
    ensures Outranked(t, start, Loser(p).id)
  {
    assert SameRule(s.rules[p.a.id], t.rules[p.a.id]) && SameRule(s.rules[p.b.id], t.rules[p.b.id]);
    LoserIsOutranked(s, t, start, ps, p);
  }

  /** A pass may retire on the word of a rule it has itself retired, and still nobody goes unaccounted. */
  lemma PassKeepsDominated(l: Language, s: Books, start: set<int>, project: string, c: Choice)
    requires Dominated(s, start) && ValidPass(s, project, c)
    ensures Dominated(AfterPass(l, s, c), start)
  {
    var t, ps := AfterPass(l, s, c), NewPairs(l, c);
    SettleRetires(s, ps, c.supply, c.clock);
    SettleDraws(s, ps, c.supply, c.clock);
    PassKeepsFiled(l, s, project, c);
    forall k | k in t.rules && k !in start && !t.rules[k].Active() ensures Outranked(t, start, k) {
      if s.rules[k].Active() {
        var p :| p in ps && Unequal(p) && Loser(p).id == k;
        NewPairsWereActive(l, s, project, c);
        RetiredInPassIsOutranked(s, t, start, ps, p);
      } else {
        StaysOutranked(s, t, start, k);
      }
    }
  }

  lemma StepKeepsDominated(l: Language, s: Books, start: set<int>, step: Step)
    requires Dominated(s, start) && Allowed(s, step) && (step.AddRule? ==> step.rule.id !in start)
    ensures Dominated(Next(l, s, step), start)
  {
    match step
    case AutoPass(project, c) => PassKeepsDominated(l, s, start, project, c);
    case AddRule(r) =>
      var t := Next(l, s, step);
      forall k | k in t.rules && k !in start && !t.rules[k].Active() ensures Outranked(t, start, k) {
        var j :| j !in start && Above(s, j, k);
        assert Above(t, j, k);
      }
  }

  lemma {:induction false} RunKeepsDominated(l: Language, s: Books, start: set<int>, steps: seq<Step>)
    requires Dominated(s, start) && AllowedRun(l, s, steps) && start <= s.rules.Keys
    ensures Dominated(Run(l, s, steps), start)
    decreases |steps|
  {
    if steps != [] {
      StepKeepsDominated(l, s, start, steps[0]);
      if steps[0].AutoPass? {
        SettleRetires(s, NewPairs(l, steps[0].c), steps[0].c.supply, steps[0].c.clock);
      }
      RunKeepsDominated(l, Next(l, s, steps[0]), start, steps[1..]);
    }
  }

  /** A path along CONFLICTS_WITH edges on which trust falls. */
  ghost predicate FallingPath(s: Books, p: seq<int>) {
    p != [] && forall i :: 0 <= i < |p| - 1 ==> Above(s, p[i], p[i + 1])
  }

  ghost function MoreTrusted(s: Books, k: int): set<int>
    requires k in s.rules
  {
    set j | j in s.rules && s.rules[j].trust > s.rules[k].trust
  }

  lemma FewerAreMoreTrusted(s: Books, j: int, k: int)
    requires Above(s, j, k)
    ensures |MoreTrusted(s, j)| < |MoreTrusted(s, k)|
  {
    SubsetSize(MoreTrusted(s, j), MoreTrusted(s, k) - {j});
  }

  /** Climbing from a rule outside `start` ends at an active one. */
  lemma {:induction false} ClimbToActive(s: Books, start: set<int>, k: int) returns (p: seq<int>)
    requires Dominated(s, start) && k in s.rules && k !in start
    ensures FallingPath(s, p) && p[|p| - 1] == k && p[0] in s.rules && s.rules[p[0]].Active()
    decreases |MoreTrusted(s, k)|
  {
    if s.rules[k].Active() {
      p := [k];
    } else {
      var j :| j !in start && Above(s, j, k);
      FewerAreMoreTrusted(s, j, k);
      p := ClimbToActive(s, start, j);
      p := p + [k];
    }
  }

  ghost function RetiredRules(s: Books): set<int> {
    set k | k in s.rules && !s.rules[k].Active()
  }

  /**
   After any number of automatic passes over any projects, with rules added in between, every rule
   retired on the way reaches an active rule backwards along edges of strictly rising trust.
   */
  lemma AutoRetiredAreDominated(l: Language, s: Books, steps: seq<Step>, k: int) returns (p: seq<int>)
    requires Filed(s) && AllowedRun(l, s, steps)
    requires k in Run(l, s, steps).rules && k !in RetiredRules(s)
    ensures FallingPath(Run(l, s, steps), p) && p[|p| - 1] == k
    ensures p[0] in Run(l, s, steps).rules && Run(l, s, steps).rules[p[0]].Active()
    ensures !Run(l, s, steps).rules[k].Active() ==> Run(l, s, steps).rules[p[0]].trust > Run(l, s, steps).rules[k].trust
  {
    RunKeepsDominated(l, s, RetiredRules(s), steps);
    p := ClimbToActive(Run(l, s, steps), RetiredRules(s), k);
    if |p| > 1 { TrustFalls(Run(l, s, steps), p); }
  }

  lemma {:induction false} TrustFalls(s: Books, p: seq<int>)
    requires FallingPath(s, p) && |p| > 1
    ensures p[0] in s.rules && p[|p| - 1] in s.rules && s.rules[p[0]].trust > s.rules[p[|p| - 1]].trust
  {
    var n := |p| - 1;
    assert Above(s, p[n - 1], p[n]);
    if n > 1 { TrustFalls(s, p[..n]); }
  }
}
