/**
 Repeated conflict passes come to an end, whatever the caps on rules leave unseen: a pass that
 settles something retires a rule or makes a new pair wait, and neither is ever undone.
 */
module RuleConvergence {
  import opened SortSlice
  import opened UpdateTracker
  import opened RuleConflict
  import opened RuleGovernance
  import opened RuleFixpoint

  ghost function ActiveRules(s: Books): set<int> {
    set k | k in s.rules && s.rules[k].Active()
  }

  /** Pairs of rules no record makes wait. */
  ghost function FreeKeys(s: Books): set<(int, int)> {
    set a, b | a in s.rules && b in s.rules && a < b && !Waiting(s, a, b) :: (a, b)
  }

  ghost function Measure(s: Books): nat {
    |ActiveRules(s)| + |FreeKeys(s)|
  }

  /** A pass revives no rule and ends no waiting. */
  lemma PassShrinks(l: Language, s: Books, project: string, c: Choice)
    requires ValidPass(s, project, c)
    ensures ActiveRules(AfterPass(l, s, c)) <= ActiveRules(s)
    ensures FreeKeys(AfterPass(l, s, c)) <= FreeKeys(s)
  {
    var t := AfterPass(l, s, c);
    SettleRetires(s, NewPairs(l, c), c.supply, c.clock);
    forall k | k in ActiveRules(t) ensures k in ActiveRules(s) {
      assert k in t.rules.Keys;
    }
    forall a, b | (a, b) in FreeKeys(t) ensures (a, b) in FreeKeys(s) {
      if Waiting(s, a, b) { WaitingIsKept(l, s, project, c, a, b); }
    }
  }

  lemma EqualPairShows(l: Language, s: Books, project: string, c: Choice, p: Pair)
    requires Filed(s) && ValidPass(s, project, c) && |s.conflicts| <= 2000 && p in NewPairs(l, c) && !Unequal(p)
    ensures !Waiting(s, p.a.id, p.b.id) && Waiting(AfterPass(l, s, c), p.a.id, p.b.id) && p.a.id != p.b.id
  {
    SnapshotRules(s, project, c.rules);
    DetectedContradict(l, DEFAULT_DETECTOR, c.rules, c.kinds);
    UntrackedMembers(Pairs(l, DEFAULT_DETECTOR, c.rules, c.kinds), Tracked(c.existing));
    TrackedAreWaiting(s, c.existing, p.a.id, p.b.id);
    EqualPairWaits(l, s, project, c, p);
  }

  /** A settled pair lost an active rule, or waits for the first time. */
  lemma SettledPairShows(l: Language, s: Books, project: string, c: Choice, p: Pair)
    requires Filed(s) && ValidPass(s, project, c) && |s.conflicts| <= 2000 && p in NewPairs(l, c)
    ensures var t := AfterPass(l, s, c);
      if Unequal(p) then Loser(p).id in ActiveRules(s) - ActiveRules(t) else KeyOf(p) in FreeKeys(s) - FreeKeys(t)
  {
    NewPairsWereActive(l, s, project, c);
    SettleRetires(s, NewPairs(l, c), c.supply, c.clock);
    if !Unequal(p) {
      EqualPairShows(l, s, project, c, p);
      WaitingIsSymmetric(s, p.a.id, p.b.id);
      WaitingIsSymmetric(AfterPass(l, s, c), p.a.id, p.b.id);
    }
  }

  lemma WaitingIsSymmetric(s: Books, a: int, b: int)
    ensures Waiting(s, a, b) == Waiting(s, b, a)
  {
    assert PairKey(a, b) == PairKey(b, a);
  }

  /** A pass that settles something lowers the measure; no pass raises it. */
  lemma PassLowersMeasure(l: Language, s: Books, project: string, c: Choice)
    requires Filed(s) && ValidPass(s, project, c) && |s.conflicts| <= 2000
    ensures Measure(AfterPass(l, s, c)) + (if NewPairs(l, c) != [] then 1 else 0) <= Measure(s)
  {
    var t, ps := AfterPass(l, s, c), NewPairs(l, c);
    PassShrinks(l, s, project, c);
    SubsetSize(ActiveRules(t), ActiveRules(s));
    SubsetSize(FreeKeys(t), FreeKeys(s));
    if ps != [] {
      var p := ps[0];
      SettledPairShows(l, s, project, c, p);
      if Unequal(p) {
        SubsetSize(ActiveRules(t), ActiveRules(s) - {Loser(p).id});
      } else {
        SubsetSize(FreeKeys(t), FreeKeys(s) - {KeyOf(p)});
      }
    }
  }

  datatype Pass = Pass(project: string, c: Choice)

  /** Passes over any projects, each begun with no more records than it can see. */
  ghost predicate ValidPasses(l: Language, s: Books, passes: seq<Pass>)
    decreases |passes|
  {
    passes == [] || (
      && ValidPass(s, passes[0].project, passes[0].c) && |s.conflicts| <= 2000
      && ValidPasses(l, AfterPass(l, s, passes[0].c), passes[1..]))
  }

  function AfterPasses(l: Language, s: Books, passes: seq<Pass>): Books
    decreases |passes|
  {
    if passes == [] then s else AfterPasses(l, AfterPass(l, s, passes[0].c), passes[1..])
  }

  /** How many of the passes settle something. */
  function SettlingPasses(l: Language, s: Books, passes: seq<Pass>): nat
    decreases |passes|
  {
    if passes == [] then 0 else
    SettlingPasses(l, AfterPass(l, s, passes[0].c), passes[1..]) + if NewPairs(l, passes[0].c) != [] then 1 else 0
  }

  /**
   Convergence, whatever the number of rules: passes that settle something are no more than the
   active rules and the pairs that do not wait yet.
   */
  lemma {:induction false} PassesConverge(l: Language, s: Books, passes: seq<Pass>)
    requires Filed(s) && ValidPasses(l, s, passes)
    ensures SettlingPasses(l, s, passes) + Measure(AfterPasses(l, s, passes)) <= Measure(s)
    decreases |passes|
  {
    if passes != [] {
      var p := passes[0];
      PassLowersMeasure(l, s, p.project, p.c);
      PassKeepsFiled(l, s, p.project, p.c);
      PassesConverge(l, AfterPass(l, s, p.c), passes[1..]);
    }
  }
}
