/**
 Acting on detected conflicts: records, retirement of the less trusted side, and what any number
 of automatic passes leaves.
 */
module RuleGovernance {
  import opened Wrappers
  import opened SortSlice
  import opened MemoryStore
  import opened UpdateTracker
  import opened RuleConflict

  // ---------------------------------------------------------------- settling one pair, as functions

  function Winner(p: Pair): Rule {
    if p.b.trust > p.a.trust then p.b else p.a
  }

  function Loser(p: Pair): Rule {
    if p.b.trust > p.a.trust then p.a else p.b
  }

  predicate Unequal(p: Pair) {
    p.a.trust != p.b.trust
  }

  function Noted(p: Pair, id: int, now: int): Conflict {
    Conflict(id, p.a.id, p.b.id, p.a.entityGroup, Pending, None, now)
  }

  function Settled(p: Pair, id: int, now: int): Conflict {
    if Unequal(p) then Noted(p, id, now).(status := AutoResolved, resolution := Some(Winner(p).id))
      else Noted(p, id, now)
  }

  function Retire(rules: map<int, Rule>, id: int, now: int): map<int, Rule> {
    if id in rules then rules[id := rules[id].(obsoletedAt := Some(now))] else rules
  }

  function ConflictEdge(p: Pair): Edge {
    Edge(Winner(p).id, Loser(p).id, ConflictsWith)
  }

  /** One new pair: recorded, and when trust decides, resolved. */
  function SettleOne(s: Books, p: Pair, id: int, now: int): Books {
    Books(if Unequal(p) then Retire(s.rules, Loser(p).id, now) else s.rules,
          s.edges + if Unequal(p) then [ConflictEdge(p)] else [],
          s.conflicts[id := Settled(p, id, now)])
  }

  /** All new pairs in order; identifiers and instants come from outside. */
  function Settle(s: Books, ps: seq<Pair>, supply: nat -> int, clock: nat -> int): Books {
    if ps == [] then s else
    var n := |ps| - 1;
    SettleOne(Settle(s, ps[..n], supply, clock), ps[n], supply(n), clock(n))
  }

  /** Keys of the pairs that wait for a decision. */
  function Tracked(existing: seq<Conflict>): set<(int, int)> {
    set i | 0 <= i < |existing| && existing[i].status == Pending :: PairKey(existing[i].a, existing[i].b)
  }

  function Untracked(ps: seq<Pair>, tracked: set<(int, int)>): seq<Pair> {
    if ps == [] then [] else
    var n := |ps| - 1;
    Untracked(ps[..n], tracked) + if KeyOf(ps[n]) in tracked then [] else [ps[n]]
  }

  const RULE_LIMIT := 1000
  const RECORD_LIMIT := 2000

  predicate InGroup(project: string, r: Rule) {
    project == "" || r.entityGroup == project
  }

  function ByWeight(): Rule -> real {
    (r: Rule) => r.weight
  }

  function ByCreation(): Conflict -> real {
    (c: Conflict) => c.createdAt as real
  }

  ghost predicate ListsGroup(rules: map<int, Rule>, project: string, all: seq<Rule>) {
    Distinct(all) && forall r: Rule :: r in all <==> r.id in rules && rules[r.id] == r && InGroup(project, r)
  }

  ghost predicate ListsRecords(conflicts: map<int, Conflict>, all: seq<Conflict>) {
    Distinct(all) && forall c: Conflict :: c in all <==> c.id in conflicts && conflicts[c.id] == c
  }

  /** A snapshot of the project's rules, retired ones included: the heaviest 1000. */
  ghost predicate RulesAnswer(rules: map<int, Rule>, project: string, answer: seq<Rule>) {
    exists all :: IsTop(all, ByWeight(), RULE_LIMIT, answer) && ListsGroup(rules, project, all)
  }

  /** The most recent 2000 conflict records. */
  ghost predicate RecordsAnswer(conflicts: map<int, Conflict>, answer: seq<Conflict>) {
    exists all :: IsTop(all, ByCreation(), RECORD_LIMIT, answer) && ListsRecords(conflicts, all)
  }

  /** How one pass sees the store, in which order it visits the kinds, and the identifiers and instants it is given. */
  datatype Choice = Choice(rules: seq<Rule>, existing: seq<Conflict>, kinds: seq<string>, supply: nat -> int,
                           clock: nat -> int)

  ghost predicate FreshSupply(conflicts: map<int, Conflict>, supply: nat -> int) {
    && (forall i :: supply(i) !in conflicts)
    && (forall i, j :: supply(i) == supply(j) ==> i == j)
  }

  ghost predicate ValidPass(s: Books, project: string, c: Choice) {
    && RulesAnswer(s.rules, project, c.rules) && RecordsAnswer(s.conflicts, c.existing)
    && KindsOf(DEFAULT_DETECTOR, c.rules, c.kinds) && FreshSupply(s.conflicts, c.supply)
  }

  function NewPairs(l: Language, c: Choice): seq<Pair> {
    Untracked(Pairs(l, DEFAULT_DETECTOR, c.rules, c.kinds), Tracked(c.existing))
  }

  function AfterPass(l: Language, s: Books, c: Choice): Books {
    Settle(s, NewPairs(l, c), c.supply, c.clock)
  }

  function CountUnequal(ps: seq<Pair>): nat {
    if ps == [] then 0 else CountUnequal(ps[..|ps| - 1]) + if Unequal(ps[|ps| - 1]) then 1 else 0
  }

  // ---------------------------------------------------------------- the store and the pass

  class RuleStore {
    var semantics: map<int, Rule>
    var edges: seq<Edge>
    var conflicts: map<int, Conflict>

    method SearchSemantic(project: string) returns (answer: seq<Rule>)
      requires Filed(BooksOf(this))
      ensures RulesAnswer(semantics, project, answer)
    {
      var all: seq<Rule> := [];
      var rest := semantics.Keys;
      while rest != {}
        invariant rest <= semantics.Keys && Distinct(all)
        invariant forall r: Rule :: r in all <==>
            r.id in semantics && semantics[r.id] == r && InGroup(project, r) && r.id !in rest
        decreases rest
      {
        var id := AnyOf(rest);
        rest := rest - {id};
        if InGroup(project, semantics[id]) {
          assert semantics[id] !in all;
          all := all + [semantics[id]];
        }
      }
      answer := Top(all, ByWeight(), RULE_LIMIT);
      assert ListsGroup(semantics, project, all);
    }

    method ListRuleConflicts() returns (answer: seq<Conflict>)
      requires Filed(BooksOf(this))
      ensures RecordsAnswer(conflicts, answer)
    {
      var all: seq<Conflict> := [];
      var rest := conflicts.Keys;
      while rest != {}
        invariant rest <= conflicts.Keys && Distinct(all)
        invariant forall c: Conflict :: c in all <==> c.id in conflicts && conflicts[c.id] == c && c.id !in rest
        decreases rest
      {
        var id := AnyOf(rest);
        rest := rest - {id};
        assert conflicts[id] !in all;
        all := all + [conflicts[id]];
      }
      answer := Top(all, ByCreation(), RECORD_LIMIT);
      assert ListsRecords(conflicts, all);
    }

    method SaveRuleConflict(c: Conflict)
      modifies this`conflicts
      ensures conflicts == old(conflicts)[c.id := c]
    {
      conflicts := conflicts[c.id := c];
    }

    method ResolveRuleConflict(id: int, status: ConflictStatus, resolution: int) returns (ok: bool)
      modifies this`conflicts
      ensures ok <==> id in old(conflicts)
      ensures conflicts ==
        if ok then old(conflicts)[id := old(conflicts)[id].(status := status, resolution := Some(resolution))]
          else old(conflicts)
    {
      ok := id in conflicts;
      if ok { conflicts := conflicts[id := conflicts[id].(status := status, resolution := Some(resolution))]; }
    }

    method MarkSemanticObsolete(id: int, at: int) returns (ok: bool)
      modifies this`semantics
      ensures ok <==> id in old(semantics)
      ensures semantics == Retire(old(semantics), id, at)
    {
      ok := id in semantics;
      if ok { semantics := semantics[id := semantics[id].(obsoletedAt := Some(at))]; }
    }

    method CreateEdge(from: int, to: int)
      modifies this`edges
      ensures edges == old(edges) + [Edge(from, to, ConflictsWith)]
    {
      edges := edges + [Edge(from, to, ConflictsWith)];
    }
  }

  function BooksOf(st: RuleStore): Books
    reads st
  {
    Books(st.semantics, st.edges, st.conflicts)
  }

  datatype ResolveOutcome = ResolveOutcome(status: ConflictStatus, winner: int, loser: int)

  datatype GovernanceError = RuleNotFound(id: int) | RecordNotFound(id: int) | NotAParty(id: int)

  /** Settle a recorded conflict by trust; equal trust waits for a human. */
  method Resolve(st: RuleStore, conflict: Conflict, a: Rule, b: Rule, now: int)
    returns (r: Result<ResolveOutcome, GovernanceError>)
    modifies st
    ensures a.trust == b.trust ==>
        r == Success(ResolveOutcome(Pending, NIL_ID, NIL_ID)) && BooksOf(st) == old(BooksOf(st))
    ensures a.trust != b.trust ==>
      var s, winner, loser := old(BooksOf(st)), Winner(Pair(a, b)).id, Loser(Pair(a, b)).id;
      if loser !in s.rules then r == Failure(RuleNotFound(loser)) && BooksOf(st) == s
      else
        && BooksOf(st).rules == Retire(s.rules, loser, now)
        && BooksOf(st).edges == s.edges + [Edge(winner, loser, ConflictsWith)]
        && if conflict.id !in s.conflicts then r == Failure(RecordNotFound(conflict.id)) &&
          BooksOf(st).conflicts == s.conflicts
           else
             && r == Success(ResolveOutcome(AutoResolved, winner, loser))
             && BooksOf(st).conflicts
               == s.conflicts[conflict.id :=
                 s.conflicts[conflict.id].(status := AutoResolved, resolution := Some(winner))]
  {
    if a.trust == b.trust { return Success(ResolveOutcome(Pending, NIL_ID, NIL_ID)); }
    var winner, loser := a, b;
    if b.trust > a.trust { winner, loser := b, a; }
    var ok := st.MarkSemanticObsolete(loser.id, now);
    if !ok { return Failure(RuleNotFound(loser.id)); }
    st.CreateEdge(winner.id, loser.id);
    ok := st.ResolveRuleConflict(conflict.id, AutoResolved, winner.id);
    if !ok { return Failure(RecordNotFound(conflict.id)); }
    return Success(ResolveOutcome(AutoResolved, winner.id, loser.id));
  }

  /** A human decision: the other party of the record is retired, whatever its trust. */
  method ResolveManually(st: RuleStore, conflict: Conflict, winner: int, now: int)
    returns (r: Result<int, GovernanceError>)
    modifies st
    ensures winner != conflict.a && winner != conflict.b ==>
        r == Failure(NotAParty(winner)) && BooksOf(st) == old(BooksOf(st))
    ensures winner == conflict.a || winner == conflict.b ==>
      var s, loser := old(BooksOf(st)), if winner == conflict.a then conflict.b else conflict.a;
      if loser !in s.rules then r == Failure(RuleNotFound(loser)) && BooksOf(st) == s
      else
        && BooksOf(st).rules == Retire(s.rules, loser, now)
        && BooksOf(st).edges == s.edges + [Edge(winner, loser, ConflictsWith)]
        && if conflict.id !in s.conflicts then r == Failure(RecordNotFound(conflict.id)) &&
          BooksOf(st).conflicts == s.conflicts
           else
             && r == Success(loser)
             && BooksOf(st).conflicts
               == s.conflicts[conflict.id :=
                 s.conflicts[conflict.id].(status := ManualResolved, resolution := Some(winner))]
  {
    if winner != conflict.a && winner != conflict.b { return Failure(NotAParty(winner)); }
    var loser := if winner == conflict.a then conflict.b else conflict.a;
    var ok := st.MarkSemanticObsolete(loser, now);
    if !ok { return Failure(RuleNotFound(loser)); }
    st.CreateEdge(winner, loser);
    ok := st.ResolveRuleConflict(conflict.id, ManualResolved, winner);
    if !ok { return Failure(RecordNotFound(conflict.id)); }
    return Success(loser);
  }

  datatype DetectionResult = DetectionResult(detected: nat, autoResolved: nat, pending: nat)

  lemma SnapshotRules(s: Books, project: string, rules: seq<Rule>)
    requires RulesAnswer(s.rules, project, rules)
    ensures DistinctRules(rules)
    ensures forall r :: r in rules ==> r.id in s.rules && s.rules[r.id] == r && InGroup(project, r)
  {
    var all :| IsTop(all, ByWeight(), RULE_LIMIT, rules) && ListsGroup(s.rules, project, all);
    forall i, j | 0 <= i < j < |rules| ensures rules[i].id != rules[j].id {
      assert rules[i] in all && rules[j] in all;
    }
  }

  /** Every detected pair is between stored rules. */
  ghost predicate PairsStored(s: Books, ps: seq<Pair>) {
    forall p :: p in ps ==> p.a.id in s.rules && p.b.id in s.rules
  }

  lemma SettleKeepsKeys(s: Books, ps: seq<Pair>, supply: nat -> int, clock: nat -> int)
    ensures Settle(s, ps, supply, clock).rules.Keys == s.rules.Keys
  {}

  lemma SettleOneMore(s: Books, ps: seq<Pair>, p: Pair, supply: nat -> int, clock: nat -> int)
    ensures Settle(s, ps + [p], supply, clock) == SettleOne(Settle(s, ps, supply, clock), p, supply(|ps|), clock(|ps|))
    ensures CountUnequal(ps + [p]) == CountUnequal(ps) + if Unequal(p) then 1 else 0
  {
    assert (ps + [p])[..|ps|] == ps;
  }

  /** Record one untracked pair and resolve it. */
  method SettleNext(st: RuleStore, p: Pair, id: int, now: int) returns (status: ConflictStatus)
    requires p.a.id in st.semantics && p.b.id in st.semantics
    modifies st
    ensures BooksOf(st) == SettleOne(old(BooksOf(st)), p, id, now)
    ensures status == if Unequal(p) then AutoResolved else Pending
  {
    var conflict := Noted(p, id, now);
    st.SaveRuleConflict(conflict);
    var outcome := Resolve(st, conflict, p.a, p.b, now);
    assert outcome.Success?;
    status := outcome.value.status;
  }

  /** Record and resolve the pairs that are not tracked yet. */
  method SettleAll(st: RuleStore, pairs: seq<Pair>, tracked: set<(int, int)>, supply: nat -> int, clock: nat -> int)
    returns (r: DetectionResult)
    requires PairsStored(BooksOf(st), pairs)
    modifies st
    ensures BooksOf(st) == Settle(old(BooksOf(st)), Untracked(pairs, tracked), supply, clock)
    ensures r.detected == |Untracked(pairs, tracked)|
    ensures r.autoResolved == CountUnequal(Untracked(pairs, tracked)) && r.pending == r.detected - r.autoResolved
  {
    ghost var s := BooksOf(st);
    r := DetectionResult(0, 0, 0);
    for i := 0 to |pairs|
      invariant BooksOf(st) == Settle(s, Untracked(pairs[..i], tracked), supply, clock)
      invariant r.detected == |Untracked(pairs[..i], tracked)|
      invariant r.autoResolved == CountUnequal(Untracked(pairs[..i], tracked)) &&
          r.pending == r.detected - r.autoResolved
    {
      ghost var done := Untracked(pairs[..i], tracked);
      var pair := pairs[i];
      assert pairs[..i + 1][..i] == pairs[..i];
      if KeyOf(pair) in tracked {
        assert Untracked(pairs[..i + 1], tracked) == done;
        continue;
      }
      SettleOneMore(s, done, pair, supply, clock);
      SettleKeepsKeys(s, done, supply, clock);
      assert Untracked(pairs[..i + 1], tracked) == done + [pair];
      var status := SettleNext(st, pair, supply(r.detected), clock(r.detected));
      if status == AutoResolved {
        r := DetectionResult(r.detected + 1, r.autoResolved + 1, r.pending);
      } else {
        r := DetectionResult(r.detected + 1, r.autoResolved, r.pending + 1);
      }
    }
    assert pairs[..|pairs|] == pairs;
  }

  lemma DetectedAreStored(l: Language, s: Books, project: string, rules: seq<Rule>, kinds: seq<string>)
    requires RulesAnswer(s.rules, project, rules) && KindsOf(DEFAULT_DETECTOR, rules, kinds)
    ensures PairsStored(s, Pairs(l, DEFAULT_DETECTOR, rules, kinds))
  {
    SnapshotRules(s, project, rules);
    DetectedContradict(l, DEFAULT_DETECTOR, rules, kinds);
  }

  /** Detect, skip what is tracked, record and resolve the rest. */
  method RunRuleConflictDetection(l: Language, st: RuleStore, project: string, supply: nat -> int, clock: nat -> int)
    returns (r: DetectionResult, ghost c: Choice)
    requires Filed(BooksOf(st)) && FreshSupply(st.conflicts, supply)
    modifies st
    ensures c.supply == supply && c.clock == clock
    ensures ValidPass(old(BooksOf(st)), project, c)
    ensures BooksOf(st) == AfterPass(l, old(BooksOf(st)), c)
    ensures r.detected == |NewPairs(l, c)| && r.autoResolved == CountUnequal(NewPairs(l, c)) &&
        r.pending == r.detected - r.autoResolved
  {
    var rules := st.SearchSemantic(project);
    var existing := st.ListRuleConflicts();
    var pairs;
    ghost var kinds;
    pairs, kinds := Detect(l, DEFAULT_DETECTOR, rules);
    c := Choice(rules, existing, kinds, supply, clock);
    DetectedAreStored(l, BooksOf(st), project, rules, kinds);
    r := SettleAll(st, pairs, Tracked(existing), supply, clock);
  }
}
