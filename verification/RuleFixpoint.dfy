/**
 What one conflict pass reaches, whatever the order of its buckets, and that a second pass finds
 nothing.
 */
module RuleFixpoint {
  import opened Wrappers
  import opened Bags
  import opened SortSlice
  import opened MemoryStore
  import opened UpdateTracker
  import opened RuleConflict
  import opened RuleGovernance

  // ---------------------------------------------------------------- the effect of settling pairs

  ghost predicate Loses(ps: seq<Pair>, k: int) {
    exists p :: p in ps && Unequal(p) && Loser(p).id == k
  }

  ghost predicate DrawsEdge(ps: seq<Pair>, e: Edge) {
    exists p :: p in ps && Unequal(p) && ConflictEdge(p) == e
  }

  /** The same rule, retired or not. */
  predicate SameRule(a: Rule, b: Rule) {
    a.(obsoletedAt := None) == b.(obsoletedAt := None)
  }

  lemma {:induction false} SettleRetires(s: Books, ps: seq<Pair>, supply: nat -> int, clock: nat -> int)
    ensures var t := Settle(s, ps, supply, clock);
      && t.rules.Keys == s.rules.Keys
      && forall k :: k in s.rules ==>
        SameRule(s.rules[k], t.rules[k]) && (t.rules[k].Active() <==> s.rules[k].Active() && !Loses(ps, k))
  {
    if ps != [] {
      var n := |ps| - 1;
      SettleRetires(s, ps[..n], supply, clock);
      assert ps == ps[..n] + [ps[n]];
      forall k ensures Loses(ps, k) <==> Loses(ps[..n], k) || (Unequal(ps[n]) && Loser(ps[n]).id == k) {
        if Loses(ps[..n], k) {
          var p :| p in ps[..n] && Unequal(p) && Loser(p).id == k;
          assert p in ps;
        }
      }
    }
  }

  lemma {:induction false} SettleDraws(s: Books, ps: seq<Pair>, supply: nat -> int, clock: nat -> int)
    ensures forall e :: e in Settle(s, ps, supply, clock).edges <==> e in s.edges || DrawsEdge(ps, e)
  {
    if ps != [] {
      var n := |ps| - 1;
      SettleDraws(s, ps[..n], supply, clock);
      assert ps == ps[..n] + [ps[n]];
      forall e ensures DrawsEdge(ps, e) <==> DrawsEdge(ps[..n], e) || (Unequal(ps[n]) && ConflictEdge(ps[n]) == e) {
        if DrawsEdge(ps[..n], e) {
          var p :| p in ps[..n] && Unequal(p) && ConflictEdge(p) == e;
          assert p in ps;
        }
      }
    }
  }

  ghost predicate Supplied(supply: nat -> int, n: nat, id: int) {
    exists i :: 0 <= i < n && supply(i) == id
  }

  /** Earlier records stay as they are, and each settled pair has its own. */
  lemma {:induction false} SettleRecords(s: Books, ps: seq<Pair>, supply: nat -> int, clock: nat -> int)
    requires FreshSupply(s.conflicts, supply)
    ensures var t := Settle(s, ps, supply, clock);
      && (forall id :: id in t.conflicts <==> id in s.conflicts || Supplied(supply, |ps|, id))
      && (forall id :: id in s.conflicts ==> t.conflicts[id] == s.conflicts[id])
      && (forall i :: 0 <= i < |ps| ==>
        supply(i) in t.conflicts && t.conflicts[supply(i)] == Settled(ps[i], supply(i), clock(i)))
  {
    if ps != [] {
      var n := |ps| - 1;
      SettleRecords(s, ps[..n], supply, clock);
      forall id ensures Supplied(supply, |ps|, id) <==> Supplied(supply, n, id) || supply(n) == id {}
    }
  }

  lemma {:induction false} UntrackedMembers(ps: seq<Pair>, tracked: set<(int, int)>)
    ensures forall p :: p in Untracked(ps, tracked) <==> p in ps && KeyOf(p) !in tracked
    ensures DistinctKeys(ps) ==> DistinctKeys(Untracked(ps, tracked))
  {
    if ps != [] {
      var n := |ps| - 1;
      UntrackedMembers(ps[..n], tracked);
      assert ps == ps[..n] + [ps[n]];
    }
  }

  /** The pairs a pass settles are between rules that were active when it began. */
  lemma NewPairsWereActive(l: Language, s: Books, project: string, c: Choice)
    requires ValidPass(s, project, c)
    ensures forall p :: p in NewPairs(l, c) ==>
      && p.a.id in s.rules && s.rules[p.a.id] == p.a && p.a.Active()
      && p.b.id in s.rules && s.rules[p.b.id] == p.b && p.b.Active()
  {
    SnapshotRules(s, project, c.rules);
    DetectedContradict(l, DEFAULT_DETECTOR, c.rules, c.kinds);
    UntrackedMembers(Pairs(l, DEFAULT_DETECTOR, c.rules, c.kinds), Tracked(c.existing));
  }

  // ---------------------------------------------------------------- which pairs a pass settles

  /** A pending record names the pair. */
  ghost predicate Waiting(s: Books, a: int, b: int) {
    exists id :: id in s.conflicts && s.conflicts[id].status == Pending &&
      PairKey(s.conflicts[id].a, s.conflicts[id].b) == PairKey(a, b)
  }

  /** Two active rules of the project contradict each other. */
  ghost predicate InConflict(l: Language, s: Books, project: string, a: int, b: int) {
    && a in s.rules && b in s.rules && a != b
    && InGroup(project, s.rules[a]) && InGroup(project, s.rules[b])
    && s.rules[a].Active() && s.rules[b].Active() && s.rules[a].kind == s.rules[b].kind
    && Opposed(l, DEFAULT_DETECTOR, s.rules[a], s.rules[b])
  }

  ghost predicate Open(l: Language, s: Books, project: string, a: int, b: int) {
    InConflict(l, s, project, a, b) && !Waiting(s, a, b)
  }

  ghost function GroupIDs(s: Books, project: string): set<int> {
    set k | k in s.rules && InGroup(project, s.rules[k])
  }

  ghost function ActiveOfKind(s: Books, project: string, kind: string): set<int> {
    set k | k in s.rules && InGroup(project, s.rules[k]) && s.rules[k].Active() && s.rules[k].kind == kind
  }

  /** The pass sees every rule of the project, every record, and pairs all active rules of a kind. */
  ghost predicate WithinCaps(s: Books, project: string) {
    && |GroupIDs(s, project)| <= 1000
    && (forall kind :: |ActiveOfKind(s, project, kind)| <= 50)
    && |s.conflicts| <= 2000
  }

  lemma SnapshotIsComplete(s: Books, project: string, rules: seq<Rule>, k: int)
    requires Filed(s) && RulesAnswer(s.rules, project, rules) && |GroupIDs(s, project)| <= RULE_LIMIT
    requires k in GroupIDs(s, project)
    ensures s.rules[k] in rules
  {
    SnapshotRules(s, project, rules);
    var all :| IsTop(all, ByWeight(), RULE_LIMIT, rules) && ListsGroup(s.rules, project, all);
    assert s.rules[k] in all;
    if s.rules[k] !in rules {
      var ids := Map((r: Rule) => r.id, rules);
      DistinctSize(ids);
      SubsetSize(Elements(ids), GroupIDs(s, project) - {k});
      assert false;
    }
  }

  lemma RecordsAreComplete(s: Books, records: seq<Conflict>)
    requires Filed(s) && RecordsAnswer(s.conflicts, records) && |s.conflicts| <= RECORD_LIMIT
    ensures forall c :: c in records <==> c.id in s.conflicts && s.conflicts[c.id] == c
  {
    var all :| IsTop(all, ByCreation(), RECORD_LIMIT, records) && ListsRecords(s.conflicts, all);
    assert |s.conflicts.Keys| == |s.conflicts|;
    forall c | c in all ensures c in records {
      if c !in records {
        var ids := Map((r: Conflict) => r.id, records);
        forall i, j | 0 <= i < j < |ids| ensures ids[i] != ids[j] {
          assert records[i] in all && records[j] in all;
        }
        DistinctSize(ids);
        forall i | 0 <= i < |ids| ensures ids[i] in s.conflicts.Keys - {c.id} {
          assert records[i] in all && records[i] in records;
        }
        SubsetSize(Elements(ids), s.conflicts.Keys - {c.id});
        assert false;
      }
    }
  }

  /** The pending records, as the pass reads them. */
  lemma TrackedAreWaiting(s: Books, records: seq<Conflict>, a: int, b: int)
    requires Filed(s) && RecordsAnswer(s.conflicts, records) && |s.conflicts| <= RECORD_LIMIT
    ensures PairKey(a, b) in Tracked(records) <==> Waiting(s, a, b)
  {
    RecordsAreComplete(s, records);
    if Waiting(s, a, b) {
      var id :| id in s.conflicts && s.conflicts[id].status == Pending &&
        PairKey(s.conflicts[id].a, s.conflicts[id].b) == PairKey(a, b);
      assert s.conflicts[id] in records;
    }
  }

  lemma {:induction false} CountIsBounded(rules: seq<Rule>, kind: string, ids: set<int>)
    requires DistinctRules(rules)
    requires forall i :: 0 <= i < |rules| && rules[i].Active() && rules[i].kind == kind ==> rules[i].id in ids
    ensures CountActive(rules, kind) <= |ids|
  {
    if rules != [] {
      var n := |rules| - 1;
      CountIsBounded(rules[..n], kind, if rules[n].Active() && rules[n].kind == kind then ids - {rules[n].id} else ids);
    }
  }

  lemma BucketsFit(s: Books, project: string, rules: seq<Rule>, kind: string)
    requires Filed(s) && WithinCaps(s, project) && RulesAnswer(s.rules, project, rules)
    ensures CountActive(rules, kind) <= DEFAULT_DETECTOR.MaxPerKind()
  {
    SnapshotRules(s, project, rules);
    assert forall i :: 0 <= i < |rules| ==> rules[i] in rules;
    CountIsBounded(rules, kind, ActiveOfKind(s, project, kind));
  }

  /** `p` is an open contradiction of the store as it stands. */
  ghost predicate OpenPair(l: Language, s: Books, project: string, p: Pair) {
    && p.a.id in s.rules && p.b.id in s.rules && s.rules[p.a.id] == p.a && s.rules[p.b.id] == p.b
    && Open(l, s, project, p.a.id, p.b.id)
  }

  /** The pairs a pass settles are the open contradictions, each once, in one order or the other. */
  lemma NewPairsAreOpen(l: Language, s: Books, project: string, c: Choice)
    requires Filed(s) && WithinCaps(s, project) && ValidPass(s, project, c)
    ensures forall p :: p in NewPairs(l, c) ==> OpenPair(l, s, project, p)
    ensures DistinctKeys(NewPairs(l, c))
  {
    var ps := Pairs(l, DEFAULT_DETECTOR, c.rules, c.kinds);
    SnapshotRules(s, project, c.rules);
    DetectedContradict(l, DEFAULT_DETECTOR, c.rules, c.kinds);
    UntrackedMembers(ps, Tracked(c.existing));
    forall p | p in NewPairs(l, c) ensures OpenPair(l, s, project, p) {
      TrackedAreWaiting(s, c.existing, p.a.id, p.b.id);
    }
  }

  lemma OpenPairsAreNew(l: Language, s: Books, project: string, c: Choice, a: int, b: int)
    requires Filed(s) && WithinCaps(s, project) && ValidPass(s, project, c) && SymmetricDice(l)
    requires Open(l, s, project, a, b)
    ensures Pair(s.rules[a], s.rules[b]) in NewPairs(l, c) || Pair(s.rules[b], s.rules[a]) in NewPairs(l, c)
  {
    var p := Pair(s.rules[a], s.rules[b]);
    SnapshotRules(s, project, c.rules);
    SnapshotIsComplete(s, project, c.rules, a);
    SnapshotIsComplete(s, project, c.rules, b);
    BucketsFit(s, project, c.rules, p.a.kind);
    ContradictionsAreDetected(l, DEFAULT_DETECTOR, c.rules, c.kinds, p.a, p.b);
    TrackedAreWaiting(s, c.existing, a, b);
    UntrackedMembers(Pairs(l, DEFAULT_DETECTOR, c.rules, c.kinds), Tracked(c.existing));
  }

  // ---------------------------------------------------------------- one pass, in closed form

  /** A more trusted rule stands in open contradiction to `k`. */
  ghost predicate Beaten(l: Language, s: Books, project: string, k: int) {
    exists j :: Open(l, s, project, j, k) && s.rules[j].trust > s.rules[k].trust
  }

  lemma OpenIsSymmetric(l: Language, s: Books, project: string, a: int, b: int)
    requires SymmetricDice(l) && Open(l, s, project, a, b)
    ensures Open(l, s, project, b, a)
  {
    assert PairKey(a, b) == PairKey(b, a);
  }

  lemma LoserIsBeaten(l: Language, s: Books, project: string, c: Choice, p: Pair)
    requires Filed(s) && WithinCaps(s, project) && ValidPass(s, project, c) && SymmetricDice(l)
    requires p in NewPairs(l, c) && Unequal(p)
    ensures Beaten(l, s, project, Loser(p).id)
  {
    NewPairsAreOpen(l, s, project, c);
    assert OpenPair(l, s, project, p);
    OpenIsSymmetric(l, s, project, p.a.id, p.b.id);
    assert Open(l, s, project, Winner(p).id, Loser(p).id);
  }

  lemma BeatenLoses(l: Language, s: Books, project: string, c: Choice, j: int, k: int)
    requires Filed(s) && WithinCaps(s, project) && ValidPass(s, project, c) && SymmetricDice(l)
    requires Open(l, s, project, j, k) && s.rules[j].trust > s.rules[k].trust
    ensures Loses(NewPairs(l, c), k) && DrawsEdge(NewPairs(l, c), Edge(j, k, ConflictsWith))
  {
    OpenPairsAreNew(l, s, project, c, j, k);
    var p := if Pair(s.rules[j], s.rules[k]) in NewPairs(l, c) then Pair(s.rules[j], s.rules[k])
      else Pair(s.rules[k], s.rules[j]);
    assert p in NewPairs(l, c) && Unequal(p) && Loser(p).id == k && ConflictEdge(p) == Edge(j, k, ConflictsWith);
  }

  lemma LosersAreBeaten(l: Language, s: Books, project: string, c: Choice, k: int)
    requires Filed(s) && WithinCaps(s, project) && ValidPass(s, project, c) && SymmetricDice(l)
    ensures Loses(NewPairs(l, c), k) <==> Beaten(l, s, project, k)
  {
    if Loses(NewPairs(l, c), k) {
      var p :| p in NewPairs(l, c) && Unequal(p) && Loser(p).id == k;
      LoserIsBeaten(l, s, project, c, p);
    }
    if Beaten(l, s, project, k) {
      var j :| Open(l, s, project, j, k) && s.rules[j].trust > s.rules[k].trust;
      BeatenLoses(l, s, project, c, j, k);
    }
  }

  /** One pass retires exactly the less trusted sides of the open contradictions, and changes rules in no other way. */
  lemma PassRetiresTheBeaten(l: Language, s: Books, project: string, c: Choice)
    requires Filed(s) && WithinCaps(s, project) && ValidPass(s, project, c) && SymmetricDice(l)
    ensures var t := AfterPass(l, s, c);
      && t.rules.Keys == s.rules.Keys
      && forall k :: k in s.rules ==>
           && SameRule(s.rules[k], t.rules[k])
           && (t.rules[k].Active() <==> s.rules[k].Active() && !Beaten(l, s, project, k))
  {
    SettleRetires(s, NewPairs(l, c), c.supply, c.clock);
    forall k ensures Loses(NewPairs(l, c), k) <==> Beaten(l, s, project, k) { LosersAreBeaten(l, s, project, c, k); }
  }

  ghost function OpenKeys(l: Language, s: Books, project: string): set<(int, int)> {
    set a, b | a in s.rules && b in s.rules && a < b && Open(l, s, project, a, b) :: (a, b)
  }

  ghost function KeysOf(ps: seq<Pair>): set<(int, int)> {
    set i | 0 <= i < |ps| :: KeyOf(ps[i])
  }

  lemma {:induction false} KeysSize(ps: seq<Pair>)
    requires DistinctKeys(ps)
    ensures |KeysOf(ps)| == |ps|
  {
    if ps != [] {
      var n := |ps| - 1;
      KeysSize(ps[..n]);
      assert KeyOf(ps[n]) !in KeysOf(ps[..n]);
      assert KeysOf(ps) == KeysOf(ps[..n]) + {KeyOf(ps[n])};
    }
  }

  /** The number of pairs detected is the number of open contradictions. */
  lemma DetectedCount(l: Language, s: Books, project: string, c: Choice)
    requires Filed(s) && WithinCaps(s, project) && ValidPass(s, project, c) && SymmetricDice(l)
    ensures |NewPairs(l, c)| == |OpenKeys(l, s, project)|
  {
    var ps := NewPairs(l, c);
    NewPairsAreOpen(l, s, project, c);
    KeysSize(ps);
    forall key | key in KeysOf(ps) ensures key in OpenKeys(l, s, project) {
      var i :| 0 <= i < |ps| && KeyOf(ps[i]) == key;
      assert OpenPair(l, s, project, ps[i]);
      OpenIsSymmetric(l, s, project, ps[i].a.id, ps[i].b.id);
    }
    forall key | key in OpenKeys(l, s, project) ensures key in KeysOf(ps) {
      OpenPairsAreNew(l, s, project, c, key.0, key.1);
    }
    assert KeysOf(ps) == OpenKeys(l, s, project);
  }

  /** An edge a pass draws: from the more trusted to the less trusted side of an open contradiction. */
  ghost predicate Decides(l: Language, s: Books, project: string, e: Edge) {
    e.kind == ConflictsWith && Open(l, s, project, e.from, e.to) && s.rules[e.from].trust > s.rules[e.to].trust
  }

  lemma DrawnEdgesDecide(l: Language, s: Books, project: string, c: Choice, e: Edge)
    requires Filed(s) && WithinCaps(s, project) && ValidPass(s, project, c) && SymmetricDice(l)
    ensures DrawsEdge(NewPairs(l, c), e) <==> Decides(l, s, project, e)
  {
    if DrawsEdge(NewPairs(l, c), e) {
      var p :| p in NewPairs(l, c) && Unequal(p) && ConflictEdge(p) == e;
      NewPairsAreOpen(l, s, project, c);
      assert OpenPair(l, s, project, p);
      OpenIsSymmetric(l, s, project, p.a.id, p.b.id);
    }
    if Decides(l, s, project, e) {
      BeatenLoses(l, s, project, c, e.from, e.to);
    }
  }

  /** What a record says, apart from its identifier, its instant and which side it names first. */
  function Verdict(c: Conflict): ((int, int), ConflictStatus, Option<int>) {
    (PairKey(c.a, c.b), c.status, c.resolution)
  }

  /** What a pass has to say about the rules `a` and `b`. */
  function Ruling(s: Books, a: int, b: int): ((int, int), ConflictStatus, Option<int>)
    requires a in s.rules && b in s.rules
  {
    if s.rules[a].trust == s.rules[b].trust then (PairKey(a, b), Pending, None)
    else (PairKey(a, b), AutoResolved, Some(if s.rules[a].trust > s.rules[b].trust then a else b))
  }

  /** The verdicts of the records `t` has beyond those of `s`. */
  ghost function NewVerdicts(s: Books, t: Books): set<((int, int), ConflictStatus, Option<int>)> {
    set id | id in t.conflicts && id !in s.conflicts :: Verdict(t.conflicts[id])
  }

  ghost function OpenRulings(l: Language, s: Books, project: string): set<((int, int), ConflictStatus, Option<int>)> {
    set a, b | a in s.rules && b in s.rules && Open(l, s, project, a, b) :: Ruling(s, a, b)
  }

  lemma RecordedIsRuling(l: Language, s: Books, project: string, p: Pair, id: int, now: int)
    requires OpenPair(l, s, project, p)
    ensures Verdict(Settled(p, id, now)) == Ruling(s, p.a.id, p.b.id) == Ruling(s, p.b.id, p.a.id)
    ensures Ruling(s, p.a.id, p.b.id) in OpenRulings(l, s, project)
  {}

  lemma NewRecordIsRuling(l: Language, s: Books, project: string, c: Choice, id: int)
    requires Filed(s) && WithinCaps(s, project) && ValidPass(s, project, c)
    requires id in AfterPass(l, s, c).conflicts && id !in s.conflicts
    ensures Verdict(AfterPass(l, s, c).conflicts[id]) in OpenRulings(l, s, project)
  {
    var ps := NewPairs(l, c);
    NewPairsAreOpen(l, s, project, c);
    SettleRecords(s, ps, c.supply, c.clock);
    var i :| 0 <= i < |ps| && c.supply(i) == id;
    assert ps[i] in ps;
    RecordedIsRuling(l, s, project, ps[i], id, c.clock(i));
  }

  lemma RulingIsRecorded(l: Language, s: Books, project: string, c: Choice, a: int, b: int)
    requires Filed(s) && WithinCaps(s, project) && ValidPass(s, project, c) && SymmetricDice(l)
    requires Open(l, s, project, a, b)
    ensures Ruling(s, a, b) in NewVerdicts(s, AfterPass(l, s, c))
  {
    var ps, t := NewPairs(l, c), AfterPass(l, s, c);
    OpenPairsAreNew(l, s, project, c, a, b);
    NewPairsAreOpen(l, s, project, c);
    SettleRecords(s, ps, c.supply, c.clock);
    var i :| 0 <= i < |ps| && (ps[i] == Pair(s.rules[a], s.rules[b]) || ps[i] == Pair(s.rules[b], s.rules[a]));
    assert ps[i] in ps;
    RecordedIsRuling(l, s, project, ps[i], c.supply(i), c.clock(i));
    assert c.supply(i) in t.conflicts && c.supply(i) !in s.conflicts;
  }

  /** A pass records a ruling on each open contradiction, and nothing else. */
  lemma RecordsAreRulings(l: Language, s: Books, project: string, c: Choice)
    requires Filed(s) && WithinCaps(s, project) && ValidPass(s, project, c) && SymmetricDice(l)
    ensures NewVerdicts(s, AfterPass(l, s, c)) == OpenRulings(l, s, project)
  {
    var t := AfterPass(l, s, c);
    forall id | id in t.conflicts && id !in s.conflicts ensures Verdict(t.conflicts[id]) in OpenRulings(l, s, project) {
      NewRecordIsRuling(l, s, project, c, id);
    }
    forall a, b | Open(l, s, project, a, b) ensures Ruling(s, a, b) in NewVerdicts(s, t) {
      RulingIsRecorded(l, s, project, c, a, b);
    }
  }

  /** Everything a pass leaves that does not hang on the identifiers and instants it is given. */
  ghost predicate SameOutcome(s: Books, t: Books, t': Books) {
    && t.rules.Keys == t'.rules.Keys
    && (forall k :: k in t.rules ==>
      SameRule(t.rules[k], t'.rules[k]) && (t.rules[k].Active() <==> t'.rules[k].Active()))
    && (forall e :: e in t.edges <==> e in t'.edges)
    && (forall id :: id in s.conflicts ==>
      id in t.conflicts && id in t'.conflicts && t.conflicts[id] == t'.conflicts[id] == s.conflicts[id])
    && NewVerdicts(s, t) == NewVerdicts(s, t')
  }

  /**
   The order in which buckets are visited, and how searches break ties, changes neither what is
   retired, nor the edges drawn, nor what is recorded, nor how much is found.
   */
  lemma PassIsConfluent(l: Language, s: Books, project: string, c: Choice, c': Choice)
    requires Filed(s) && WithinCaps(s, project) && SymmetricDice(l)
    requires ValidPass(s, project, c) && ValidPass(s, project, c')
    ensures |NewPairs(l, c)| == |NewPairs(l, c')|
    ensures SameOutcome(s, AfterPass(l, s, c), AfterPass(l, s, c'))
  {
    DetectedCount(l, s, project, c);
    DetectedCount(l, s, project, c');
    PassInClosedForm(l, s, project, c);
    PassInClosedForm(l, s, project, c');
  }

  /** One pass, described on the store it starts from. */
  lemma PassInClosedForm(l: Language, s: Books, project: string, c: Choice)
    requires Filed(s) && WithinCaps(s, project) && ValidPass(s, project, c) && SymmetricDice(l)
    ensures var t := AfterPass(l, s, c);
      && t.rules.Keys == s.rules.Keys
      && (forall k :: k in s.rules ==>
            SameRule(s.rules[k], t.rules[k]) &&
              (t.rules[k].Active() <==> s.rules[k].Active() && !Beaten(l, s, project, k)))
      && (forall e :: e in t.edges <==> e in s.edges || Decides(l, s, project, e))
      && (forall id :: id in s.conflicts ==> id in t.conflicts && t.conflicts[id] == s.conflicts[id])
      && NewVerdicts(s, t) == OpenRulings(l, s, project)
  {
    PassRetiresTheBeaten(l, s, project, c);
    SettleDraws(s, NewPairs(l, c), c.supply, c.clock);
    forall e ensures DrawsEdge(NewPairs(l, c), e) <==> Decides(l, s, project, e) {
      DrawnEdgesDecide(l, s, project, c, e);
    }
    SettleRecords(s, NewPairs(l, c), c.supply, c.clock);
    RecordsAreRulings(l, s, project, c);
  }

  lemma WaitingIsKept(l: Language, s: Books, project: string, c: Choice, a: int, b: int)
    requires ValidPass(s, project, c) && Waiting(s, a, b)
    ensures Waiting(AfterPass(l, s, c), a, b)
  {
    SettleRecords(s, NewPairs(l, c), c.supply, c.clock);
    var id :| id in s.conflicts && s.conflicts[id].status == Pending &&
      PairKey(s.conflicts[id].a, s.conflicts[id].b) == PairKey(a, b);
    assert AfterPass(l, s, c).conflicts[id] == s.conflicts[id];
  }

  /** A settled pair of equals waits from then on. */
  lemma EqualPairWaits(l: Language, s: Books, project: string, c: Choice, p: Pair)
    requires ValidPass(s, project, c) && p in NewPairs(l, c) && !Unequal(p)
    ensures Waiting(AfterPass(l, s, c), p.a.id, p.b.id)
  {
    var ps := NewPairs(l, c);
    SettleRecords(s, ps, c.supply, c.clock);
    var i :| 0 <= i < |ps| && ps[i] == p;
    assert AfterPass(l, s, c).conflicts[c.supply(i)] == Noted(p, c.supply(i), c.clock(i));
  }

  /** An open contradiction between equals is recorded as pending. */
  lemma TieWaits(l: Language, s: Books, project: string, c: Choice, a: int, b: int)
    requires Filed(s) && WithinCaps(s, project) && ValidPass(s, project, c) && SymmetricDice(l)
    requires Open(l, s, project, a, b) && s.rules[a].trust == s.rules[b].trust
    ensures Waiting(AfterPass(l, s, c), a, b)
  {
    var p, q := Pair(s.rules[a], s.rules[b]), Pair(s.rules[b], s.rules[a]);
    OpenPairsAreNew(l, s, project, c, a, b);
    assert PairKey(a, b) == PairKey(b, a);
    if p in NewPairs(l, c) { EqualPairWaits(l, s, project, c, p); } else { EqualPairWaits(l, s, project, c, q); }
  }

  /** Trust decides, or a record waits. */
  lemma ContradictionIsSettled(l: Language, s: Books, project: string, c: Choice, a: int, b: int)
    requires Filed(s) && WithinCaps(s, project) && ValidPass(s, project, c) && SymmetricDice(l)
    requires InConflict(l, s, project, a, b)
    ensures var t := AfterPass(l, s, c);
      a in t.rules && b in t.rules && (!t.rules[a].Active() || !t.rules[b].Active() || Waiting(t, a, b))
  {
    PassRetiresTheBeaten(l, s, project, c);
    if Waiting(s, a, b) {
      WaitingIsKept(l, s, project, c, a, b);
    } else if s.rules[a].trust == s.rules[b].trust {
      TieWaits(l, s, project, c, a, b);
    } else {
      OpenIsSymmetric(l, s, project, a, b);
      assert Beaten(l, s, project, a) || Beaten(l, s, project, b);
    }
  }

  /** After a pass no contradiction is open: one side is retired, or the pair waits for a human. */
  lemma NothingStaysOpen(l: Language, s: Books, project: string, c: Choice, a: int, b: int)
    requires Filed(s) && WithinCaps(s, project) && ValidPass(s, project, c) && SymmetricDice(l)
    ensures !Open(l, AfterPass(l, s, c), project, a, b)
  {
    var t := AfterPass(l, s, c);
    PassRetiresTheBeaten(l, s, project, c);
    if Open(l, t, project, a, b) {
      assert SameRule(s.rules[a], t.rules[a]) && SameRule(s.rules[b], t.rules[b]);
      ContradictionIsSettled(l, s, project, c, a, b);
    }
  }

  lemma PassKeepsFiled(l: Language, s: Books, project: string, c: Choice)
    requires Filed(s) && ValidPass(s, project, c)
    ensures Filed(AfterPass(l, s, c))
  {
    var ps := NewPairs(l, c);
    SettleRetires(s, ps, c.supply, c.clock);
    SettleRecords(s, ps, c.supply, c.clock);
  }

  /** The fixpoint: the next pass detects nothing and leaves everything as it is. */
  lemma SecondPassDetectsNothing(l: Language, s: Books, project: string, c: Choice, c': Choice)
    requires Filed(s) && WithinCaps(s, project) && ValidPass(s, project, c) && SymmetricDice(l)
    requires |AfterPass(l, s, c).conflicts| <= RECORD_LIMIT && ValidPass(AfterPass(l, s, c), project, c')
    ensures NewPairs(l, c') == [] && AfterPass(l, AfterPass(l, s, c), c') == AfterPass(l, s, c)
  {
    var t := AfterPass(l, s, c);
    PassKeepsFiled(l, s, project, c);
    CapsAreKept(l, s, project, c);
    NewPairsAreOpen(l, t, project, c');
    if NewPairs(l, c') != [] {
      var p := NewPairs(l, c')[0];
      assert OpenPair(l, t, project, p);
      NothingStaysOpen(l, s, project, c, p.a.id, p.b.id);
    }
  }

  lemma CapsAreKept(l: Language, s: Books, project: string, c: Choice)
    requires Filed(s) && WithinCaps(s, project) && ValidPass(s, project, c) && SymmetricDice(l)
    requires |AfterPass(l, s, c).conflicts| <= RECORD_LIMIT
    ensures WithinCaps(AfterPass(l, s, c), project)
  {
    var t := AfterPass(l, s, c);
    PassRetiresTheBeaten(l, s, project, c);
    forall k | k in s.rules
      ensures InGroup(project, t.rules[k]) == InGroup(project, s.rules[k]) && t.rules[k].kind == s.rules[k].kind
      ensures t.rules[k].Active() ==> s.rules[k].Active()
    {
      assert SameRule(s.rules[k], t.rules[k]);
    }
    assert GroupIDs(t, project) == GroupIDs(s, project);
    forall kind ensures |ActiveOfKind(t, project, kind)| <= DEFAULT_DETECTOR.MaxPerKind() {
      forall k | k in ActiveOfKind(t, project, kind) ensures k in ActiveOfKind(s, project, kind) {
        assert k in t.rules.Keys;
      }
      SubsetSize(ActiveOfKind(t, project, kind), ActiveOfKind(s, project, kind));
    }
  }
}
