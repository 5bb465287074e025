/**
 The explicit update signal, repeated: how far its capped peer search reaches, when a second
 signal finds nothing, and why repeated signals come to an end.
 */
module SignalFixpoint {
  import opened SortSlice
  import opened MemoryStore
  import opened UpdateTracker

  /** The active memories the signal's peer search ranges over. */
  ghost function PeerPool(v: View, project: string): set<int> {
    set k | k in v.mems && Matches(PeerQuery(project), v.mems[k])
  }

  /** A pool within the cap is answered completely. */
  lemma SmallPoolIsAnswered(cosine: Cosine, v: View, id: int, peers: seq<Memory>, k: int)
    requires Keyed(v.mems) && ValidPeers(cosine, v, id, peers)
    requires |PeerPool(v, v.mems[id].project)| <= UPDATE_PEER_POOL
    requires k in PeerPool(v, v.mems[id].project)
    ensures v.mems[k] in peers
  {
    var pool := PeerPool(v, v.mems[id].project);
    AnswerIDs(cosine, v, PeerQuery(v.mems[id].project), peers);
    if v.mems[k] !in peers {
      var ids := seq(|peers|, i requires 0 <= i < |peers| => peers[i].id);
      DistinctSize(ids);
      assert Elements(ids) <= pool - {k};
      SubsetSize(Elements(ids), pool - {k});
      assert false;
    }
  }

  // ---------------------------------------------------------------- how far the search reaches

  /** Members of a pool whose event is newer than that of `k`. */
  ghost function Newer(v: View, pool: set<int>, k: int): set<int>
    requires k in v.mems
  {
    set j | j in pool && j in v.mems && v.mems[j].EffectiveOccurredAt() > v.mems[k].EffectiveOccurredAt()
  }

  /** Other members of a pool whose event has the same time as that of `k`. */
  ghost function Level(v: View, pool: set<int>, k: int): set<int>
    requires k in v.mems
  {
    set j | j in pool && j in v.mems && j != k && v.mems[j].EffectiveOccurredAt() == v.mems[k].EffectiveOccurredAt()
  }

  /** The cap does not cut through the memories that share the time of `k` on its account. */
  ghost predicate Decided(v: View, pool: set<int>, k: int)
    requires k in v.mems
  {
    || |Newer(v, pool, k)| + |Level(v, pool, k)| < 500
    || |Newer(v, pool, k)| >= 500
  }

  function IDsOf(mems: seq<Memory>): (ids: seq<int>)
    ensures |ids| == |mems| && forall i :: 0 <= i < |ids| ==> ids[i] == mems[i].id
  {
    seq(|mems|, i requires 0 <= i < |mems| => mems[i].id)
  }

  /** Newer members are reported before older ones, so a reported memory has fewer than 500 newer ones. */
  lemma ReportedHasFewNewer(cosine: Cosine, v: View, id: int, peers: seq<Memory>, k: int)
    requires Keyed(v.mems) && ValidPeers(cosine, v, id, peers) && k in v.mems && v.mems[k] in peers
    ensures |Newer(v, PeerPool(v, v.mems[id].project), k)| < UPDATE_PEER_POOL
  {
    var q, ids := PeerQuery(v.mems[id].project), IDsOf(peers);
    var newer := Newer(v, PeerPool(v, v.mems[id].project), k);
    AnswerIDs(cosine, v, q, peers);
    DistinctSize(ids);
    forall j | j in newer ensures j in Elements(ids) - {k} {
      RankIsTime(cosine, v.mems[id].project, v.mems[j]);
      RankIsTime(cosine, v.mems[id].project, v.mems[k]);
      assert v.mems[j] in peers;
      var i :| 0 <= i < |peers| && peers[i] == v.mems[j];
      assert ids[i] == j;
    }
    var i :| 0 <= i < |peers| && peers[i] == v.mems[k];
    assert ids[i] == k;
    SubsetSize(newer, Elements(ids) - {k});
  }

  lemma RankIsTime(cosine: Cosine, project: string, m: Memory)
    ensures Rank(cosine, PeerQuery(project))(m) == m.EffectiveOccurredAt() as real
  {
    assert PeerQuery(project).embedding == [] && PeerQuery(project).byTime;
  }

  /** A memory that is not reported has at least 500 others that are not older. */
  lemma UnreportedHasManyNotOlder(cosine: Cosine, v: View, id: int, peers: seq<Memory>, k: int)
    requires Keyed(v.mems) && ValidPeers(cosine, v, id, peers)
    requires k in PeerPool(v, v.mems[id].project) && v.mems[k] !in peers
    ensures var pool := PeerPool(v, v.mems[id].project);
      |Newer(v, pool, k)| + |Level(v, pool, k)| >= UPDATE_PEER_POOL
  {
    var q, ids, pool := PeerQuery(v.mems[id].project), IDsOf(peers), PeerPool(v, v.mems[id].project);
    var newer, level := Newer(v, pool, k), Level(v, pool, k);
    AnswerIDs(cosine, v, q, peers);
    DistinctSize(ids);
    RankIsTime(cosine, v.mems[id].project, v.mems[k]);
    forall i | 0 <= i < |ids| ensures ids[i] in newer + level {
      assert peers[i] in peers && peers[i] == v.mems[ids[i]];
      RankIsTime(cosine, v.mems[id].project, peers[i]);
    }
    assert |peers| == UPDATE_PEER_POOL;
    SubsetSize(Elements(ids), newer + level);
    assert newer !! level;
  }

  /** The search reports exactly the memories with fewer than 500 newer ones, unless the cap cuts through a tie. */
  lemma ReportedIffFewNewer(cosine: Cosine, v: View, id: int, peers: seq<Memory>, k: int)
    requires Keyed(v.mems) && ValidPeers(cosine, v, id, peers)
    requires k in PeerPool(v, v.mems[id].project) && Decided(v, PeerPool(v, v.mems[id].project), k)
    ensures v.mems[k] in peers <==> |Newer(v, PeerPool(v, v.mems[id].project), k)| < 500
  {
    if v.mems[k] in peers {
      ReportedHasFewNewer(cosine, v, id, peers, k);
    } else {
      UnreportedHasManyNotOlder(cosine, v, id, peers, k);
    }
  }

  // ---------------------------------------------------------------- a tie that is cut

  /** A set of memories as a list, newest first. */
  ghost predicate Lists(v: View, ids: set<int>, list: seq<Memory>) {
    && Distinct(list) && Descending(list, ByTime()) && |list| == |ids|
    && (forall m :: m in list <==> m.id in ids && m.id in v.mems && v.mems[m.id] == m)
  }

  ghost function AnElement<T>(s: set<T>): (x: T)
    requires s != {}
    ensures x in s
  {
    var y :| y in s; y
  }

  lemma {:induction false} NewestOf(v: View, ids: set<int>) returns (k: int)
    requires ids != {} && ids <= v.mems.Keys
    ensures k in ids && forall j :: j in ids ==> v.mems[j].EffectiveOccurredAt() <= v.mems[k].EffectiveOccurredAt()
  {
    k := AnElement(ids);
    if ids != {k} {
      var other := NewestOf(v, ids - {k});
      if v.mems[other].EffectiveOccurredAt() > v.mems[k].EffectiveOccurredAt() { k := other; }
    }
  }

  lemma {:induction false} CanBeListed(v: View, ids: set<int>) returns (list: seq<Memory>)
    requires Keyed(v.mems) && ids <= v.mems.Keys
    ensures Lists(v, ids, list)
  {
    if ids == {} {
      list := [];
    } else {
      var k := NewestOf(v, ids);
      var rest := CanBeListed(v, ids - {k});
      list := [v.mems[k]] + rest;
    }
  }

  lemma {:induction false} SubsetOfSize<T>(s: set<T>, n: nat) returns (t: set<T>)
    requires n <= |s|
    ensures t <= s && |t| == n
  {
    if n == 0 {
      t := {};
    } else {
      var x :| x in s;
      t := SubsetOfSize(s - {x}, n - 1);
      t := t + {x};
    }
  }

  /** Any 500 memories that leave out nothing newer are an answer. */
  lemma NewestAreAnAnswer(cosine: Cosine, v: View, id: int, ids: set<int>, k: int) returns (peers: seq<Memory>)
    requires Keyed(v.mems) && id in v.mems && k in PeerPool(v, v.mems[id].project)
    requires var pool := PeerPool(v, v.mems[id].project);
      Newer(v, pool, k) <= ids <= Newer(v, pool, k) + Level(v, pool, k) + {k} && |ids| == UPDATE_PEER_POOL
    ensures ValidPeers(cosine, v, id, peers) && forall j :: j in v.mems ==> (v.mems[j] in peers <==> j in ids)
  {
    var pool := PeerPool(v, v.mems[id].project);
    assert ids <= pool <= v.mems.Keys;
    peers := CanBeListed(v, ids);
    forall j | j in pool
      ensures Rank(cosine, PeerQuery(v.mems[id].project))(v.mems[j]) == v.mems[j].EffectiveOccurredAt() as real
    {
      RankIsTime(cosine, v.mems[id].project, v.mems[j]);
    }
    assert TopRanked(cosine, v.mems, PeerQuery(v.mems[id].project), peers);
  }

  /** A set filled up with members of another one to a size between its own and that of both. */
  lemma FilledUp<T>(core: set<T>, extra: set<T>, n: nat) returns (ids: set<T>)
    requires core !! extra && |core| <= n <= |core| + |extra|
    ensures core <= ids <= core + extra && |ids| == n
  {
    var some := SubsetOfSize(extra, n - |core|);
    ids := core + some;
    assert core !! some;
  }

  /** Where the cap cuts through the tie of `k`, the search may report `k` and may leave it out. */
  lemma CutTieIsOpen(cosine: Cosine, v: View, id: int, k: int) returns (with: seq<Memory>, without: seq<Memory>)
    requires Keyed(v.mems) && id in v.mems && k in PeerPool(v, v.mems[id].project)
    requires !Decided(v, PeerPool(v, v.mems[id].project), k)
    ensures ValidPeers(cosine, v, id, with) && v.mems[k] in with
    ensures ValidPeers(cosine, v, id, without) && v.mems[k] !in without
  {
    var pool := PeerPool(v, v.mems[id].project);
    var newer, level := Newer(v, pool, k), Level(v, pool, k);
    assert |newer + {k}| == |newer| + 1;
    var ids := FilledUp(newer + {k}, level, UPDATE_PEER_POOL);
    with := NewestAreAnAnswer(cosine, v, id, ids, k);
    ids := FilledUp(newer, level, UPDATE_PEER_POOL);
    without := NewestAreAnAnswer(cosine, v, id, ids, k);
  }

  /** Within the cap no tie is cut. */
  lemma SmallPoolIsDecided(v: View, pool: set<int>, k: int)
    requires k in v.mems && k in pool && |pool| <= UPDATE_PEER_POOL
    ensures |Newer(v, pool, k)| + |Level(v, pool, k)| < UPDATE_PEER_POOL
  {
    assert Newer(v, pool, k) !! Level(v, pool, k);
    SubsetSize(Newer(v, pool, k) + Level(v, pool, k), pool - {k});
  }

  /** A memory of the pool that the signalled one covers. */
  ghost predicate CoveredBy(l: Language, v: View, id: int, k: int)
    requires id in v.mems
  {
    k in PeerPool(v, v.mems[id].project) && Covers(l, DEFAULT_TRACKER, StatementOf(v.mems[id]), v.mems[k])
  }

  /** A covered memory among the 500 newest. */
  ghost predicate Reached(l: Language, v: View, id: int, k: int)
    requires id in v.mems
  {
    CoveredBy(l, v, id, k) && |Newer(v, PeerPool(v, v.mems[id].project), k)| < 500
  }

  /** A signal finds the covered memories its search reports. */
  lemma FoundIffReported(cosine: Cosine, l: Language, v: View, id: int, peers: seq<Memory>, k: int)
    requires Keyed(v.mems) && ValidPeers(cosine, v, id, peers)
    ensures k in OldIDs(Found(l, v, id, peers)) <==> CoveredBy(l, v, id, k) && v.mems[k] in peers
  {
    AnswerIDs(cosine, v, PeerQuery(v.mems[id].project), peers);
    DetectedAreCovered(l, DEFAULT_TRACKER, StatementOf(v.mems[id]), peers);
  }

  /** What a signal finds can be read off the store beforehand. */
  lemma FoundIffReached(cosine: Cosine, l: Language, v: View, id: int, peers: seq<Memory>, k: int)
    requires Keyed(v.mems) && ValidPeers(cosine, v, id, peers)
    requires CoveredBy(l, v, id, k) ==> Decided(v, PeerPool(v, v.mems[id].project), k)
    ensures k in OldIDs(Found(l, v, id, peers)) <==> Reached(l, v, id, k)
  {
    FoundIffReported(cosine, l, v, id, peers, k);
    if CoveredBy(l, v, id, k) { ReportedIffFewNewer(cosine, v, id, peers, k); }
  }

  lemma FoundNothingIff(cosine: Cosine, l: Language, v: View, id: int, peers: seq<Memory>)
    requires Keyed(v.mems) && ValidPeers(cosine, v, id, peers)
    requires forall k :: CoveredBy(l, v, id, k) ==> Decided(v, PeerPool(v, v.mems[id].project), k)
    ensures Found(l, v, id, peers) == [] <==> forall k :: !Reached(l, v, id, k)
  {
    var ids := OldIDs(Found(l, v, id, peers));
    if ids != [] {
      FoundIffReached(cosine, l, v, id, peers, ids[0]);
    }
    forall k | Reached(l, v, id, k) ensures ids != [] { FoundIffReached(cosine, l, v, id, peers, k); }
  }

  // ---------------------------------------------------------------- the second signal

  /**
   The fixpoint: when the project has no more active memories than the cap, a second signal on the
   same memory finds nothing and changes nothing, whatever its boost.
   */
  lemma SecondPassFindsNothing(cosine: Cosine, l: Language, v: View, id: int, boost: real, peers: seq<Memory>, now: int,
                               boost': real, peers': seq<Memory>, now': int)
    requires Keyed(v.mems) && ValidPeers(cosine, v, id, peers)
    requires |PeerPool(v, v.mems[id].project)| <= 500
    requires id in v.mems && ValidPeers(cosine, Pass(l, v, id, boost, peers, now), id, peers')
    ensures Found(l, Pass(l, v, id, boost, peers, now), id, peers') == []
    ensures Pass(l, Pass(l, v, id, boost, peers, now), id, boost', peers', now') == Pass(l, v, id, boost, peers, now)
  {
    var w := Pass(l, v, id, boost, peers, now);
    PassEffect(cosine, l, v, id, boost, peers, now);
    FoundAreOthers(cosine, l, w, id, peers');
    DetectedAreCovered(l, DEFAULT_TRACKER, StatementOf(v.mems[id]), peers);
    AnswerIDs(cosine, w, PeerQuery(w.mems[id].project), peers');
    var again := OldIDs(Found(l, w, id, peers'));
    if again != [] {
      var k := again[0];
      DetectedAreCovered(l, DEFAULT_TRACKER, StatementOf(w.mems[id]), peers');
      assert v.mems[k] == w.mems[k];
      SmallPoolIsAnswered(cosine, v, id, peers, k);
      assert false;
    }
  }

  /** The pool a signal leaves, read off the store before it. */
  ghost function PoolAfter(l: Language, v: View, id: int): set<int>
    requires id in v.mems
  {
    (set k | k in PeerPool(v, v.mems[id].project) && !Reached(l, v, id, k))
    + if v.mems[id].Active() && exists k :: Reached(l, v, id, k) then {id} else {}
  }

  /** A signal that finds something leaves its own memory with a weight that is not negative. */
  lemma CarrierWeighs(l: Language, v: View, id: int, boost: real, peers: seq<Memory>, now: int)
    requires Keyed(v.mems) && id in v.mems && Found(l, v, id, peers) != []
    ensures id in Pass(l, v, id, boost, peers, now).mems && Pass(l, v, id, boost, peers, now).mems[id].weight >= 0.0
  {
    assert |OldIDs(Found(l, v, id, peers))| > 0;
  }

  /** What is found leaves the pool, and the signalled memory may join it. */
  lemma PoolMembersAfter(cosine: Cosine, l: Language, v: View, id: int, boost: real, peers: seq<Memory>, now: int)
    requires Keyed(v.mems) && ValidPeers(cosine, v, id, peers)
    ensures var ids, project := OldIDs(Found(l, v, id, peers)), v.mems[id].project;
      forall k :: k in PeerPool(Pass(l, v, id, boost, peers, now), project) <==>
        (k in PeerPool(v, project) && k !in ids) || (k == id && v.mems[id].Active() && ids != [])
  {
    PassEffect(cosine, l, v, id, boost, peers, now);
    FoundAreOthers(cosine, l, v, id, peers);
    if OldIDs(Found(l, v, id, peers)) == [] {
      assert Pass(l, v, id, boost, peers, now) == v;
    } else {
      CarrierWeighs(l, v, id, boost, peers, now);
    }
  }

  lemma PassLeavesPool(cosine: Cosine, l: Language, v: View, id: int, boost: real, peers: seq<Memory>, now: int)
    requires Keyed(v.mems) && ValidPeers(cosine, v, id, peers)
    requires forall k :: CoveredBy(l, v, id, k) ==> Decided(v, PeerPool(v, v.mems[id].project), k)
    ensures PeerPool(Pass(l, v, id, boost, peers, now), v.mems[id].project) == PoolAfter(l, v, id)
  {
    PoolMembersAfter(cosine, l, v, id, boost, peers, now);
    FoundNothingIff(cosine, l, v, id, peers);
    forall k ensures k in OldIDs(Found(l, v, id, peers)) <==> Reached(l, v, id, k) {
      FoundIffReached(cosine, l, v, id, peers, k);
    }
  }

  /** The second signal's view of a memory it covers. */
  lemma CoveredAfterPass(cosine: Cosine, l: Language, v: View, id: int, boost: real, peers: seq<Memory>, now: int,
                         k: int)
    requires Keyed(v.mems) && ValidPeers(cosine, v, id, peers)
    requires forall j :: CoveredBy(l, v, id, j) ==> Decided(v, PeerPool(v, v.mems[id].project), j)
    ensures var w := Pass(l, v, id, boost, peers, now);
      && id in w.mems && (CoveredBy(l, w, id, k) <==> CoveredBy(l, v, id, k) && !Reached(l, v, id, k))
      && (CoveredBy(l, w, id, k) ==>
            && Newer(w, PeerPool(w, v.mems[id].project), k) == Newer(v, PoolAfter(l, v, id), k)
            && Level(w, PeerPool(w, v.mems[id].project), k) == Level(v, PoolAfter(l, v, id), k))
  {
    var w, ids, project := Pass(l, v, id, boost, peers, now), OldIDs(Found(l, v, id, peers)), v.mems[id].project;
    PassEffect(cosine, l, v, id, boost, peers, now);
    PassLeavesPool(cosine, l, v, id, boost, peers, now);
    forall j ensures j in ids <==> Reached(l, v, id, j) { FoundIffReached(cosine, l, v, id, peers, j); }
    forall j | j in v.mems ensures w.mems[j].EffectiveOccurredAt() == v.mems[j].EffectiveOccurredAt() {
      assert j in ids || j == id || w.mems[j] == v.mems[j];
    }
    if CoveredBy(l, w, id, k) {
      assert k in PeerPool(v, project) && w.mems[k] == v.mems[k];
    }
  }

  /** No tie is cut for a covered memory, neither by the first search nor, if it misses it, by the second. */
  ghost predicate NoTieIsCut(l: Language, v: View, id: int)
    requires id in v.mems
  {
    && (forall k :: CoveredBy(l, v, id, k) ==> Decided(v, PeerPool(v, v.mems[id].project), k))
    && (forall k :: CoveredBy(l, v, id, k) && !Reached(l, v, id, k) ==> Decided(v, PoolAfter(l, v, id), k))
  }

  /** Within the cap no tie is cut. */
  lemma SmallPoolCutsNoTie(l: Language, v: View, id: int)
    requires id in v.mems && |PeerPool(v, v.mems[id].project)| <= UPDATE_PEER_POOL
    ensures NoTieIsCut(l, v, id)
  {
    var pool := PeerPool(v, v.mems[id].project);
    forall k | CoveredBy(l, v, id, k) ensures Decided(v, pool, k) && Reached(l, v, id, k) {
      SmallPoolIsDecided(v, pool, k);
    }
  }

  /**
   Exactly when the second signal finds nothing: every memory the signalled one covers has fewer
   than 500 newer ones, so the first signal reaches it, or at least 500 newer ones that remain
   after the first, so the second does not reach it either.
   */
  lemma SecondPassFindsNothingIff(cosine: Cosine, l: Language, v: View, id: int, boost: real, peers: seq<Memory>,
                                  now: int, peers': seq<Memory>)
    requires Keyed(v.mems) && ValidPeers(cosine, v, id, peers)
    requires id in v.mems && ValidPeers(cosine, Pass(l, v, id, boost, peers, now), id, peers')
    requires NoTieIsCut(l, v, id)
    ensures Found(l, Pass(l, v, id, boost, peers, now), id, peers') == [] <==>
      forall k :: CoveredBy(l, v, id, k) ==>
        || |Newer(v, PeerPool(v, v.mems[id].project), k)| < 500
        || |Newer(v, PoolAfter(l, v, id), k)| >= 500
  {
    var w := Pass(l, v, id, boost, peers, now);
    PassEffect(cosine, l, v, id, boost, peers, now);
    forall k ensures (CoveredBy(l, w, id, k) ==> Decided(w, PeerPool(w, w.mems[id].project), k))
        && (Reached(l, w, id, k) <==>
              CoveredBy(l, v, id, k) && !Reached(l, v, id, k) && |Newer(v, PoolAfter(l, v, id), k)| < UPDATE_PEER_POOL)
    {
      CoveredAfterPass(cosine, l, v, id, boost, peers, now, k);
    }
    FoundNothingIff(cosine, l, w, id, peers');
  }

  // ---------------------------------------------------------------- convergence

  /** A pass that finds something leaves strictly fewer active memories. */
  lemma PassRetires(cosine: Cosine, l: Language, v: View, id: int, boost: real, peers: seq<Memory>, now: int)
    requires Keyed(v.mems) && ValidPeers(cosine, v, id, peers)
    ensures var w := Pass(l, v, id, boost, peers, now);
      ActiveIDs(w) == ActiveIDs(v) - Elements(OldIDs(Found(l, v, id, peers)))
      && |ActiveIDs(w)| + |Found(l, v, id, peers)| == |ActiveIDs(v)|
  {
    var w, ids := Pass(l, v, id, boost, peers, now), OldIDs(Found(l, v, id, peers));
    PassEffect(cosine, l, v, id, boost, peers, now);
    FoundAreOthers(cosine, l, v, id, peers);
    DistinctSize(ids);
    var gone := Elements(ids);
    assert ActiveIDs(w) == ActiveIDs(v) - gone;
    assert gone <= ActiveIDs(v);
  }

  datatype Signal = Signal(id: int, boost: real, peers: seq<Memory>, now: int)

  ghost predicate ValidPasses(cosine: Cosine, l: Language, v: View, signals: seq<Signal>)
    decreases |signals|
  {
    signals == [] || (
      var s := signals[0];
      && ValidPeers(cosine, v, s.id, s.peers)
      && ValidPasses(cosine, l, Pass(l, v, s.id, s.boost, s.peers, s.now), signals[1..]))
  }

  ghost function AfterPasses(cosine: Cosine, l: Language, v: View, signals: seq<Signal>): View
    requires ValidPasses(cosine, l, v, signals)
    decreases |signals|
  {
    if signals == [] then v else
    var s := signals[0];
    AfterPasses(cosine, l, Pass(l, v, s.id, s.boost, s.peers, s.now), signals[1..])
  }

  ghost function NonEmptyPasses(cosine: Cosine, l: Language, v: View, signals: seq<Signal>): nat
    requires ValidPasses(cosine, l, v, signals)
    decreases |signals|
  {
    if signals == [] then 0 else
    var s := signals[0];
    NonEmptyPasses(cosine, l, Pass(l, v, s.id, s.boost, s.peers, s.now), signals[1..])
    + if Found(l, v, s.id, s.peers) != [] then 1 else 0
  }

  /** Convergence: with any cap, signals that find something are no more than the memories they retire. */
  lemma {:induction false} PassesConverge(cosine: Cosine, l: Language, v: View, signals: seq<Signal>)
    requires Keyed(v.mems) && ValidPasses(cosine, l, v, signals)
    ensures NonEmptyPasses(cosine, l, v, signals) + |ActiveIDs(AfterPasses(cosine, l, v, signals))| <= |ActiveIDs(v)|
    decreases |signals|
  {
    if signals != [] {
      var s := signals[0];
      PassEffect(cosine, l, v, s.id, s.boost, s.peers, s.now);
      PassRetires(cosine, l, v, s.id, s.boost, s.peers, s.now);
      PassesConverge(cosine, l, Pass(l, v, s.id, s.boost, s.peers, s.now), signals[1..]);
    }
  }
}
