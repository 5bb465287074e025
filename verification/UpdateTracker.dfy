/**
 Update tracking: a newer memory about the same subject covers older ones, which are retired in
 its favour.
 */
module UpdateTracker {
  import opened Wrappers
  import opened MemoryStore
  import opened SortSlice

  datatype Polarity = Prohibitive | Affirmative

  /** How texts are compared: bigram similarity, containment, and the directive a text carries. */
  datatype Language = Language(
    dice: (string, string) -> real, contains: (string, string) -> bool, polarity: string -> Option<Polarity>)

  datatype Tracker = Tracker(minSimilarity: real, restatementSimilarity: real, weightBoost: real)
  {
    function MinSimilarity(): real { if minSimilarity <= 0.0 then 0.25 else minSimilarity }
    function RestatementSimilarity(): real { if restatementSimilarity <= 0.0 then 0.9 else restatementSimilarity }
    function WeightBoost(): real { if weightBoost <= 0.0 then 1.5 else weightBoost }
  }

  const DEFAULT_TRACKER := Tracker(0.25, 0.9, 1.5)

  /** The side of a judgement that carries the newer information. */
  datatype Statement = Statement(id: int, summary: string, entity: string, at: int)

  function StatementOf(m: Memory): Statement {
    Statement(m.id, m.summary, m.entityGroup, m.EffectiveOccurredAt())
  }

  predicate PolarityFlip(l: Language, a: string, b: string) {
    l.polarity(a).Some? && l.polarity(b).Some? && l.polarity(a) != l.polarity(b)
  }

  predicate Restates(l: Language, t: Tracker, a: string, b: string) {
    l.dice(a, b) >= t.RestatementSimilarity() || l.contains(a, b) || l.contains(b, a)
  }

  predicate Covers(l: Language, t: Tracker, newer: Statement, older: Memory) {
    && older.id != newer.id
    && older.Active()
    && (newer.entity == "" || older.entityGroup == "" || newer.entity == older.entityGroup)
    && l.dice(newer.summary, older.summary) >= t.MinSimilarity()
    && (Restates(l, t, newer.summary, older.summary) ==> PolarityFlip(l, newer.summary, older.summary))
    && newer.at > older.EffectiveOccurredAt()
  }

  datatype UpdatePair = UpdatePair(
    oldID: int, oldOccurredAt: int, newOccurredAt: int, similarity: real, oldPolarity: Option<Polarity>,
      newPolarity: Option<Polarity>)

  function PairOf(l: Language, newer: Statement, older: Memory): UpdatePair {
    UpdatePair(older.id, older.EffectiveOccurredAt(), newer.at, l.dice(newer.summary, older.summary),
               l.polarity(older.summary), l.polarity(newer.summary))
  }

  function Detected(l: Language, t: Tracker, newer: Statement, candidates: seq<Memory>): seq<UpdatePair> {
    if candidates == [] then [] else
    var n := |candidates| - 1;
    Detected(l, t, newer, candidates[..n])
    + if Covers(l, t, newer, candidates[n]) then [PairOf(l, newer, candidates[n])] else []
  }

  method DetectUpdate(l: Language, t: Tracker, newer: Statement, candidates: seq<Memory>)
    returns (pairs: seq<UpdatePair>)
    ensures pairs == Detected(l, t, newer, candidates)
  {
    var minSim, restatementSim := t.MinSimilarity(), t.RestatementSimilarity();
    var newPolarity := l.polarity(newer.summary);
    pairs := [];
    for i := 0 to |candidates|
      invariant pairs == Detected(l, t, newer, candidates[..i])
    {
      var older := candidates[i];
      assert candidates[..i + 1][..i] == candidates[..i];
      if older.id == newer.id || !older.Active() { continue; }
      if newer.entity != "" && older.entityGroup != "" && newer.entity != older.entityGroup { continue; }
      var sim := l.dice(newer.summary, older.summary);
      if sim < minSim { continue; }
      var oldPolarity := l.polarity(older.summary);
      var polarityFlip := newPolarity.Some? && oldPolarity.Some? && newPolarity != oldPolarity;
      var restatement := sim >= restatementSim || l.contains(newer.summary, older.summary) ||
        l.contains(older.summary, newer.summary);
      if restatement && !polarityFlip { continue; }
      var oldOccurred := older.EffectiveOccurredAt();
      if newer.at <= oldOccurred { continue; }
      pairs := pairs + [UpdatePair(older.id, oldOccurred, newer.at, sim, oldPolarity, newPolarity)];
    }
    assert candidates[..|candidates|] == candidates;
  }

  function OldIDs(pairs: seq<UpdatePair>): (ids: seq<int>)
    ensures |ids| == |pairs| && forall i :: 0 <= i < |ids| ==> ids[i] == pairs[i].oldID
  {
    seq(|pairs|, i requires 0 <= i < |pairs| => pairs[i].oldID)
  }

  ghost predicate DistinctIDs(mems: seq<Memory>) {
    forall i, j :: 0 <= i < j < |mems| ==> mems[i].id != mems[j].id
  }

  /** The judgement names exactly the covered candidates, each once. */
  lemma {:induction false} DetectedAreCovered(l: Language, t: Tracker, newer: Statement, candidates: seq<Memory>)
    ensures forall m :: m in candidates && Covers(l, t, newer, m) ==> m.id in OldIDs(Detected(l, t, newer, candidates))
    ensures forall id :: id in OldIDs(Detected(l, t, newer, candidates)) ==>
      exists m :: m in candidates && m.id == id && Covers(l, t, newer, m)
    ensures DistinctIDs(candidates) ==> Distinct(OldIDs(Detected(l, t, newer, candidates)))
  {
    if candidates != [] {
      var n := |candidates| - 1;
      var front := OldIDs(Detected(l, t, newer, candidates[..n]));
      DetectedAreCovered(l, t, newer, candidates[..n]);
      assert OldIDs(Detected(l, t, newer, candidates))
        == front + if Covers(l, t, newer, candidates[n]) then [candidates[n].id] else [];
      assert candidates == candidates[..n] + [candidates[n]];
      if DistinctIDs(candidates) {
        assert forall m :: m in candidates[..n] ==> m.id != candidates[n].id;
        assert candidates[n].id !in front;
      }
    }
  }

  // ---------------------------------------------------------------- acting on a judgement

  /** The part of the store update tracking works on. */
  datatype View = View(mems: map<int, Memory>, edges: seq<Edge>)

  function ClampWeight(w: real): real {
    if w < 0.0 then 0.0 else if w > 1.0 then 1.0 else w
  }

  function Others(carrier: int, pairs: seq<UpdatePair>): seq<UpdatePair> {
    if pairs == [] then [] else
    var n := |pairs| - 1;
    Others(carrier, pairs[..n]) + if pairs[n].oldID != carrier then [pairs[n]] else []
  }

  lemma {:induction false} OthersIsAll(carrier: int, pairs: seq<UpdatePair>)
    requires forall i :: 0 <= i < |pairs| ==> pairs[i].oldID != carrier
    ensures Others(carrier, pairs) == pairs
  {
    if pairs != [] { OthersIsAll(carrier, pairs[..|pairs| - 1]); }
  }

  function SupersededEdges(carrier: int, ids: seq<int>): (edges: seq<Edge>)
    ensures |edges| == |ids| && forall i :: 0 <= i < |ids| ==> edges[i] == Edge(carrier, ids[i], Superseded)
  {
    seq(|ids|, i requires 0 <= i < |ids| => Edge(carrier, ids[i], Superseded))
  }

  /** All of `ids` retired at `now` in favour of `carrier`. */
  function Retired(v: View, carrier: int, ids: seq<int>, now: int): View {
    View(map id | id in v.mems :: if id in ids then v.mems[id].(obsoletedAt := Some(now)) else v.mems[id],
         v.edges + SupersededEdges(carrier, ids))
  }

  function BoostedWeight(weight: real, boost: real): real {
    ClampWeight(weight * boost)
  }

  function Boosted(v: View, carrier: Memory, weight: real): View {
    if carrier.id !in v.mems then v else
    v.(mems := v.mems[carrier.id := v.mems[carrier.id].(weight := weight, effFreq := carrier.effFreq)])
  }

  /** The whole effect of an update: nothing without a covered memory. */
  function Applied(v: View, carrier: Memory, ids: seq<int>, boost: real, now: int): View {
    if ids == [] then v else Boosted(Retired(v, carrier.id, ids, now), carrier, BoostedWeight(carrier.weight, boost))
  }

  datatype AppliedUpdate = AppliedUpdate(pairs: seq<UpdatePair>, carrierWeight: real)

  datatype UpdateError = NotFound(id: int)

  function ViewOf(s: Store): View
    reads s
  {
    View(s.episodics, s.edges)
  }

  lemma RetiredSnoc(v: View, carrier: int, ids: seq<int>, id: int, now: int)
    requires id in v.mems
    ensures var w := Retired(v, carrier, ids, now);
      && id in w.mems
      && Retired(v, carrier, ids + [id], now)
         == View(w.mems[id := w.mems[id].(obsoletedAt := Some(now))], w.edges + [Edge(carrier, id, Superseded)])
  {
    var w := Retired(v, carrier, ids, now);
    assert SupersededEdges(carrier, ids + [id]) == SupersededEdges(carrier, ids) + [Edge(carrier, id, Superseded)];
    assert Retired(v, carrier, ids + [id], now).edges == w.edges + [Edge(carrier, id, Superseded)];
    assert Retired(v, carrier, ids + [id], now).mems == w.mems[id := w.mems[id].(obsoletedAt := Some(now))];
  }

  lemma RetiredNone(v: View, carrier: int, now: int)
    ensures Retired(v, carrier, [], now) == v
  {
    assert Retired(v, carrier, [], now).mems == v.mems;
    assert v.edges + SupersededEdges(carrier, []) == v.edges;
  }

  /** Retire the covered memories one by one, leaving an edge from the carrier to each. */
  method RetireCovered(s: Store, carrier: int, pairs: seq<UpdatePair>, now: int)
    returns (r: Result<seq<UpdatePair>, UpdateError>)
    modifies s`episodics, s`edges
    ensures r.Success? <==> forall p :: p in Others(carrier, pairs) ==> p.oldID in old(s.episodics)
    ensures r.Success? ==>
      r.value == Others(carrier, pairs) &&
      ViewOf(s) == Retired(old(ViewOf(s)), carrier, OldIDs(r.value), now)
    ensures r.Failure? ==>
      exists k :: 0 <= k <= |pairs| && ViewOf(s)
        == Retired(old(ViewOf(s)), carrier, OldIDs(Others(carrier, pairs[..k])), now)
  {
    ghost var v := ViewOf(s);
    var done := [];
    RetiredNone(v, carrier, now);
    assert OldIDs([]) == [];
    for i := 0 to |pairs|
      invariant done == Others(carrier, pairs[..i])
      invariant forall p :: p in done ==> p.oldID in v.mems
      invariant ViewOf(s) == Retired(v, carrier, OldIDs(done), now)
    {
      assert pairs[..i + 1][..i] == pairs[..i];
      var p := pairs[i];
      if p.oldID == carrier { continue; }
      var ok := s.MarkObsolete(p.oldID, now);
      if !ok {
        OthersPrefix(carrier, pairs, i + 1);
        assert p in Others(carrier, pairs[..i + 1]);
        return Failure(NotFound(p.oldID));
      }
      s.CreateEdge(carrier, p.oldID, Superseded);
      RetiredSnoc(v, carrier, OldIDs(done), p.oldID, now);
      assert OldIDs(done + [p]) == OldIDs(done) + [p.oldID];
      done := done + [p];
    }
    assert pairs[..|pairs|] == pairs;
    return Success(done);
  }

  lemma {:induction false} OthersPrefix(carrier: int, pairs: seq<UpdatePair>, k: nat)
    requires k <= |pairs|
    ensures Others(carrier, pairs[..k]) <= Others(carrier, pairs)
  {
    if k == |pairs| {
      assert pairs[..k] == pairs;
    } else {
      OthersPrefix(carrier, pairs[..|pairs| - 1], k);
      assert pairs[..|pairs| - 1][..k] == pairs[..k];
    }
  }

  /** Retire, link, and boost the carrier once; a memory that is not stored stops the update. */
  method ApplyUpdate(s: Store, t: Tracker, carrier: Memory, pairs: seq<UpdatePair>, now: int)
    returns (r: Result<AppliedUpdate, UpdateError>)
    modifies s`episodics, s`edges
    ensures r.Success? <==>
      && (forall p :: p in Others(carrier.id, pairs) ==> p.oldID in old(s.episodics))
      && (Others(carrier.id, pairs) != [] ==> carrier.id in old(s.episodics))
    ensures r.Success? ==>
      && ViewOf(s) == Applied(old(ViewOf(s)), carrier, OldIDs(Others(carrier.id, pairs)), t.WeightBoost(), now)
      && r.value.pairs == Others(carrier.id, pairs)
      && r.value.carrierWeight == if r.value.pairs == [] then 0.0 else BoostedWeight(carrier.weight, t.WeightBoost())
    ensures r.Failure? ==>
      exists k :: 0 <= k <= |pairs| && ViewOf(s)
        == Retired(old(ViewOf(s)), carrier.id, OldIDs(Others(carrier.id, pairs[..k])), now)
  {
    var retired := RetireCovered(s, carrier.id, pairs, now);
    if retired.Failure? { return Failure(retired.error); }
    if retired.value == [] {
      RetiredNone(old(ViewOf(s)), carrier.id, now);
      assert OldIDs([]) == [];
      return Success(AppliedUpdate([], 0.0));
    }
    var boosted := BoostedWeight(carrier.weight, t.WeightBoost());
    ghost var w := ViewOf(s);
    var ok := s.UpdateEpisodicWeight(carrier.id, boosted, carrier.effFreq);
    if !ok {
      assert pairs[..|pairs|] == pairs;
      return Failure(NotFound(carrier.id));
    }
    assert |OldIDs(retired.value)| > 0;
    assert ViewOf(s) == Boosted(w, carrier, boosted);
    return Success(AppliedUpdate(retired.value, boosted));
  }

  // ---------------------------------------------------------------- the explicit signal

  const UPDATE_PEER_POOL := 500

  function PeerQuery(project: string): Query {
    ProjectQuery(project, [], UPDATE_PEER_POOL, true)
  }

  function SignalTracker(boost: real): Tracker {
    if boost > 0.0 then DEFAULT_TRACKER.(weightBoost := boost) else DEFAULT_TRACKER
  }

  /** The covered peers a signal on memory `id` finds. */
  function Found(l: Language, v: View, id: int, peers: seq<Memory>): seq<UpdatePair>
    requires id in v.mems
  {
    Detected(l, DEFAULT_TRACKER, StatementOf(v.mems[id]), peers)
  }

  /** The effect of a signal on memory `id`. */
  function Pass(l: Language, v: View, id: int, boost: real, peers: seq<Memory>, now: int): View
    requires id in v.mems
  {
    Applied(v, v.mems[id], OldIDs(Found(l, v, id, peers)), SignalTracker(boost).WeightBoost(), now)
  }

  datatype TrackingResult = TrackingResult(detected: nat, applied: nat, pairs: seq<UpdatePair>, carrierWeight: real)

  lemma {:induction false} BoostDoesNotDetect(l: Language, boost: real, newer: Statement, candidates: seq<Memory>)
    ensures Detected(l, SignalTracker(boost), newer, candidates) == Detected(l, DEFAULT_TRACKER, newer, candidates)
  {
    if candidates != [] { BoostDoesNotDetect(l, boost, newer, candidates[..|candidates| - 1]); }
  }

  /** `peers` is an answer to the search for the project's most recent memories. */
  ghost predicate ValidPeers(cosine: Cosine, v: View, id: int, peers: seq<Memory>) {
    id in v.mems && ValidAnswer(cosine, v.mems, PeerQuery(v.mems[id].project), peers)
  }

  lemma AnswerIDs(cosine: Cosine, v: View, q: Query, answer: seq<Memory>)
    requires ValidAnswer(cosine, v.mems, q, answer)
    ensures DistinctIDs(answer)
    ensures forall m :: m in answer ==> m.id in v.mems && v.mems[m.id] == m && Matches(q, m)
  {
    forall i, j | 0 <= i < j < |answer| ensures answer[i].id != answer[j].id {
      assert Stored(v.mems, answer[i]) && Stored(v.mems, answer[j]);
    }
  }

  /** What a signal finds: stored active memories other than its own, each once. */
  lemma FoundAreOthers(cosine: Cosine, l: Language, v: View, id: int, peers: seq<Memory>)
    requires Keyed(v.mems) && ValidPeers(cosine, v, id, peers)
    ensures var ids := OldIDs(Found(l, v, id, peers));
      && Distinct(ids) && id !in ids
      && forall k :: k in ids ==> k in v.mems && v.mems[k].Active()
  {
    AnswerIDs(cosine, v, PeerQuery(v.mems[id].project), peers);
    DetectedAreCovered(l, DEFAULT_TRACKER, StatementOf(v.mems[id]), peers);
  }

  /** Pairs that name stored memories other than the carrier are all acted on. */
  lemma AllPairsApply(mems: map<int, Memory>, carrier: int, pairs: seq<UpdatePair>)
    requires carrier !in OldIDs(pairs) && forall k :: k in OldIDs(pairs) ==> k in mems
    ensures Others(carrier, pairs) == pairs && forall p :: p in pairs ==> p.oldID in mems
  {
    var ids := OldIDs(pairs);
    assert forall i :: 0 <= i < |pairs| ==> ids[i] == pairs[i].oldID && ids[i] in ids;
    OthersIsAll(carrier, pairs);
  }

  /**
   Fetch the memory and its most recent peers, judge, and act. The only failure is a memory
   that is not stored.
   */
  method RunUpdateTracking(l: Language, s: Store, id: int, boost: real, now: int)
    returns (r: Result<TrackingResult, UpdateError>, ghost peers: seq<Memory>)
    requires Keyed(s.episodics)
    modifies s`episodics, s`edges
    ensures r.Success? <==> id in old(s.episodics)
    ensures r.Failure? ==> ViewOf(s) == old(ViewOf(s))
    ensures r.Success? ==>
      && ValidPeers(s.cosine, old(ViewOf(s)), id, peers)
      && ViewOf(s) == Pass(l, old(ViewOf(s)), id, boost, peers, now)
      && r.value.pairs == Found(l, old(ViewOf(s)), id, peers)
      && r.value.detected == r.value.applied == |r.value.pairs|
      && r.value.carrierWeight == if r.value.pairs == [] then 0.0 else s.episodics[id].weight
  {
    peers := [];
    ghost var v := ViewOf(s);
    var mem := s.GetEpisodic(id);
    if mem.None? { return Failure(NotFound(id)), peers; }
    var found := s.SearchEpisodic(PeerQuery(mem.value.project));
    peers := found;
    var tracker := SignalTracker(boost);
    var pairs := DetectUpdate(l, tracker, StatementOf(mem.value), found);
    BoostDoesNotDetect(l, boost, StatementOf(mem.value), found);
    FoundAreOthers(s.cosine, l, v, id, found);
    if |pairs| == 0 {
      return Success(TrackingResult(0, 0, pairs, 0.0)), peers;
    }
    AllPairsApply(v.mems, id, pairs);
    var applied := ApplyUpdate(s, tracker, mem.value, pairs, now);
    assert applied.Success?;
    return Success(TrackingResult(|pairs|, |applied.value.pairs|, pairs, applied.value.carrierWeight)), peers;
  }

  /** What a pass leaves of every memory: retired when found, boosted when it is the carrier, otherwise unchanged. */
  lemma PassEffect(cosine: Cosine, l: Language, v: View, id: int, boost: real, peers: seq<Memory>, now: int)
    requires Keyed(v.mems) && ValidPeers(cosine, v, id, peers)
    ensures var w, ids := Pass(l, v, id, boost, peers, now), OldIDs(Found(l, v, id, peers));
      && w.mems.Keys == v.mems.Keys && Keyed(w.mems)
      && w.edges == v.edges + SupersededEdges(id, ids)
      && (forall k :: k in ids ==> k in v.mems && w.mems[k] == v.mems[k].(obsoletedAt := Some(now)))
      && (forall k :: k in v.mems && k !in ids && k != id ==> w.mems[k] == v.mems[k])
      && StatementOf(w.mems[id]) == StatementOf(v.mems[id]) && w.mems[id].obsoletedAt == v.mems[id].obsoletedAt
      && w.mems[id].project == v.mems[id].project
  {
    FoundAreOthers(cosine, l, v, id, peers);
    if OldIDs(Found(l, v, id, peers)) == [] {
      assert v.edges + SupersededEdges(id, []) == v.edges;
    }
  }

  ghost function ActiveIDs(v: View): set<int> {
    set k | k in v.mems && v.mems[k].Active()
  }

  /** Applying a judgement leaves every memory it names dated, and a second time re-dates exactly those. */
  lemma StaleJudgementRedates(v: View, carrier: Memory, ids: seq<int>, boost: real, now: int, now': int)
    requires carrier.id in v.mems && carrier.id !in ids && forall k :: k in ids ==> k in v.mems
    ensures var once := Applied(v, carrier, ids, boost, now);
      var twice := Applied(once, carrier, ids, boost, now');
      && twice.mems.Keys == once.mems.Keys == v.mems.Keys
      && (forall k :: k in ids ==>
        once.mems[k].obsoletedAt == Some(now) && twice.mems[k] == once.mems[k].(obsoletedAt := Some(now')))
      && (forall k :: k in v.mems && k !in ids ==> twice.mems[k] == once.mems[k])
  {}

  lemma StaleJudgementRelinks(v: View, carrier: Memory, ids: seq<int>, boost: real, now: int, now': int)
    ensures var once := Applied(v, carrier, ids, boost, now);
      && once.edges == v.edges + SupersededEdges(carrier.id, ids)
      && Applied(once, carrier, ids, boost, now').edges == once.edges + SupersededEdges(carrier.id, ids)
  {
    assert SupersededEdges(carrier.id, []) == [];
  }

  /** The memories stay as they are exactly when nothing is named or the instant is the same. */
  lemma StaleJudgementKeepsMemoriesIff(v: View, carrier: Memory, ids: seq<int>, boost: real, now: int, now': int)
    requires carrier.id in v.mems && carrier.id !in ids && forall k :: k in ids ==> k in v.mems
    ensures var once := Applied(v, carrier, ids, boost, now);
      Applied(once, carrier, ids, boost, now').mems == once.mems <==> ids == [] || now' == now
  {
    StaleJudgementRedates(v, carrier, ids, boost, now, now');
    if ids != [] { assert ids[0] in ids; }
  }

  /**
   Applying a stale judgement once more is a no-op exactly when it names nothing: otherwise every
   edge is recorded a second time. The memories stay as they are exactly when, besides, the instant
   is the same; another one dates the retirement anew. Nothing further is retired or boosted.
   */
  lemma StaleJudgementDuplicatesEdges(v: View, carrier: Memory, ids: seq<int>, boost: real, now: int, now': int)
    requires carrier.id in v.mems && carrier.id !in ids && forall k :: k in ids ==> k in v.mems
    ensures var once := Applied(v, carrier, ids, boost, now);
      var twice := Applied(once, carrier, ids, boost, now');
      && (twice == once <==> ids == []) && (twice.mems == once.mems <==> ids == [] || now' == now)
      && ActiveIDs(twice) == ActiveIDs(once) && twice.mems[carrier.id] == once.mems[carrier.id]
      && twice.edges == v.edges + SupersededEdges(carrier.id, ids) + SupersededEdges(carrier.id, ids)
      && forall k :: k in ids ==> twice.mems[k].obsoletedAt == Some(now')
  {
    var once := Applied(v, carrier, ids, boost, now);
    var twice := Applied(once, carrier, ids, boost, now');
    StaleJudgementRedates(v, carrier, ids, boost, now, now');
    StaleJudgementKeepsMemoriesIff(v, carrier, ids, boost, now, now');
    StaleJudgementRelinks(v, carrier, ids, boost, now, now');
    assert |twice.edges| == |once.edges| + |ids|;
  }
}
