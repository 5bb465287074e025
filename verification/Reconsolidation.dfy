/**
 A correction flows back along DERIVED_FROM edges: each source memory is boosted once, whatever
 the multiplicity and direction of the edges.
 */
module Reconsolidation {
  import opened Wrappers
  import opened SortSlice
  import opened MemoryStore

  const MAX_TRUST := 5

  datatype Engine = Engine(correctionBoost: real, maxTracebackHops: int)

  datatype CorrectedType = EpisodicMemory | SemanticMemory | PitfallMemory | UnknownType

  datatype Outcome = Outcome(corrected: int, updated: seq<int>, skipped: seq<int>, failed: seq<int>, delta: real)

  datatype ProcessError = NoSuchMemory(id: int) | NoSuchType | WeightUpdateFailed(id: int)

  // ---------------------------------------------------------------- one source memory

  function Bumped(trust: int, isUserCorrected: bool): int {
    if isUserCorrected && trust < MAX_TRUST then trust + 1 else trust
  }

  /** The correction boost as a function on weights. */
  function Times(boost: real): real -> real {
    (w: real) => w * boost
  }

  /** What a correction of a semantic memory leaves of a source. */
  function FromSemantic(scale: real -> real, correctedTo: string, isUserCorrected: bool): Memory -> Memory {
    (m: Memory) =>
      m.(weight := scale(m.weight), summary := m.summary + "\n[corrected] " + correctedTo,
         trust := Bumped(m.trust, isUserCorrected))
  }

  /** What a correction of a pitfall leaves of a source. */
  function FromPitfall(scale: real -> real, isUserCorrected: bool): Memory -> Memory {
    (m: Memory) => m.(weight := scale(m.weight), trust := Bumped(m.trust, isUserCorrected))
  }

  // ---------------------------------------------------------------- the walk over the edges

  /** How far the walk has come. */
  datatype Trace = Trace(mems: map<int, Memory>, visited: set<int>, updated: seq<int>, skipped: seq<int>,
                         failed: seq<int>, delta: real)
  {
    /** One edge: seen or absent targets are skipped; `fails` says whose weight update the store refuses. */
    function Visit(to: int, correct: Memory -> Memory, fails: int -> bool): Trace {
      if to in visited then this.(skipped := skipped + [to])
      else if to !in mems then this.(visited := visited + {to}, skipped := skipped + [to])
      else if fails(to) then this.(visited := visited + {to}, failed := failed + [to])
      else this.(mems := mems[to := correct(mems[to])], visited := visited + {to}, updated := updated + [to],
                 delta := delta + (correct(mems[to]).weight - mems[to].weight))
    }

    function Result(corrected: int): Outcome {
      Outcome(corrected, updated, skipped, failed, delta)
    }
  }

  function Start(mems: map<int, Memory>, corrected: int): Trace {
    Trace(mems, {corrected}, [], [], [], 0.0)
  }

  function Walk(mems: map<int, Memory>, corrected: int, edges: seq<Edge>, correct: Memory -> Memory,
                fails: int -> bool): Trace {
    if edges == [] then Start(mems, corrected) else
    var n := |edges| - 1;
    Walk(mems, corrected, edges[..n], correct, fails).Visit(edges[n].to, correct, fails)
  }

  ghost predicate Targets(edges: seq<Edge>, k: int) {
    exists e :: e in edges && e.to == k
  }

  lemma TargetsOfMore(edges: seq<Edge>)
    requires edges != []
    ensures forall k :: Targets(edges, k) <==> Targets(edges[..|edges| - 1], k) || edges[|edges| - 1].to == k
  {
    var n := |edges| - 1;
    assert edges == edges[..n] + [edges[n]];
    forall k ensures Targets(edges, k) <==> Targets(edges[..n], k) || edges[n].to == k {
      if Targets(edges[..n], k) {
        var e :| e in edges[..n] && e.to == k;
        assert e in edges;
      }
    }
  }

  /** A stored source other than the corrected memory itself. */
  ghost predicate Source(mems: map<int, Memory>, corrected: int, edges: seq<Edge>, k: int) {
    k in mems && k != corrected && Targets(edges, k)
  }

  lemma {:induction false} WalkVisits(mems: map<int, Memory>, corrected: int, edges: seq<Edge>,
                                      correct: Memory -> Memory, fails: int -> bool)
    ensures var t := Walk(mems, corrected, edges, correct, fails);
      && (forall k :: k in t.visited <==> k == corrected || Targets(edges, k))
      && |t.updated| + |t.skipped| + |t.failed| == |edges|
  {
    if edges != [] {
      var n := |edges| - 1;
      WalkVisits(mems, corrected, edges[..n], correct, fails);
      TargetsOfMore(edges);
    }
  }

  /** The sources met so far are updated or failed, once; everything else in the store is untouched. */
  ghost predicate OnceEach(mems: map<int, Memory>, corrected: int, edges: seq<Edge>, correct: Memory -> Memory,
                           fails: int -> bool, t: Trace)
  {
    && (forall k :: k in t.updated <==> Source(mems, corrected, edges, k) && !fails(k))
    && (forall k :: k in t.failed <==> Source(mems, corrected, edges, k) && fails(k))
    && Distinct(t.updated) && Distinct(t.failed)
    && t.mems.Keys == mems.Keys
    && (forall k :: k in mems ==> t.mems[k] == if k in t.updated then correct(mems[k]) else mems[k])
  }

  lemma VisitKeepsOnceEach(mems: map<int, Memory>, corrected: int, edges: seq<Edge>, correct: Memory -> Memory,
                           fails: int -> bool, t: Trace)
    requires edges != [] && OnceEach(mems, corrected, edges[..|edges| - 1], correct, fails, t)
    requires forall k :: k in t.visited <==> k == corrected || Targets(edges[..|edges| - 1], k)
    ensures OnceEach(mems, corrected, edges, correct, fails, t.Visit(edges[|edges| - 1].to, correct, fails))
  {
    var n, to := |edges| - 1, edges[|edges| - 1].to;
    TargetsOfMore(edges);
    forall k ensures Source(mems, corrected, edges, k)
        <==> Source(mems, corrected, edges[..n], k) || (k == to && k in mems && k != corrected)
    {}
    if to in mems && to != corrected && !Targets(edges[..n], to) {
      NewSourceOnce(mems, corrected, edges[..n], correct, fails, t, to);
    }
  }

  /** A source met for the first time joins one of the lists. */
  lemma NewSourceOnce(mems: map<int, Memory>, corrected: int, edges: seq<Edge>, correct: Memory -> Memory,
                      fails: int -> bool, t: Trace, to: int)
    requires OnceEach(mems, corrected, edges, correct, fails, t) && to in mems && !Targets(edges, to)
    requires forall k :: k in t.visited <==> k == corrected || Targets(edges, k)
    requires to != corrected
    ensures var u := t.Visit(to, correct, fails);
      && Distinct(u.updated) && Distinct(u.failed) && u.mems.Keys == mems.Keys
      && (forall k :: k in u.updated <==> k in t.updated || (k == to && !fails(to)))
      && (forall k :: k in u.failed <==> k in t.failed || (k == to && fails(to)))
      && (forall k :: k in mems ==> u.mems[k] == if k in u.updated then correct(mems[k]) else mems[k])
  {}

  /** Each source is updated or failed, once; everything else in the store is untouched. */
  lemma {:induction false} EachSourceOnce(mems: map<int, Memory>, corrected: int, edges: seq<Edge>,
                                          correct: Memory -> Memory,
                                          fails: int -> bool)
    ensures OnceEach(mems, corrected, edges, correct, fails, Walk(mems, corrected, edges, correct, fails))
  {
    if edges != [] {
      var n := |edges| - 1;
      EachSourceOnce(mems, corrected, edges[..n], correct, fails);
      WalkVisits(mems, corrected, edges[..n], correct, fails);
      VisitKeepsOnceEach(mems, corrected, edges, correct, fails, Walk(mems, corrected, edges[..n], correct, fails));
    }
  }

  /** The old weights of the updated memories. */
  ghost function SumOfWeights(mems: map<int, Memory>, ids: seq<int>): real {
    if ids == [] then 0.0 else
    var n := |ids| - 1;
    SumOfWeights(mems, ids[..n]) + if ids[n] in mems then mems[ids[n]].weight else 0.0
  }

  ghost predicate Scales(correct: Memory -> Memory, scale: real -> real) {
    forall m: Memory :: correct(m).weight == scale(m.weight)
  }

  /** What scaling their weights gains on the listed memories. */
  ghost function Gains(scale: real -> real, mems: map<int, Memory>, ids: seq<int>): real {
    if ids == [] then 0.0 else
    var n := |ids| - 1;
    Gains(scale, mems, ids[..n]) + if ids[n] in mems then scale(mems[ids[n]].weight) - mems[ids[n]].weight else 0.0
  }

  lemma {:induction false} DeltaIsGains(mems: map<int, Memory>, corrected: int, edges: seq<Edge>,
                                        correct: Memory -> Memory, fails: int -> bool, scale: real -> real)
    requires Scales(correct, scale)
    ensures var t := Walk(mems, corrected, edges, correct, fails);
      t.delta == Gains(scale, mems, t.updated)
  {
    if edges != [] {
      var n := |edges| - 1;
      DeltaIsGains(mems, corrected, edges[..n], correct, fails, scale);
      WalkVisits(mems, corrected, edges[..n], correct, fails);
      EachSourceOnce(mems, corrected, edges[..n], correct, fails);
      var t, to := Walk(mems, corrected, edges[..n], correct, fails), edges[n].to;
      assert (t.updated + [to])[..|t.updated|] == t.updated;
    }
  }

  lemma Distribute(boost: real, sum: real, w: real)
    ensures (boost - 1.0) * (sum + w) == (boost - 1.0) * sum + (w * boost - w)
  {}

  /** The gain is the boost, less one, on the sum of the old weights. */
  lemma {:induction false} GainsAreBoostedSum(boost: real, mems: map<int, Memory>, ids: seq<int>)
    ensures Gains(Times(boost), mems, ids) == (boost - 1.0) * SumOfWeights(mems, ids)
  {
    if ids != [] {
      var n := |ids| - 1;
      GainsAreBoostedSum(boost, mems, ids[..n]);
      Distribute(boost, SumOfWeights(mems, ids[..n]), if ids[n] in mems then mems[ids[n]].weight else 0.0);
    }
  }

  ghost predicate TrustKept(mems: map<int, Memory>) {
    forall k :: k in mems ==> mems[k].trust <= MAX_TRUST
  }

  /** An edge into the corrected memory, which the lookup returns too, changes nothing. */
  lemma {:induction false} IncomingEdgesAreSkipped(mems: map<int, Memory>, corrected: int, edges: seq<Edge>, e: Edge,
                                                   correct: Memory -> Memory, fails: int -> bool)
    requires e.to == corrected
    ensures var before, after :=
        Walk(mems, corrected, edges, correct, fails), Walk(mems, corrected, edges + [e], correct, fails);
      after == before.(skipped := before.skipped + [corrected])
  {
    assert (edges + [e])[..|edges|] == edges;
    WalkVisits(mems, corrected, edges, correct, fails);
  }

  // ---------------------------------------------------------------- the engine

  /** The store's weight update; `fails` is where a backend may refuse it. */
  method UpdateWeight(s: Store, id: int, weight: real, effFreq: real, fails: int -> bool) returns (ok: bool)
    modifies s`episodics
    ensures ok <==> id in old(s.episodics) && !fails(id)
    ensures s.episodics == if ok
        then old(s.episodics)[id := old(s.episodics)[id].(weight := weight, effFreq := effFreq)] else old(s.episodics)
  {
    if fails(id) { return false; }
    ok := s.UpdateEpisodicWeight(id, weight, effFreq);
  }

  /** Boost a source of a corrected semantic memory and append the correction to its text. */
  method CorrectFromSemantic(s: Store, scale: real -> real, correctedTo: string, isUserCorrected: bool,
                             fails: int -> bool, ep: Memory)
    returns (ok: bool)
    requires Stored(s.episodics, ep)
    modifies s`episodics
    ensures ok <==> !fails(ep.id)
    ensures s.episodics == if ok
        then old(s.episodics)[ep.id := FromSemantic(scale, correctedTo, isUserCorrected)(ep)] else old(s.episodics)
  {
    var newWeight := scale(ep.weight);
    ok := UpdateWeight(s, ep.id, newWeight, ep.effFreq, fails);
    if !ok { return; }
    var m := ep.(summary := ep.summary + "\n[corrected] " + correctedTo, weight := newWeight);
    s.WriteEpisodic(m);
    if isUserCorrected && m.trust < MAX_TRUST {
      m := m.(trust := m.trust + 1);
      s.WriteEpisodic(m);
    }
  }

  /** Boost a source of a corrected pitfall. */
  method CorrectFromPitfall(s: Store, scale: real -> real, isUserCorrected: bool, fails: int -> bool, ep: Memory)
    returns (ok: bool)
    requires Stored(s.episodics, ep)
    modifies s`episodics
    ensures ok <==> !fails(ep.id)
    ensures s.episodics == if ok then old(s.episodics)[ep.id := FromPitfall(scale, isUserCorrected)(ep)]
        else old(s.episodics)
  {
    var newWeight := scale(ep.weight);
    ok := UpdateWeight(s, ep.id, newWeight, ep.effFreq, fails);
    if !ok { return; }
    if isUserCorrected && ep.trust < MAX_TRUST {
      s.WriteEpisodic(ep.(trust := ep.trust + 1, weight := newWeight));
    }
  }

  /** Neither hops nor edges: nothing is traced. */
  function Traced(engine: Engine, mems: map<int, Memory>, corrected: int, edges: seq<Edge>, correct: Memory -> Memory,
                  fails: int -> bool): Trace {
    if engine.maxTracebackHops < 1 then Start(mems, corrected) else Walk(mems, corrected, edges, correct, fails)
  }

  method ProcessSemantic(engine: Engine, scale: real -> real, s: Store, id: int, correctedTo: string,
                         isUserCorrected: bool, fails: int -> bool)
    returns (r: Outcome)
    requires Keyed(s.episodics)
    modifies s`episodics
    ensures var correct := FromSemantic(scale, correctedTo, isUserCorrected);
      var t := Traced(engine, old(s.episodics), id, EdgesOf(s.edges, id, Some(DerivedFrom), Both), correct, fails);
      s.episodics == t.mems && r == t.Result(id)
  {
    ghost var correct := FromSemantic(scale, correctedTo, isUserCorrected);
    ghost var mems := s.episodics;
    var edges := s.GetEdges(id, Some(DerivedFrom), Both);
    r := Outcome(id, [], [], [], 0.0);
    if |edges| == 0 || engine.maxTracebackHops < 1 { return; }
    var visited := {id};
    for i := 0 to |edges|
      invariant Keyed(s.episodics)
      invariant var t := Walk(mems, id, edges[..i], correct, fails);
        s.episodics == t.mems && visited == t.visited && r == t.Result(id)
    {
      var to := edges[i].to;
      assert edges[..i + 1][..i] == edges[..i];
      if to in visited {
        r := r.(skipped := r.skipped + [to]);
        continue;
      }
      visited := visited + {to};
      var ep := s.GetEpisodic(to);
      if ep.None? {
        r := r.(skipped := r.skipped + [to]);
        continue;
      }
      var ok := CorrectFromSemantic(s, scale, correctedTo, isUserCorrected, fails, ep.value);
      if !ok {
        r := r.(failed := r.failed + [to]);
        continue;
      }
      r := r.(updated := r.updated + [to], delta := r.delta + (scale(ep.value.weight) - ep.value.weight));
    }
    assert edges[..|edges|] == edges;
  }

  method ProcessPitfall(engine: Engine, scale: real -> real, s: Store, id: int, isUserCorrected: bool,
                        fails: int -> bool)
    returns (r: Outcome)
    requires Keyed(s.episodics)
    modifies s`episodics
    ensures var correct := FromPitfall(scale, isUserCorrected);
      var t := Traced(engine, old(s.episodics), id, EdgesOf(s.edges, id, Some(DerivedFrom), Both), correct, fails);
      s.episodics == t.mems && r == t.Result(id)
  {
    ghost var correct := FromPitfall(scale, isUserCorrected);
    ghost var mems := s.episodics;
    var edges := s.GetEdges(id, Some(DerivedFrom), Both);
    r := Outcome(id, [], [], [], 0.0);
    if |edges| == 0 || engine.maxTracebackHops < 1 { return; }
    var visited := {id};
    for i := 0 to |edges|
      invariant Keyed(s.episodics)
      invariant var t := Walk(mems, id, edges[..i], correct, fails);
        s.episodics == t.mems && visited == t.visited && r == t.Result(id)
    {
      var to := edges[i].to;
      assert edges[..i + 1][..i] == edges[..i];
      if to in visited {
        r := r.(skipped := r.skipped + [to]);
        continue;
      }
      visited := visited + {to};
      var ep := s.GetEpisodic(to);
      if ep.None? {
        r := r.(skipped := r.skipped + [to]);
        continue;
      }
      var ok := CorrectFromPitfall(s, scale, isUserCorrected, fails, ep.value);
      if !ok {
        r := r.(failed := r.failed + [to]);
        continue;
      }
      r := r.(updated := r.updated + [to], delta := r.delta + (scale(ep.value.weight) - ep.value.weight));
    }
    assert edges[..|edges|] == edges;
  }

  /**
   The memory itself is corrected. A user correction writes back the copy read at the start, so
   the access time it just recorded is lost again.
   */
  method ProcessEpisodic(scale: real -> real, s: Store, id: int, isUserCorrected: bool, now: int, fails: int -> bool)
    returns (r: Result<Outcome, ProcessError>)
    modifies s`episodics
    requires Keyed(s.episodics)
    ensures id !in old(s.episodics) ==> r == Failure(NoSuchMemory(id)) && s.episodics == old(s.episodics)
    ensures id in old(s.episodics) && fails(id) ==>
        r == Failure(WeightUpdateFailed(id)) && s.episodics == old(s.episodics)
    ensures id in old(s.episodics) && !fails(id) ==>
      var m := old(s.episodics)[id];
      var boosted := m.(weight := scale(m.weight));
      && r == Success(Outcome(id, [id], [], [], boosted.weight - m.weight))
      && s.episodics == old(s.episodics)[id :=
           if isUserCorrected
           then boosted.(trust := Bumped(m.trust, true), surprise := if m.surprise < 0.7 then 0.7 else m.surprise)
           else boosted.(lastAccessed := Some(now))]
  {
    var found := s.GetEpisodic(id);
    if found.None? { return Failure(NoSuchMemory(id)); }
    var ep := found.value;
    var oldWeight := ep.weight;
    var newWeight := scale(ep.weight);
    var ok := UpdateWeight(s, id, newWeight, ep.effFreq, fails);
    if !ok { return Failure(WeightUpdateFailed(id)); }
    ok := s.TouchEpisodic(id, now);
    if isUserCorrected {
      if ep.trust < MAX_TRUST { ep := ep.(trust := ep.trust + 1); }
      if ep.surprise < 0.7 { ep := ep.(surprise := 0.7); }
      ep := ep.(weight := newWeight);
      s.WriteEpisodic(ep);
    }
    return Success(Outcome(id, [id], [], [], newWeight - oldWeight));
  }

  /**
   The corrected memory is boosted, and a user correction raises its trust and makes it surprising;
   otherwise its access time is recorded. Nothing else changes.
   */
  ghost predicate CorrectedItself(engine: Engine, before: map<int, Memory>, after: map<int, Memory>, id: int,
                                  isUserCorrected: bool, now: int, r: Outcome)
    requires id in before
  {
    var m := before[id];
    var boosted := m.weight * engine.correctionBoost;
    && after.Keys == before.Keys && (forall k :: k in before && k != id ==> after[k] == before[k])
    && r == Outcome(id, [id], [], [], boosted - m.weight)
    && after[id] == m.(weight := boosted,
         trust := if isUserCorrected && m.trust < 5 then m.trust + 1 else m.trust,
         surprise := if isUserCorrected && m.surprise < 0.7 then 0.7 else m.surprise,
         lastAccessed := if isUserCorrected then m.lastAccessed else Some(now))
  }

  function CorrectionOf(kind: CorrectedType, engine: Engine, correctedTo: string,
                        isUserCorrected: bool): Memory -> Memory {
    if kind.SemanticMemory? then FromSemantic(Times(engine.correctionBoost), correctedTo, isUserCorrected)
    else FromPitfall(Times(engine.correctionBoost), isUserCorrected)
  }

  /** Each source, and nothing else, is corrected once or reported as failed; every edge is accounted for. */
  ghost predicate BoostedOnce(engine: Engine, before: map<int, Memory>, after: map<int, Memory>, id: int,
                              edges: seq<Edge>,
                              correct: Memory -> Memory, fails: int -> bool, r: Outcome)
  {
    && after.Keys == before.Keys && Distinct(r.updated) && Distinct(r.failed)
    && (forall k :: k in r.updated <==> engine.maxTracebackHops >= 1 && Source(before, id, edges, k) && !fails(k))
    && (forall k :: k in r.failed <==> engine.maxTracebackHops >= 1 && Source(before, id, edges, k) && fails(k))
    && (forall k :: k in before ==> after[k] == if k in r.updated then correct(before[k]) else before[k])
    && |r.updated| + |r.skipped| + |r.failed| == if engine.maxTracebackHops >= 1 then |edges| else 0
  }

  lemma TracedBoostsOnce(engine: Engine, mems: map<int, Memory>, id: int, edges: seq<Edge>, correct: Memory -> Memory,
                         fails: int -> bool)
    ensures var t := Traced(engine, mems, id, edges, correct, fails);
      BoostedOnce(engine, mems, t.mems, id, edges, correct, fails, t.Result(id))
  {
    WalkVisits(mems, id, edges, correct, fails);
    EachSourceOnce(mems, id, edges, correct, fails);
  }

  lemma TracedDelta(engine: Engine, scale: real -> real, mems: map<int, Memory>, id: int, edges: seq<Edge>,
                    correct: Memory -> Memory, fails: int -> bool)
    requires Scales(correct, scale)
    ensures var t := Traced(engine, mems, id, edges, correct, fails);
      t.delta == Gains(scale, mems, t.updated)
  {
    DeltaIsGains(mems, id, edges, correct, fails, scale);
  }

  /** A user correction raises the trust of what it updates by one, up to the maximum; no other trust changes. */
  ghost predicate TrustRaised(before: map<int, Memory>, after: map<int, Memory>, updated: seq<int>,
                              isUserCorrected: bool) {
    && after.Keys == before.Keys
    && forall k :: k in before ==>
         after[k].trust == before[k].trust
           + if k in updated && isUserCorrected && before[k].trust < MAX_TRUST then 1 else 0
  }

  lemma CorrectionBumpsTrust(kind: CorrectedType, engine: Engine, correctedTo: string, isUserCorrected: bool, m: Memory)
    ensures CorrectionOf(kind, engine, correctedTo, isUserCorrected)(m).trust == Bumped(m.trust, isUserCorrected)
  {}

  lemma CorrectionsRaiseTrust(kind: CorrectedType, engine: Engine, correctedTo: string, isUserCorrected: bool,
                              mems: map<int, Memory>, id: int, edges: seq<Edge>, fails: int -> bool)
    ensures var t := Traced(engine, mems, id, edges, CorrectionOf(kind, engine, correctedTo, isUserCorrected), fails);
      && TrustRaised(mems, t.mems, t.updated, isUserCorrected)
      && (TrustKept(mems) ==> TrustKept(t.mems))
  {
    var correct := CorrectionOf(kind, engine, correctedTo, isUserCorrected);
    TracedBoostsOnce(engine, mems, id, edges, correct, fails);
    forall k | k in mems ensures correct(mems[k]).trust == Bumped(mems[k].trust, isUserCorrected) {
      CorrectionBumpsTrust(kind, engine, correctedTo, isUserCorrected, mems[k]);
    }
  }

  /** The whole effect of a correction on the sources of a semantic memory or a pitfall. */
  ghost predicate SourcesCorrected(kind: CorrectedType, engine: Engine, correctedTo: string, isUserCorrected: bool,
                                   before: map<int, Memory>, after: map<int, Memory>, id: int, edges: seq<Edge>,
                                   fails: int -> bool, r: Outcome) {
    && BoostedOnce(engine, before, after, id, edges, CorrectionOf(kind, engine, correctedTo, isUserCorrected), fails, r)
    && r.delta == Gains(Times(engine.correctionBoost), before, r.updated)
    && TrustRaised(before, after, r.updated, isUserCorrected)
    && (TrustKept(before) ==> TrustKept(after))
  }

  lemma TracedCorrects(kind: CorrectedType, engine: Engine, correctedTo: string, isUserCorrected: bool,
                       mems: map<int, Memory>, id: int, edges: seq<Edge>, fails: int -> bool)
    ensures var t := Traced(engine, mems, id, edges, CorrectionOf(kind, engine, correctedTo, isUserCorrected), fails);
      SourcesCorrected(kind, engine, correctedTo, isUserCorrected, mems, t.mems, id, edges, fails, t.Result(id))
  {
    var correct := CorrectionOf(kind, engine, correctedTo, isUserCorrected);
    TracedBoostsOnce(engine, mems, id, edges, correct, fails);
    TracedDelta(engine, Times(engine.correctionBoost), mems, id, edges, correct, fails);
    CorrectionsRaiseTrust(kind, engine, correctedTo, isUserCorrected, mems, id, edges, fails);
  }

  /** What a correction makes of one source. */
  lemma CorrectionMeans(kind: CorrectedType, engine: Engine, correctedTo: string, isUserCorrected: bool, m: Memory)
    requires kind == SemanticMemory || kind == PitfallMemory
    ensures CorrectionOf(kind, engine, correctedTo, isUserCorrected)(m) == m.(
      weight := m.weight * engine.correctionBoost,
      summary := if kind == SemanticMemory then m.summary + "\n[corrected] " + correctedTo else m.summary,
      trust := if isUserCorrected && m.trust < 5 then m.trust + 1 else m.trust)
  {}

  /** Which memories a correction updates: the stored ones its DERIVED_FROM edges lead out to. */
  lemma UpdatedAreSources(engine: Engine, before: map<int, Memory>, after: map<int, Memory>, id: int, all: seq<Edge>,
                          correct: Memory -> Memory, fails: int -> bool, r: Outcome, k: int)
    requires BoostedOnce(engine, before, after, id, EdgesOf(all, id, Some(DerivedFrom), Both), correct, fails, r)
    ensures k in r.updated + r.failed <==>
      engine.maxTracebackHops >= 1 && k in before && k != id && Edge(id, k, DerivedFrom) in all
    ensures k in r.updated ==> !fails(k)
    ensures k in r.failed ==> fails(k)
  {
    var edges := EdgesOf(all, id, Some(DerivedFrom), Both);
    forall e ensures e in edges <==> e in all && e.kind == DerivedFrom && (e.from == id || e.to == id) {
      EdgesOfMembers(all, id, Some(DerivedFrom), Both, e);
    }
    if Targets(edges, k) && k != id {
      var e :| e in edges && e.to == k;
      assert e == Edge(id, k, DerivedFrom);
    }
    if Edge(id, k, DerivedFrom) in all { assert Edge(id, k, DerivedFrom) in edges; }
  }

  /** Dispatch on the kind of the corrected memory. */
  method Process(engine: Engine, s: Store, id: int, kind: CorrectedType, correctedTo: string, isUserCorrected: bool,
                 now: int, fails: int -> bool)
    returns (r: Result<Outcome, ProcessError>)
    requires Keyed(s.episodics)
    modifies s`episodics
    ensures kind.UnknownType? ==> r == Failure(NoSuchType) && s.episodics == old(s.episodics)
    ensures kind.EpisodicMemory? ==> (r.Success? <==> id in old(s.episodics) && !fails(id))
    ensures kind.EpisodicMemory? && r.Failure? ==> s.episodics == old(s.episodics)
    ensures kind.EpisodicMemory? && r.Success? ==>
      CorrectedItself(engine, old(s.episodics), s.episodics, id, isUserCorrected, now, r.value)
    ensures kind.SemanticMemory? || kind.PitfallMemory? ==>
      r.Success? && SourcesCorrected(kind, engine, correctedTo, isUserCorrected, old(s.episodics), s.episodics, id,
                                     EdgesOf(s.edges, id, Some(DerivedFrom), Both), fails, r.value)
  {
    var scale := Times(engine.correctionBoost);
    ghost var mems, edges := s.episodics, EdgesOf(s.edges, id, Some(DerivedFrom), Both);
    match kind
    case EpisodicMemory => r := ProcessEpisodic(scale, s, id, isUserCorrected, now, fails);
    case SemanticMemory =>
      TracedCorrects(kind, engine, correctedTo, isUserCorrected, mems, id, edges, fails);
      var outcome := ProcessSemantic(engine, scale, s, id, correctedTo, isUserCorrected, fails);
      r := Success(outcome);
    case PitfallMemory =>
      TracedCorrects(kind, engine, correctedTo, isUserCorrected, mems, id, edges, fails);
      var outcome := ProcessPitfall(engine, scale, s, id, isUserCorrected, fails);
      r := Success(outcome);
    case UnknownType => r := Failure(NoSuchType);
  }
}
