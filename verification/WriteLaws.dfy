/**
 What one write does, said about events, memories and texts themselves: which condition lets an event
 pass, what it is appended to, what that memory or a new one then looks like, what gets linked.
 */
module WriteLaws {
  import opened Wrappers
  import opened MemoryStore
  import opened UpdateTracker
  import opened WritePipeline
  import opened UpdateLaws

  // ---------------------------------------------------------------- gate and working memory

  ghost function SameCycles(g: Gate, summary: string, cycles: seq<string>, n: nat): set<int>
    requires n <= |cycles|
  {
    set i | 0 <= i < n && g.same(summary, cycles[i])
  }

  lemma {:induction false} CyclesAreCounted(g: Gate, summary: string, cycles: seq<string>, n: nat)
    requires n <= |cycles|
    ensures g.CountCycles(summary, cycles[..n]) == |SameCycles(g, summary, cycles, n)|
  {
    if n > 0 {
      CyclesAreCounted(g, summary, cycles, n - 1);
      assert cycles[..n][..n - 1] == cycles[..n - 1];
      assert SameCycles(g, summary, cycles, n)
        == SameCycles(g, summary, cycles, n - 1) + if g.same(summary, cycles[n - 1]) then {n - 1} else {};
    }
  }

  /** Which verdict the gate gives, in terms of the number of cycles that say the same. */
  lemma GateVerdict(g: Gate, event: Event, cycles: seq<string>)
    ensures var r := g.Evaluate(event, cycles);
      var repeated := |set i | 0 <= i < |cycles| && g.same(event.summary, cycles[i])| >= g.minCrossCycle;
      var surprising, referenced :=
        event.isCorrection || event.causedBehaviorChange, event.references >= g.minReferences;
      && (r == UserConfirmed <==> event.userConfirmed)
      && (r == CrossCyclePersistence <==> !event.userConfirmed && repeated)
      && (r == PredictionError <==> !event.userConfirmed && !repeated && surprising)
      && (r == SubsequentReference <==> !event.userConfirmed && !repeated && !surprising && referenced)
      && (r == BelowThreshold <==> !event.userConfirmed && !repeated && !surprising && !referenced)
  {
    CyclesAreCounted(g, event.summary, cycles, |cycles|);
    assert cycles[..|cycles|] == cycles;
    assert SameCycles(g, event.summary, cycles, |cycles|)
      == set i | 0 <= i < |cycles| && g.same(event.summary, cycles[i]);
  }

  /** Unless a scorer is set, only unconfirmed corrections and changes of behaviour surprise. */
  lemma DefaultSurprise(cfg: Config, event: Event)
    requires cfg.surprise == None
    ensures cfg.Scorer().Score(event) ==
      if event.userConfirmed then 0.0
      else if event.isCorrection && event.causedBehaviorChange then 1.0
      else if event.isCorrection then 0.7 else if event.causedBehaviorChange then 0.5 else 0.0
  {}

  /** A write that is gated out or fails leaves everything as it was. */
  lemma RejectedChangesNothing(cfg: Config, s: State, event: Event, place: Place, c: Choice)
    requires var r := Write(cfg, s, event, place, c).result; r.Failure? || !r.value.persisted
    ensures Write(cfg, s, event, place, c).state == s
  {}

  function Pushes(b: Buffer, pushed: seq<(string, string)>): Buffer {
    if pushed == [] then b else
    var n := |pushed| - 1;
    Pushes(b, pushed[..n]).Push(pushed[n].0, pushed[n].1)
  }

  /** The summaries pushed for one project, in order. */
  ghost function PushedFor(pushed: seq<(string, string)>, project: string): seq<string> {
    if pushed == [] then [] else
    var n := |pushed| - 1;
    PushedFor(pushed[..n], project) + if pushed[n].0 == project then [pushed[n].1] else []
  }

  /** `held` is the end of `all`, as much of it as fits. */
  ghost predicate EndOf(held: seq<string>, all: seq<string>, maxSize: nat) {
    |held| == (if |all| <= maxSize then |all| else maxSize) && held == all[|all| - |held|..]
  }

  lemma PushKeepsEnd(b: Buffer, all: seq<string>, project: string, to: string, summary: string)
    requires EndOf(b.GetAll(project), all, b.maxSize)
    ensures EndOf(b.Push(to, summary).GetAll(project), all + if to == project then [summary] else [], b.maxSize)
  {
    var held := b.GetAll(project);
    if to == project {
      assert held + [summary] == (all + [summary])[|all| - |held|..];
    } else {
      assert all + [] == all;
    }
  }

  /** Working memory holds, for each project, the last summaries pushed for it, as many as fit. */
  lemma {:induction false} WorkingMemoryHoldsTheLast(maxSize: nat, pushed: seq<(string, string)>, project: string)
    ensures Pushes(Buffer(maxSize, map[]), pushed).maxSize == maxSize
    ensures EndOf(Pushes(Buffer(maxSize, map[]), pushed).GetAll(project), PushedFor(pushed, project), maxSize)
  {
    if pushed != [] {
      var n := |pushed| - 1;
      WorkingMemoryHoldsTheLast(maxSize, pushed[..n], project);
      PushKeepsEnd(Pushes(Buffer(maxSize, map[]), pushed[..n]), PushedFor(pushed[..n], project), project,
        pushed[n].0, pushed[n].1);
    }
  }

  // ---------------------------------------------------------------- appending

  /** The candidate is not retired by the event, is of its place, and is similar enough. */
  ghost predicate Appendable(cfg: Config, event: Event, embedding: seq<real>, place: Place, c: Choice, m: Memory) {
    && m.id !in OldIDs(Judged(cfg, event, place, c)) && m.vector != []
    && m.project == place.project && m.language == place.language && m.entityGroup == place.entity
    && cfg.separation.Some?
    && (if |embedding| == |m.vector| then cfg.cosine(embedding, m.vector) else 0.0) >= cfg.separation.value
  }

  lemma {:induction false} TargetIsFirst(cfg: Config, embedding: seq<real>, place: Place, covered: seq<int>,
                                         found: seq<Memory>) returns (i: nat)
    requires MergeTarget(cfg, embedding, place, covered, found).Some?
    ensures i < |found| && found[i] == MergeTarget(cfg, embedding, place, covered, found).value
    ensures MergeCandidate(cfg, embedding, place, covered, found[i])
    ensures forall j :: 0 <= j < i ==> !MergeCandidate(cfg, embedding, place, covered, found[j])
  {
    if MergeCandidate(cfg, embedding, place, covered, found[0]) {
      i := 0;
    } else {
      i := TargetIsFirst(cfg, embedding, place, covered, found[1..]);
      i := i + 1;
    }
  }

  lemma AppendableMeans(cfg: Config, event: Event, embedding: seq<real>, place: Place, c: Choice, m: Memory)
    ensures Appendable(cfg, event, embedding, place, c, m)
        <==> MergeCandidate(cfg, embedding, place, OldIDs(Judged(cfg, event, place, c)), m)
  {}

  /** A write appends to the first candidate that can be appended to, and creates a memory when there is none. */
  lemma AppendsToFirst(cfg: Config, s: State, event: Event, p: Prepared, embedding: seq<real>, place: Place, c: Choice)
    returns (i: int)
    requires cfg.decay.Some?
    ensures var r := Persist(cfg, s, event, p, embedding, place, c).result;
      r.Success? && r.value.persisted && r.value.reason == p.reason
    ensures var r := Persist(cfg, s, event, p, embedding, place, c).result.value;
      if i < 0 then
        r.action == CreatedNew && r.id == c.id
        && forall m :: m in c.found ==> !Appendable(cfg, event, embedding, place, c, m)
      else
        i < |c.found| && r.action == UpdatedExisting && r.id == c.found[i].id
        && Appendable(cfg, event, embedding, place, c, c.found[i])
        && forall j :: 0 <= j < i ==> !Appendable(cfg, event, embedding, place, c, c.found[j])
  {
    var covered := OldIDs(Judged(cfg, event, place, c));
    forall m ensures Appendable(cfg, event, embedding, place, c, m)
        <==> MergeCandidate(cfg, embedding, place, covered, m)
    {
      AppendableMeans(cfg, event, embedding, place, c, m);
    }
    TargetIsCandidate(cfg, embedding, place, covered, c.found);
    if MergeTarget(cfg, embedding, place, covered, c.found).Some? {
      i := TargetIsFirst(cfg, embedding, place, covered, c.found);
    } else {
      i := -1;
    }
  }

  /** The weight of a carrier: boosted once when it covers something. */
  function CarriedWeight(cfg: Config, weight: real, covered: seq<int>): real {
    if covered == [] then weight else BoostedWeight(weight, cfg.Tracker().WeightBoost())
  }

  lemma CarrierAfterUpdate(cfg: Config, v: View, carrier: Memory, covered: seq<int>, now: int)
    requires carrier.id !in covered
    ensures var w := Carried(cfg, v, carrier, covered, now);
      carrier.id in w.mems && w.mems[carrier.id] == carrier.(weight := CarriedWeight(cfg, carrier.weight, covered))
  {
    if covered != [] { AppliedToCarrier(Put(v, carrier), carrier.id, covered, cfg.Tracker().WeightBoost(), now); }
  }

  /** A memory after an event was appended to it. */
  lemma AppendedMemory(cfg: Config, s: State, event: Event, p: Prepared, embedding: seq<real>, place: Place, c: Choice,
                       m: Memory)
    requires cfg.decay.Some?
    requires MergeTarget(cfg, embedding, place, OldIDs(Judged(cfg, event, place, c)), c.found) == Some(m)
    ensures var w := Persist(cfg, s, event, p, embedding, place, c).state.view.mems;
      var similarity := if |embedding| == |m.vector| then cfg.cosine(embedding, m.vector) else 0.0;
      var weight := if similarity + 0.1 < 0.0 then 0.0 else if similarity + 0.1 > 1.0 then 1.0 else similarity + 0.1;
      var at := if m.occurredAt == 0 then m.createdAt else m.occurredAt;
      && m.id in w
      && w[m.id] == m.(
           summary := m.summary + "\n" + event.summary, lastAccessed := Some(c.now),
           occurredAt := if event.occurredAt != 0 && event.occurredAt < at then event.occurredAt else m.occurredAt,
           isCorrection := m.isCorrection || event.isCorrection,
           surprise := if p.surprise > m.surprise then p.surprise else m.surprise,
           weight := CarriedWeight(cfg, weight, OldIDs(Judged(cfg, event, place, c))))
  {
    var covered := OldIDs(Judged(cfg, event, place, c));
    TargetIsCandidate(cfg, embedding, place, covered, c.found);
    CarrierAfterUpdate(cfg, s.view, Merged(cfg, event, p, embedding, c.now, m), covered, c.now);
  }

  /** A new memory, and what its creation leaves in working memory. */
  lemma CreatedMemory(cfg: Config, s: State, event: Event, p: Prepared, embedding: seq<real>, place: Place, c: Choice)
    requires cfg.decay.Some? && c.id !in OldIDs(Judged(cfg, event, place, c))
    requires MergeTarget(cfg, embedding, place, OldIDs(Judged(cfg, event, place, c)), c.found) == None
    ensures var covered := OldIDs(Judged(cfg, event, place, c));
      var t := Persist(cfg, s, event, p, embedding, place, c).state;
      && c.id in t.view.mems && (var m := t.view.mems[c.id];
        && m.id == c.id && m.summary == event.summary && m.vector == embedding && m.trust == 3
        && m.project == place.project && m.language == place.language && m.taskType == place.taskType
        && m.entityGroup == place.entity && m.createdAt == c.now
        && m.occurredAt == (if event.occurredAt == 0 then c.now else event.occurredAt)
        && m.obsoletedAt == None && m.lastAccessed == None
        && m.isCorrection == event.isCorrection && m.surprise == p.surprise
        && m.effFreq == cfg.decay.value(c.now).0
        && m.weight == CarriedWeight(cfg, cfg.decay.value(c.now).1, covered))
      && (s.buffer.Some? ==> t.buffer == Some(s.buffer.value.Push(place.project, event.summary)))
  {
    var covered := OldIDs(Judged(cfg, event, place, c));
    CarrierAfterUpdate(cfg, s.view, Created(cfg, event, p, embedding, place, c.now, c.id), covered, c.now);
  }

  /** The weight reported is the weight stored. */
  lemma ReportedWeightIsStored(cfg: Config, s: State, event: Event, p: Prepared, embedding: seq<real>, place: Place,
                               c: Choice)
    requires cfg.decay.Some? && c.id !in OldIDs(Judged(cfg, event, place, c))
    ensures var o := Persist(cfg, s, event, p, embedding, place, c);
      o.result.value.id in o.state.view.mems && o.state.view.mems[o.result.value.id].weight == o.result.value.weight
  {
    var covered := OldIDs(Judged(cfg, event, place, c));
    TargetIsCandidate(cfg, embedding, place, covered, c.found);
    match MergeTarget(cfg, embedding, place, covered, c.found)
    case Some(m) => CarrierAfterUpdate(cfg, s.view, Merged(cfg, event, p, embedding, c.now, m), covered, c.now);
    case None =>
      CarrierAfterUpdate(cfg, s.view, Created(cfg, event, p, embedding, place, c.now, c.id), covered, c.now);
  }

  // ---------------------------------------------------------------- searches and links

  /** A write looks at the five most similar active memories of the project, at most. */
  lemma CandidatesAreNearest(cfg: Config, s: State, event: Event, p: Prepared, embedding: seq<real>, place: Place,
                             c: Choice, k: int)
    requires cfg.decay.Some? && ValidChoice(cfg, s, event, p, embedding, place, c) && embedding != []
    requires k in s.view.mems && s.view.mems[k] !in c.found && place.project != ""
    requires var m := s.view.mems[k];
      m.project == place.project && m.obsoletedAt == None && m.weight >= 0.0 && |m.vector| == |embedding|
    ensures |c.found| == 5
    ensures forall m :: m in c.found ==> cfg.cosine(embedding, m.vector) >= cfg.cosine(embedding, s.view.mems[k].vector)
  {
    var q := CandidateQuery(place.project, embedding);
    assert Eligible(q, s.view.mems[k]) && |c.found| == 5;
    forall m | m in c.found ensures cfg.cosine(embedding, m.vector) >= cfg.cosine(embedding, s.view.mems[k].vector) {
      NearestAreReported(cfg.cosine, s.view.mems, q, c.found, k, m);
    }
  }

  /** The links of a new memory: one to each related memory reported, other than itself, and no other. */
  lemma {:induction false} LinksMean(cfg: Config, id: int, summary: string, related: seq<Memory>, e: Edge)
    ensures e in Links(cfg, id, summary, related) <==>
      exists m :: m in related && m.id != id && cfg.related(summary, m.summary).Some? && e == Edge(id, m.id, RelatesTo)
  {
    if related != [] {
      var n := |related| - 1;
      LinksMean(cfg, id, summary, related[..n], e);
      assert related == related[..n] + [related[n]];
    }
  }
}
