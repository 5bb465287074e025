/**
 The write pipeline: significance gate, similarity search, coverage judgement, merge or create,
 retirement of what is covered, links to related memories.
 */
module WritePipeline {
  import opened Wrappers
  import opened SortSlice
  import opened MemoryStore
  import opened UpdateTracker

  // ---------------------------------------------------------------- working memory

  /** The most recent accepted summaries of each project, oldest first. */
  datatype Buffer = Buffer(maxSize: nat, cycles: map<string, seq<string>>)
  {
    function GetAll(project: string): seq<string> {
      if project in cycles then cycles[project] else []
    }

    function Push(project: string, summary: string): Buffer {
      var all := GetAll(project) + [summary];
      Buffer(maxSize, cycles[project := if |all| <= maxSize then all else all[|all| - maxSize..]])
    }
  }

  class WorkingMemoryBuffer {
    var contents: Buffer

    constructor (maxSize: int)
      ensures contents == Buffer(if maxSize <= 0 then 20 else maxSize, map[])
    {
      contents := Buffer(if maxSize <= 0 then 20 else maxSize, map[]);
    }

    method Push(project: string, summary: string)
      modifies this
      ensures contents == old(contents).Push(project, summary)
    {
      contents := contents.Push(project, summary);
    }
  }

  // ---------------------------------------------------------------- gate

  datatype Event = Event(
    summary: string, userConfirmed: bool, isCorrection: bool, causedBehaviorChange: bool, references: int,
      occurredAt: int)

  datatype Reason =
    UserConfirmed | CrossCyclePersistence | PredictionError | SubsequentReference | BelowThreshold | EmptyMessage

  /** `same` judges that two summaries carry the same information. */
  datatype Gate = Gate(minCrossCycle: int, minReferences: int, same: (string, string) -> bool)
  {
    function CountCycles(summary: string, cycles: seq<string>): nat {
      if cycles == [] then 0 else
      var n := |cycles| - 1;
      CountCycles(summary, cycles[..n]) + if same(summary, cycles[n]) then 1 else 0
    }

    /** The first of four sufficient conditions, or below the threshold. */
    function Evaluate(event: Event, cycles: seq<string>): Reason {
      if event.userConfirmed then UserConfirmed
      else if CountCycles(event.summary, cycles) >= minCrossCycle then CrossCyclePersistence
      else if event.isCorrection || event.causedBehaviorChange then PredictionError
      else if event.references >= minReferences then SubsequentReference
      else BelowThreshold
    }
  }

  datatype SurpriseScorer = SurpriseScorer(correction: real, behaviorChange: real)
  {
    function Score(event: Event): real {
      if event.userConfirmed then 0.0 else
      var surprise := (if event.isCorrection then correction else 0.0)
        + (if event.causedBehaviorChange then behaviorChange else 0.0);
      if surprise > 1.0 then 1.0 else surprise
    }
  }

  const DEFAULT_SCORER := SurpriseScorer(0.7, 0.5)

  // ---------------------------------------------------------------- configuration and state

  /**
   The pipeline's parts; `embed` has no value when embedding fails, `related` none when two
   summaries are not related enough to link, and `decay` gives a fresh memory's frequency and weight.
   */
  datatype Config = Config(
    gate: Option<Gate>, separation: Option<real>, decay: Option<int -> (real, real)>,
      embed: string -> Option<seq<real>>,
    surprise: Option<SurpriseScorer>, skipLink: bool, tracker: Option<Tracker>,
    language: Language, cosine: Cosine, related: (string, string) -> Option<real>)
  {
    function Tracker(): Tracker { if tracker.Some? then tracker.value else DEFAULT_TRACKER }
    function Scorer(): SurpriseScorer { if surprise.Some? then surprise.value else DEFAULT_SCORER }
  }

  datatype Deps = Deps(store: Store?, workingMem: WorkingMemoryBuffer?, config: Config)

  datatype State = State(view: View, buffer: Option<Buffer>, pitfalls: map<int, Pitfall>)

  function StateOf(deps: Deps): State
    requires deps.store != null
    reads deps.store, deps.workingMem
  {
    State(ViewOf(deps.store), if deps.workingMem == null then None
      else Some(deps.workingMem.contents), deps.store.pitfalls)
  }

  /** Where a memory belongs: what separates patterns besides similarity. */
  datatype Place = Place(project: string, language: string, entity: string, taskType: string)
  {
    /** A debug session about an entity is linked to the entity's pitfalls. */
    predicate Anchored() { taskType == "debug" && entity != "" }
  }

  /** What the pipeline does not decide: the clock, the fresh identifier, and how searches break ties. */
  datatype Choice = Choice(now: int, id: int, found: seq<Memory>, related: seq<Memory>, pitfalls: seq<int>)

  datatype MergeAction = NoAction | CreatedNew | UpdatedExisting

  datatype WriteResult = WriteResult(id: int, persisted: bool, reason: Reason, action: MergeAction, weight: real)

  datatype WriteError = NoGate | NoStore | NoPatternSeparation | NoWeightDecay | EmbedFailed | PersistFailed

  datatype Prepared = Prepared(reason: Reason, surprise: real)
  {
    predicate ShouldPersist() { reason != BelowThreshold }
  }

  // ---------------------------------------------------------------- one write, as a function

  function Prepare(cfg: Config, s: State, event: Event, project: string): Result<Prepared, WriteError> {
    if cfg.gate.None? then Failure(NoGate)
    else if cfg.separation.None? then Failure(NoPatternSeparation)
    else if cfg.decay.None? then Failure(NoWeightDecay)
    else Success(Prepared(cfg.gate.value.Evaluate(event, if s.buffer.Some? then s.buffer.value.GetAll(project) else []),
                          cfg.Scorer().Score(event)))
  }

  function Similarity(cfg: Config, a: seq<real>, b: seq<real>): real {
    if a == [] || |a| != |b| then 0.0 else cfg.cosine(a, b)
  }

  /** The new event as the side that may cover older memories. */
  function Newcomer(event: Event, place: Place, now: int): Statement {
    Statement(NIL_ID, event.summary, place.entity, if event.occurredAt == 0 then now else event.occurredAt)
  }

  function Judged(cfg: Config, event: Event, place: Place, c: Choice): seq<UpdatePair> {
    Detected(cfg.language, cfg.Tracker(), Newcomer(event, place, c.now), c.found)
  }

  /** Pattern separation: similar enough, and the same project, language and entity. */
  predicate ShouldMerge(cfg: Config, embedding: seq<real>, place: Place, m: Memory) {
    && cfg.separation.Some? && Similarity(cfg, embedding, m.vector) >= cfg.separation.value
    && place.project == m.project && place.language == m.language && place.entity == m.entityGroup
  }

  predicate MergeCandidate(cfg: Config, embedding: seq<real>, place: Place, covered: seq<int>, m: Memory) {
    m.id !in covered && m.vector != [] && ShouldMerge(cfg, embedding, place, m)
  }

  /** The first candidate to append to. */
  function MergeTarget(cfg: Config, embedding: seq<real>, place: Place, covered: seq<int>,
                       found: seq<Memory>): Option<Memory> {
    if found == [] then None
    else if MergeCandidate(cfg, embedding, place, covered, found[0]) then Some(found[0])
    else MergeTarget(cfg, embedding, place, covered, found[1..])
  }

  function Merged(cfg: Config, event: Event, p: Prepared, embedding: seq<real>, now: int, m: Memory): Memory {
    m.(summary := m.summary + "\n" + event.summary,
       weight := ClampWeight(Similarity(cfg, embedding, m.vector) + 0.1),
       lastAccessed := Some(now),
       occurredAt := if event.occurredAt != 0 && event.occurredAt < m.EffectiveOccurredAt() then event.occurredAt
         else m.occurredAt,
       isCorrection := m.isCorrection || event.isCorrection,
       surprise := if p.surprise > m.surprise then p.surprise else m.surprise)
  }

  const DEFAULT_TRUST := 3

  function Created(cfg: Config, event: Event, p: Prepared, embedding: seq<real>, place: Place, now: int,
                   id: int): Memory
    requires cfg.decay.Some?
  {
    var initial := cfg.decay.value(now);
    Memory(id, place.project, place.language, place.taskType, event.summary, DEFAULT_TRUST, initial.1, initial.0, now,
      None, None,
           place.entity, embedding, event.isCorrection, p.surprise, if event.occurredAt == 0 then now
             else event.occurredAt)
  }

  function Put(v: View, m: Memory): View {
    v.(mems := v.mems[m.id := m])
  }

  function CarrierWeight(cfg: Config, carrier: Memory, covered: seq<int>): real {
    if covered == [] then carrier.weight else BoostedWeight(carrier.weight, cfg.Tracker().WeightBoost())
  }

  /** The store after `carrier` was written and what it covers retired. */
  function Carried(cfg: Config, v: View, carrier: Memory, covered: seq<int>, now: int): View {
    Applied(Put(v, carrier), carrier, covered, cfg.Tracker().WeightBoost(), now)
  }

  function Links(cfg: Config, id: int, summary: string, related: seq<Memory>): seq<Edge> {
    if related == [] then [] else
    var n := |related| - 1;
    Links(cfg, id, summary, related[..n])
    + if related[n].id != id && cfg.related(summary, related[n].summary).Some?
      then [Edge(id, related[n].id, RelatesTo)] else []
  }

  function Triggers(id: int, pitfalls: seq<int>): (edges: seq<Edge>)
    ensures |edges| == |pitfalls| && forall i :: 0 <= i < |edges| ==>
        edges[i] == Edge(id, pitfalls[i], TriggeredPitfall)
  {
    seq(|pitfalls|, i requires 0 <= i < |pitfalls| => Edge(id, pitfalls[i], TriggeredPitfall))
  }

  /** The edges a new memory gets, in order. */
  function AllLinks(cfg: Config, id: int, summary: string, place: Place, related: seq<Memory>,
                    pitfalls: seq<int>): seq<Edge> {
    Links(cfg, id, summary, related) + if place.Anchored() then Triggers(id, pitfalls) else []
  }

  /** One more occurrence of each listed pitfall. */
  function Touched(all: map<int, Pitfall>, ids: seq<int>, now: int): map<int, Pitfall> {
    map k | k in all :: if k in ids then all[k].(lastOccurred := Some(now), occurrences := all[k].occurrences + 1)
      else all[k]
  }

  datatype Outcome = Outcome(state: State, result: Result<WriteResult, WriteError>)

  function Persist(cfg: Config, s: State, event: Event, p: Prepared, embedding: seq<real>, place: Place,
                   c: Choice): Outcome
    requires cfg.decay.Some?
  {
    var covered := OldIDs(Judged(cfg, event, place, c));
    match MergeTarget(cfg, embedding, place, covered, c.found)
    case Some(m) =>
      var carrier := Merged(cfg, event, p, embedding, c.now, m);
      Outcome(s.(view := Carried(cfg, s.view, carrier, covered, c.now)),
              Success(WriteResult(carrier.id, true, p.reason, UpdatedExisting, CarrierWeight(cfg, carrier, covered))))
    case None =>
      var carrier := Created(cfg, event, p, embedding, place, c.now, c.id);
      var v := Carried(cfg, s.view, carrier, covered, c.now);
      Outcome(State(if cfg.skipLink then v
        else v.(edges := v.edges + AllLinks(cfg, c.id, event.summary, place, c.related, c.pitfalls)),
                    if s.buffer.Some? then Some(s.buffer.value.Push(place.project, event.summary)) else None,
                    if cfg.skipLink || !place.Anchored() then s.pitfalls else Touched(s.pitfalls, c.pitfalls, c.now)),
              Success(WriteResult(carrier.id, true, p.reason, CreatedNew, CarrierWeight(cfg, carrier, covered))))
  }

  function GatedOut(reason: Reason): WriteResult {
    WriteResult(NIL_ID, false, reason, NoAction, 0.0)
  }

  /** A write that embeds the summary itself. */
  function Write(cfg: Config, s: State, event: Event, place: Place, c: Choice): Outcome {
    match Prepare(cfg, s, event, place.project)
    case Failure(e) => Outcome(s, Failure(e))
    case Success(p) =>
      if !p.ShouldPersist() then Outcome(s, Success(GatedOut(p.reason)))
      else match cfg.embed(event.summary)
      case None => Outcome(s, Failure(EmbedFailed))
      case Some(embedding) => Persist(cfg, s, event, p, embedding, place, c)
  }

  /** A write that is handed the embedding. */
  function WriteEmbedded(cfg: Config, s: State, event: Event, embedding: seq<real>, place: Place, c: Choice): Outcome {
    match Prepare(cfg, s, event, place.project)
    case Failure(e) => Outcome(s, Failure(e))
    case Success(p) =>
      if !p.ShouldPersist() then Outcome(s, Success(GatedOut(p.reason)))
      else if embedding == [] then Outcome(s, Failure(EmbedFailed))
      else Persist(cfg, s, event, p, embedding, place, c)
  }

  function CandidateQuery(project: string, embedding: seq<real>): Query {
    ProjectQuery(project, embedding, 5, false)
  }

  function LinkQuery(project: string): Query {
    ProjectQuery(project, [], 20, false)
  }

  /** The identifier is fresh and the searches answered from the store as it was when they ran. */
  ghost predicate ValidChoice(cfg: Config, s: State, event: Event, p: Prepared, embedding: seq<real>, place: Place,
                              c: Choice)
    requires cfg.decay.Some?
  {
    var covered := OldIDs(Judged(cfg, event, place, c));
    && c.id !in s.view.mems && c.id != NIL_ID
    && ValidAnswer(cfg.cosine, s.view.mems, CandidateQuery(place.project, embedding), c.found)
    && (MergeTarget(cfg, embedding, place, covered, c.found).None? && !cfg.skipLink ==>
          && ValidAnswer(cfg.cosine,
            Carried(cfg, s.view, Created(cfg, event, p, embedding, place, c.now, c.id), covered, c.now).mems,
                         LinkQuery(place.project), c.related)
          && (place.Anchored() ==> PitfallAnswer(s.pitfalls, place.entity, place.project, c.pitfalls)))
  }

  // ---------------------------------------------------------------- the pipeline itself

  method EvaluateGate(g: Gate, event: Event, cycles: seq<string>) returns (reason: Reason)
    ensures reason == g.Evaluate(event, cycles)
  {
    if event.userConfirmed { return UserConfirmed; }
    var count := 0;
    for i := 0 to |cycles|
      invariant count == g.CountCycles(event.summary, cycles[..i])
    {
      assert cycles[..i + 1][..i] == cycles[..i];
      if g.same(event.summary, cycles[i]) { count := count + 1; }
    }
    assert cycles[..|cycles|] == cycles;
    if count >= g.minCrossCycle { return CrossCyclePersistence; }
    if event.isCorrection || event.causedBehaviorChange { return PredictionError; }
    if event.references >= g.minReferences { return SubsequentReference; }
    return BelowThreshold;
  }

  method PrepareWriteEvent(deps: Deps, event: Event, project: string) returns (r: Result<Prepared, WriteError>)
    ensures deps.store == null ==> r == Failure(if deps.config.gate.None? then NoGate else NoStore)
    ensures deps.store != null ==> r == Prepare(deps.config, StateOf(deps), event, project)
  {
    var cfg := deps.config;
    if cfg.gate.None? { return Failure(NoGate); }
    if deps.store == null { return Failure(NoStore); }
    if cfg.separation.None? { return Failure(NoPatternSeparation); }
    if cfg.decay.None? { return Failure(NoWeightDecay); }
    var cycles := [];
    if deps.workingMem != null { cycles := deps.workingMem.contents.GetAll(project); }
    var reason := EvaluateGate(cfg.gate.value, event, cycles);
    return Success(Prepared(reason, cfg.Scorer().Score(event)));
  }

  /** Find the first candidate to append to, skipping those the event covers. */
  method FindMergeTarget(cfg: Config, embedding: seq<real>, place: Place, covered: seq<int>, found: seq<Memory>)
    returns (target: Option<Memory>)
    ensures target == MergeTarget(cfg, embedding, place, covered, found)
  {
    for i := 0 to |found|
      invariant MergeTarget(cfg, embedding, place, covered, found)
          == MergeTarget(cfg, embedding, place, covered, found[i..])
    {
      var candidate := found[i];
      assert found[i..][1..] == found[i + 1..];
      if candidate.id in covered || candidate.vector == [] { continue; }
      if ShouldMerge(cfg, embedding, place, candidate) { return Some(candidate); }
    }
    return None;
  }

  method ApplyUpdateActions(s: Store, cfg: Config, carrier: Memory, covered: seq<UpdatePair>, now: int)
    returns (r: Result<real, UpdateError>)
    requires carrier.id in s.episodics && carrier.id !in OldIDs(covered)
    requires forall k :: k in OldIDs(covered) ==> k in s.episodics
    modifies s`episodics, s`edges
    ensures r == Success(CarrierWeight(cfg, carrier, OldIDs(covered)))
    ensures ViewOf(s) == Applied(old(ViewOf(s)), carrier, OldIDs(covered), cfg.Tracker().WeightBoost(), now)
  {
    if |covered| == 0 { return Success(carrier.weight); }
    assert |OldIDs(covered)| > 0;
    AllPairsApply(s.episodics, carrier.id, covered);
    var applied := ApplyUpdate(s, cfg.Tracker(), carrier, covered, now);
    assert applied.Success?;
    return Success(applied.value.carrierWeight);
  }

  /** RELATES_TO edges to related memories. */
  method LinkRelated(s: Store, cfg: Config, id: int, summary: string, project: string)
    returns (ghost found: seq<Memory>)
    requires Keyed(s.episodics)
    modifies s`edges
    ensures ValidAnswer(s.cosine, s.episodics, LinkQuery(project), found)
    ensures s.edges == old(s.edges) + Links(cfg, id, summary, found)
  {
    var related := s.SearchEpisodic(LinkQuery(project));
    assert old(s.edges) + Links(cfg, id, summary, []) == old(s.edges);
    for i := 0 to |related|
      invariant s.edges == old(s.edges) + Links(cfg, id, summary, related[..i])
    {
      var r := related[i];
      assert related[..i + 1][..i] == related[..i];
      if r.id == id { continue; }
      var strength := cfg.related(summary, r.summary);
      if strength.None? { continue; }
      s.CreateEdge(id, r.id, RelatesTo);
    }
    assert related[..|related|] == related;
    found := related;
  }

  lemma TouchedOneMore(all: map<int, Pitfall>, ids: seq<int>, k: int, now: int)
    requires k in all && k !in ids
    ensures var t := Touched(all, ids, now);
      k in t && Touched(all, ids + [k], now)
        == t[k := t[k].(lastOccurred := Some(now), occurrences := t[k].occurrences + 1)]
  {
    var t := Touched(all, ids, now);
    assert Touched(all, ids + [k], now)
      == t[k := t[k].(lastOccurred := Some(now), occurrences := t[k].occurrences + 1)];
  }

  /** TRIGGERED_PITFALL edges to the pitfalls of the entity, each of which has occurred once more. */
  method LinkPitfalls(s: Store, id: int, entityID: string, project: string, now: int) returns (ghost found: seq<int>)
    modifies s`edges, s`pitfalls
    ensures PitfallAnswer(old(s.pitfalls), entityID, project, found)
    ensures s.edges == old(s.edges) + Triggers(id, found)
    ensures s.pitfalls == Touched(old(s.pitfalls), found, now)
  {
    ghost var all := s.pitfalls;
    var pitfalls := s.SearchPitfallByEntity(entityID, project);
    assert Touched(all, [], now) == all && s.edges + Triggers(id, []) == s.edges;
    for i := 0 to |pitfalls|
      invariant s.edges == old(s.edges) + Triggers(id, pitfalls[..i])
      invariant s.pitfalls == Touched(all, pitfalls[..i], now)
    {
      var k := pitfalls[i];
      assert k in pitfalls && pitfalls[..i + 1] == pitfalls[..i] + [k];
      assert Triggers(id, pitfalls[..i + 1]) == Triggers(id, pitfalls[..i]) + [Edge(id, k, TriggeredPitfall)];
      TouchedOneMore(all, pitfalls[..i], k, now);
      s.CreateEdge(id, k, TriggeredPitfall);
      var ok := s.TouchPitfall(k, now);
    }
    assert pitfalls[..|pitfalls|] == pitfalls;
    found := pitfalls;
  }

  /** Exactly the active pitfalls of the entity have occurred once more, however they were listed. */
  lemma EachPitfallOccursOnce(all: map<int, Pitfall>, entityID: string, project: string, ids: seq<int>, now: int)
    requires PitfallAnswer(all, entityID, project, ids)
    ensures Touched(all, ids, now).Keys == all.Keys
    ensures forall k :: k in all ==>
      Touched(all, ids, now)[k] ==
        if all[k].entityID == entityID && all[k].project == project && all[k].active
          then all[k].(lastOccurred := Some(now), occurrences := all[k].occurrences + 1) else all[k]
  {}

  /** Link a new memory to related memories and, from a debug session, to the pitfalls of its entity. */
  method LinkOnWrite(s: Store, cfg: Config, id: int, summary: string, place: Place, now: int)
    returns (ghost related: seq<Memory>, ghost pitfalls: seq<int>)
    requires Keyed(s.episodics)
    modifies s`edges, s`pitfalls
    ensures ValidAnswer(s.cosine, s.episodics, LinkQuery(place.project), related)
    ensures place.Anchored() ==> PitfallAnswer(old(s.pitfalls), place.entity, place.project, pitfalls)
    ensures s.edges == old(s.edges) + AllLinks(cfg, id, summary, place, related, pitfalls)
    ensures s.pitfalls == if place.Anchored() then Touched(old(s.pitfalls), pitfalls, now) else old(s.pitfalls)
  {
    related := LinkRelated(s, cfg, id, summary, place.project);
    pitfalls := [];
    if place.taskType == "debug" && place.entity != "" {
      pitfalls := LinkPitfalls(s, id, place.entity, place.project, now);
    }
  }

  /** What the judgement over search results names: stored memories, and none of them the nil identifier. */
  lemma JudgedAreStored(cfg: Config, s: State, event: Event, place: Place, embedding: seq<real>, c: Choice)
    requires Keyed(s.view.mems)
    requires ValidAnswer(cfg.cosine, s.view.mems, CandidateQuery(place.project, embedding), c.found)
    ensures var covered := OldIDs(Judged(cfg, event, place, c));
      && Distinct(covered) && forall k :: k in covered ==> k in s.view.mems && s.view.mems[k].Active()
  {
    AnswerIDs(cfg.cosine, s.view, CandidateQuery(place.project, embedding), c.found);
    DetectedAreCovered(cfg.language, cfg.Tracker(), Newcomer(event, place, c.now), c.found);
  }

  /** The merge target is a candidate outside what is covered. */
  lemma {:induction false} TargetIsCandidate(cfg: Config, embedding: seq<real>, place: Place, covered: seq<int>,
                                             found: seq<Memory>)
    ensures var target := MergeTarget(cfg, embedding, place, covered, found);
      if target.Some? then target.value in found && MergeCandidate(cfg, embedding, place, covered, target.value)
      else forall m :: m in found ==> !MergeCandidate(cfg, embedding, place, covered, m)
  {
    if found != [] && !MergeCandidate(cfg, embedding, place, covered, found[0]) {
      TargetIsCandidate(cfg, embedding, place, covered, found[1..]);
    }
  }

  method AppendToExisting(deps: Deps, event: Event, p: Prepared, embedding: seq<real>, place: Place,
                          covered: seq<UpdatePair>, m: Memory, now: int)
    returns (r: Result<WriteResult, WriteError>)
    requires deps.store != null && Stored(deps.store.episodics, m) && m.id !in OldIDs(covered)
    requires forall k :: k in OldIDs(covered) ==> k in deps.store.episodics
    modifies deps.store`episodics, deps.store`edges
    ensures var cfg, ids := deps.config, OldIDs(covered);
      var carrier := Merged(cfg, event, p, embedding, now, m);
      && StateOf(deps) == old(StateOf(deps)).(view := Carried(cfg, old(StateOf(deps)).view, carrier, ids, now))
      && r == Success(WriteResult(m.id, true, p.reason, UpdatedExisting, CarrierWeight(cfg, carrier, ids)))
  {
    var cfg, store := deps.config, deps.store;
    var existing := m;
    existing := existing.(summary := existing.summary + "\n" + event.summary);
    existing := existing.(weight := ClampWeight(Similarity(cfg, embedding, m.vector) + 0.1));
    existing := existing.(lastAccessed := Some(now));
    if event.occurredAt != 0 && event.occurredAt < existing.EffectiveOccurredAt() {
      existing := existing.(occurredAt := event.occurredAt);
    }
    if event.isCorrection { existing := existing.(isCorrection := true); }
    if p.surprise > existing.surprise { existing := existing.(surprise := p.surprise); }
    assert existing == Merged(cfg, event, p, embedding, now, m);
    store.WriteEpisodic(existing);
    var weight := ApplyUpdateActions(store, cfg, existing, covered, now);
    return Success(WriteResult(existing.id, true, p.reason, UpdatedExisting, weight.value));
  }

  method CreateNew(deps: Deps, event: Event, p: Prepared, embedding: seq<real>, place: Place, covered: seq<UpdatePair>,
                   now: int, id: int)
    returns (r: Result<WriteResult, WriteError>, ghost related: seq<Memory>, ghost pitfalls: seq<int>)
    requires deps.store != null && Keyed(deps.store.episodics) && deps.config.decay.Some? &&
        deps.store.cosine == deps.config.cosine
    requires id !in deps.store.episodics && id != NIL_ID
    requires forall k :: k in OldIDs(covered) ==> k in deps.store.episodics
    modifies deps.store, deps.workingMem
    ensures var cfg, ids, s := deps.config, OldIDs(covered), old(StateOf(deps));
      var carrier := Created(cfg, event, p, embedding, place, now, id);
      var v := Carried(cfg, s.view, carrier, ids, now);
      && (!cfg.skipLink ==> ValidAnswer(cfg.cosine, v.mems, LinkQuery(place.project), related))
      && (!cfg.skipLink && place.Anchored() ==> PitfallAnswer(s.pitfalls, place.entity, place.project, pitfalls))
      && StateOf(deps).view == (if cfg.skipLink then v
        else v.(edges := v.edges + AllLinks(cfg, id, event.summary, place, related, pitfalls)))
      && StateOf(deps).pitfalls
        == (if cfg.skipLink || !place.Anchored() then s.pitfalls else Touched(s.pitfalls, pitfalls, now))
      && StateOf(deps).buffer
        == (if s.buffer.Some? then Some(s.buffer.value.Push(place.project, event.summary)) else None)
      && r == Success(WriteResult(id, true, p.reason, CreatedNew, CarrierWeight(cfg, carrier, ids)))
  {
    var cfg, store := deps.config, deps.store;
    related, pitfalls := [], [];
    var mem := Created(cfg, event, p, embedding, place, now, id);
    store.WriteEpisodic(mem);
    var weight := ApplyUpdateActions(store, cfg, mem, covered, now);
    if !cfg.skipLink {
      related, pitfalls := LinkOnWrite(store, cfg, id, event.summary, place, now);
    }
    if deps.workingMem != null {
      deps.workingMem.Push(place.project, event.summary);
    }
    return Success(WriteResult(id, true, p.reason, CreatedNew, weight.value)), related, pitfalls;
  }

  /** The half of the pipeline after embedding. */
  method WriteMemoryPersist(deps: Deps, event: Event, p: Prepared, embedding: seq<real>, place: Place, now: int,
                            id: int)
    returns (r: Result<WriteResult, WriteError>, ghost c: Choice)
    requires deps.store != null && Keyed(deps.store.episodics) && deps.config.decay.Some? &&
        deps.store.cosine == deps.config.cosine
    requires id !in deps.store.episodics && id != NIL_ID
    modifies deps.store, deps.workingMem
    ensures c.now == now && c.id == id
    ensures ValidChoice(deps.config, old(StateOf(deps)), event, p, embedding, place, c)
    ensures Outcome(StateOf(deps), r) == Persist(deps.config, old(StateOf(deps)), event, p, embedding, place, c)
  {
    var cfg, store := deps.config, deps.store;
    ghost var s := StateOf(deps);
    var candidates := store.SearchEpisodic(CandidateQuery(place.project, embedding));
    c := Choice(now, id, candidates, [], []);
    var covered := DetectUpdate(cfg.language, cfg.Tracker(), Newcomer(event, place, now), candidates);
    JudgedAreStored(cfg, s, event, place, embedding, c);
    var coveredIDs := OldIDs(covered);
    var target := FindMergeTarget(cfg, embedding, place, coveredIDs, candidates);
    TargetIsCandidate(cfg, embedding, place, coveredIDs, candidates);
    if target.Some? {
      r := AppendToExisting(deps, event, p, embedding, place, covered, target.value, now);
    } else {
      ghost var related, pitfalls;
      r, related, pitfalls := CreateNew(deps, event, p, embedding, place, covered, now, id);
      c := Choice(now, id, candidates, related, pitfalls);
    }
  }

  method WriteMemory(deps: Deps, event: Event, place: Place, now: int, id: int)
    returns (r: Result<WriteResult, WriteError>, ghost c: Choice)
    requires deps.store != null ==>
        Keyed(deps.store.episodics) && deps.store.cosine == deps.config.cosine && id !in deps.store.episodics
    requires id != NIL_ID
    modifies deps.store, deps.workingMem
    ensures c.now == now && c.id == id
    ensures deps.store == null ==> r == Failure(if deps.config.gate.None? then NoGate else NoStore)
    ensures deps.store != null ==>
      && Outcome(StateOf(deps), r) == Write(deps.config, old(StateOf(deps)), event, place, c)
      && LegalWrite(deps.config, old(StateOf(deps)), event, deps.config.embed(event.summary), place, c)
  {
    c := Choice(now, id, [], [], []);
    var prepared := PrepareWriteEvent(deps, event, place.project);
    if prepared.Failure? { return Failure(prepared.error), c; }
    if !prepared.value.ShouldPersist() { return Success(GatedOut(prepared.value.reason)), c; }
    var embedding := deps.config.embed(event.summary);
    if embedding.None? { return Failure(EmbedFailed), c; }
    r, c := WriteMemoryPersist(deps, event, prepared.value, embedding.value, place, now, id);
  }

  method WriteMemoryWithEmbedding(deps: Deps, event: Event, embedding: seq<real>, place: Place, now: int, id: int)
    returns (r: Result<WriteResult, WriteError>, ghost c: Choice)
    requires deps.store != null ==>
        Keyed(deps.store.episodics) && deps.store.cosine == deps.config.cosine && id !in deps.store.episodics
    requires id != NIL_ID
    modifies deps.store, deps.workingMem
    ensures c.now == now && c.id == id
    ensures deps.store == null ==> r == Failure(if deps.config.gate.None? then NoGate else NoStore)
    ensures deps.store != null ==>
      && Outcome(StateOf(deps), r) == WriteEmbedded(deps.config, old(StateOf(deps)), event, embedding, place, c)
      && LegalWrite(deps.config, old(StateOf(deps)), event, if embedding == [] then None else Some(embedding), place, c)
  {
    c := Choice(now, id, [], [], []);
    var prepared := PrepareWriteEvent(deps, event, place.project);
    if prepared.Failure? { return Failure(prepared.error), c; }
    if !prepared.value.ShouldPersist() { return Success(GatedOut(prepared.value.reason)), c; }
    if |embedding| == 0 { return Failure(EmbedFailed), c; }
    r, c := WriteMemoryPersist(deps, event, prepared.value, embedding, place, now, id);
  }

  /** A choice the pipeline could make, when the write gets as far as the store. */
  ghost predicate LegalWrite(cfg: Config, s: State, event: Event, embedding: Option<seq<real>>, place: Place,
                             c: Choice) {
    var prepared := Prepare(cfg, s, event, place.project);
    prepared.Success? && prepared.value.ShouldPersist() && embedding.Some? ==>
      ValidChoice(cfg, s, event, prepared.value, embedding.value, place, c)
  }

  /** Handing over the vector the embedder would give makes no difference. */
  lemma PrecomputedEmbeddingAgrees(cfg: Config, s: State, event: Event, embedding: seq<real>, place: Place, c: Choice)
    requires cfg.embed(event.summary) == Some(embedding) && embedding != []
    ensures WriteEmbedded(cfg, s, event, embedding, place, c) == Write(cfg, s, event, place, c)
  {}
}
