/** The in-memory store the engines run against: episodic memories and the edges between memories. */
module MemoryStore {
  import opened Wrappers
  import opened SortSlice

  /** The zero identifier; no stored memory carries it. */
  const NIL_ID := 0

  /** Times are whole numbers, 0 being Go's zero time. */
  datatype Memory = Memory(
    id: int, project: string, language: string, taskType: string, summary: string, trust: int,
    weight: real, effFreq: real, createdAt: int, lastAccessed: Option<int>, obsoletedAt: Option<int>,
    entityGroup: string, vector: seq<real>, isCorrection: bool, surprise: real, occurredAt: int)
  {
    function EffectiveOccurredAt(): int {
      if occurredAt == 0 then createdAt else occurredAt
    }

    predicate Active() {
      obsoletedAt.None?
    }
  }

  datatype EdgeKind = Superseded | RelatesTo | TriggeredPitfall | DerivedFrom | ConflictsWith

  datatype Edge = Edge(from: int, to: int, kind: EdgeKind)

  /** What is filtered on when not empty (or zero), how the answer is ranked, and how long it may be. */
  datatype Query = Query(
    project: string, language: string, taskType: string, minWeight: real, includeObsolete: bool,
    occurredAfter: int, occurredBefore: int, embedding: seq<real>, limit: int, byTime: bool)

  function ProjectQuery(project: string, embedding: seq<real>, limit: int, byTime: bool): Query {
    Query(project, "", "", 0.0, false, 0, 0, embedding, limit, byTime)
  }

  predicate Matches(q: Query, m: Memory) {
    && (q.project != "" ==> m.project == q.project)
    && (q.language != "" ==> m.language == q.language)
    && (q.taskType != "" ==> m.taskType == q.taskType)
    && m.weight >= q.minWeight
    && (q.includeObsolete || m.Active())
    && (q.occurredAfter != 0 ==> m.EffectiveOccurredAt() >= q.occurredAfter)
    && (q.occurredBefore != 0 ==> m.EffectiveOccurredAt() <= q.occurredBefore)
  }

  /** Ranking by similarity needs a vector of the right length. */
  predicate Eligible(q: Query, m: Memory) {
    Matches(q, m) && (q.embedding != [] ==> |m.vector| == |q.embedding|)
  }

  function Limit(q: Query): nat {
    if q.limit <= 0 then 10 else q.limit
  }

  type Cosine = (seq<real>, seq<real>) -> real

  /** By similarity when an embedding is given, otherwise by time or by weight. */
  function Rank(cosine: Cosine, q: Query): Memory -> real {
    (m: Memory) =>
      if q.embedding != [] then cosine(q.embedding, m.vector)
      else if q.byTime then m.EffectiveOccurredAt() as real
      else m.weight
  }

  function ByTime(): Memory -> real {
    (m: Memory) => m.EffectiveOccurredAt() as real
  }

  function Arrangement(cosine: Cosine, q: Query): Memory -> real {
    if q.byTime then ByTime() else Rank(cosine, q)
  }

  ghost predicate Keyed(mems: map<int, Memory>) {
    forall id :: id in mems ==> mems[id].id == id && id != NIL_ID
  }

  ghost predicate Stored(mems: map<int, Memory>, m: Memory) {
    m.id in mems && mems[m.id] == m
  }

  /** Stored eligible memories, once each, and none left out that ranks above one reported. */
  ghost predicate TopRanked(cosine: Cosine, mems: map<int, Memory>, q: Query, answer: seq<Memory>) {
    && Distinct(answer)
    && |answer| <= Limit(q)
    && (forall m :: m in answer ==> Stored(mems, m) && Eligible(q, m))
    && (forall id :: id in mems && Eligible(q, mems[id]) && mems[id] !in answer ==>
          && |answer| == Limit(q)
          && forall m :: m in answer ==> Rank(cosine, q)(m) >= Rank(cosine, q)(mems[id]))
  }

  /** What a search may answer: the top ranked memories in descending order, ties in any order. */
  ghost predicate ValidAnswer(cosine: Cosine, mems: map<int, Memory>, q: Query, answer: seq<Memory>) {
    TopRanked(cosine, mems, q, answer) && Descending(answer, Arrangement(cosine, q))
  }

  // ---------------------------------------------------------------- pitfalls, as far as writes touch them

  datatype Pitfall = Pitfall(entityID: string, project: string, weight: real, active: bool, occurrences: int,
                             lastOccurred: Option<int>)

  predicate AdvisesOn(p: Pitfall, entityID: string, project: string) {
    p.entityID == entityID && p.project == project && p.active
  }

  /** The active pitfalls of an entity, each once, heaviest first. */
  ghost predicate PitfallAnswer(pitfalls: map<int, Pitfall>, entityID: string, project: string, answer: seq<int>) {
    && Distinct(answer)
    && (forall k :: k in answer <==> k in pitfalls && AdvisesOn(pitfalls[k], entityID, project))
    && forall i, j :: 0 <= i < j < |answer| ==> pitfalls[answer[i]].weight >= pitfalls[answer[j]].weight
  }

  function PitfallWeight(pitfalls: map<int, Pitfall>): int -> real {
    (k: int) => if k in pitfalls then pitfalls[k].weight else 0.0
  }

  // ---------------------------------------------------------------- the store

  class Store {
    var episodics: map<int, Memory>
    var edges: seq<Edge>
    var pitfalls: map<int, Pitfall>
    const cosine: Cosine

    constructor (cosine: Cosine)
      ensures episodics == map[] && edges == [] && pitfalls == map[] && this.cosine == cosine
    {
      episodics, edges, pitfalls := map[], [], map[];
      this.cosine := cosine;
    }

    method WriteEpisodic(m: Memory)
      modifies this`episodics
      ensures episodics == old(episodics)[m.id := m]
    {
      episodics := episodics[m.id := m];
    }

    method GetEpisodic(id: int) returns (m: Option<Memory>)
      ensures m == if id in episodics then Some(episodics[id]) else None
    {
      m := if id in episodics then Some(episodics[id]) else None;
    }

    method UpdateEpisodicWeight(id: int, weight: real, effFreq: real) returns (ok: bool)
      modifies this`episodics
      ensures ok <==> id in old(episodics)
      ensures episodics ==
        if ok then old(episodics)[id := old(episodics)[id].(weight := weight, effFreq := effFreq)] else old(episodics)
    {
      ok := id in episodics;
      if ok { episodics := episodics[id := episodics[id].(weight := weight, effFreq := effFreq)]; }
    }

    method TouchEpisodic(id: int, now: int) returns (ok: bool)
      modifies this`episodics
      ensures ok <==> id in old(episodics)
      ensures episodics == if ok then old(episodics)[id := old(episodics)[id].(lastAccessed := Some(now))]
          else old(episodics)
    {
      ok := id in episodics;
      if ok { episodics := episodics[id := episodics[id].(lastAccessed := Some(now))]; }
    }

    method MarkObsolete(id: int, at: int) returns (ok: bool)
      modifies this`episodics
      ensures ok <==> id in old(episodics)
      ensures episodics == if ok then old(episodics)[id := old(episodics)[id].(obsoletedAt := Some(at))]
          else old(episodics)
    {
      ok := id in episodics;
      if ok { episodics := episodics[id := episodics[id].(obsoletedAt := Some(at))]; }
    }

    method CreateEdge(from: int, to: int, kind: EdgeKind)
      modifies this`edges
      ensures edges == old(edges) + [Edge(from, to, kind)]
    {
      edges := edges + [Edge(from, to, kind)];
    }

    method TouchPitfall(id: int, now: int) returns (ok: bool)
      modifies this`pitfalls
      ensures ok <==> id in old(pitfalls)
      ensures pitfalls ==
        if ok then old(pitfalls)[id :=
          old(pitfalls)[id].(lastOccurred := Some(now), occurrences := old(pitfalls)[id].occurrences + 1)]
        else old(pitfalls)
    {
      ok := id in pitfalls;
      if ok {
        pitfalls := pitfalls[id :=
          pitfalls[id].(lastOccurred := Some(now), occurrences := pitfalls[id].occurrences + 1)];
      }
    }

    method SearchPitfallByEntity(entityID: string, project: string) returns (answer: seq<int>)
      ensures PitfallAnswer(pitfalls, entityID, project, answer)
    {
      var all: seq<int> := [];
      var rest := pitfalls.Keys;
      while rest != {}
        invariant rest <= pitfalls.Keys && Distinct(all)
        invariant forall k :: k in all <==> k in pitfalls && AdvisesOn(pitfalls[k], entityID, project) && k !in rest
        decreases rest
      {
        var k := AnyOf(rest);
        rest := rest - {k};
        if AdvisesOn(pitfalls[k], entityID, project) { all := all + [k]; }
      }
      answer := Sort(all, PitfallWeight(pitfalls));
      PermutedDistinct(all, answer);
      assert forall i :: 0 <= i < |answer| ==> answer[i] in answer;
    }

    method CollectEligible(q: Query) returns (all: seq<Memory>)
      requires Keyed(episodics)
      ensures Distinct(all)
      ensures forall m :: m in all <==> Stored(episodics, m) && Eligible(q, m)
    {
      all := [];
      var rest := episodics.Keys;
      while rest != {}
        invariant rest <= episodics.Keys && Distinct(all)
        invariant forall m :: m in all <==> Stored(episodics, m) && Eligible(q, m) && m.id !in rest
        decreases rest
      {
        var id := AnyOf(rest);
        rest := rest - {id};
        if Eligible(q, episodics[id]) {
          assert episodics[id] !in all;
          all := all + [episodics[id]];
        }
      }
    }

    /** Filter, rank, cut, and arrange by time when asked to. */
    method SearchEpisodic(q: Query) returns (answer: seq<Memory>)
      requires Keyed(episodics)
      ensures ValidAnswer(cosine, episodics, q, answer)
    {
      var all := CollectEligible(q);
      answer := Top(all, Rank(cosine, q), Limit(q));
      forall id | id in episodics && Eligible(q, episodics[id]) ensures episodics[id] in all {
        assert Stored(episodics, episodics[id]);
      }
      if q.byTime {
        var top := answer;
        answer := Sort(top, ByTime());
        PermutedDistinct(top, answer);
      }
    }

    /** Edges of a node, of one kind or of any; a direction other than out or in means both. */
    method GetEdges(node: int, kind: Option<EdgeKind>, direction: Direction) returns (found: seq<Edge>)
      ensures found == EdgesOf(edges, node, kind, direction)
    {
      found := [];
      for i := 0 to |edges|
        invariant found == EdgesOf(edges[..i], node, kind, direction)
      {
        var e := edges[i];
        assert edges[..i + 1][..i] == edges[..i];
        if Touches(e, node, kind, direction) {
          found := found + [e];
        }
      }
      assert edges[..|edges|] == edges;
    }
  }

  datatype Direction = Out | In | Both

  predicate Touches(e: Edge, node: int, kind: Option<EdgeKind>, direction: Direction) {
    (kind.Some? ==> e.kind == kind.value) &&
    match direction
    case Out => e.from == node
    case In => e.to == node
    case Both => e.from == node || e.to == node
  }

  function EdgesOf(edges: seq<Edge>, node: int, kind: Option<EdgeKind>, direction: Direction): seq<Edge> {
    if edges == [] then [] else
    var n := |edges| - 1;
    EdgesOf(edges[..n], node, kind, direction) + if Touches(edges[n], node, kind, direction) then [edges[n]] else []
  }

  /** What a lookup gives: the edges of the kind, if one is asked for, that touch the node in the direction. */
  lemma {:induction false} EdgesOfMembers(edges: seq<Edge>, node: int, kind: Option<EdgeKind>, direction: Direction,
                                          e: Edge)
    ensures e in EdgesOf(edges, node, kind, direction) <==>
      && e in edges && (kind == None || kind == Some(e.kind))
      && (direction == Out ==> e.from == node) && (direction == In ==> e.to == node)
      && (e.from == node || e.to == node)
  {
    if edges != [] {
      var n := |edges| - 1;
      assert edges == edges[..n] + [edges[n]];
      EdgesOfMembers(edges[..n], node, kind, direction, e);
    }
  }

  /** What every reported memory has in common with the query, field by field. */
  lemma AnswersMeetTheQuery(cosine: Cosine, mems: map<int, Memory>, q: Query, answer: seq<Memory>, m: Memory)
    requires ValidAnswer(cosine, mems, q, answer) && m in answer
    ensures m.id in mems && mems[m.id] == m && |answer| <= if q.limit <= 0 then 10 else q.limit
    ensures (q.project == "" || m.project == q.project) && (q.language == "" || m.language == q.language)
    ensures (q.taskType == "" || m.taskType == q.taskType) && m.weight >= q.minWeight
    ensures q.includeObsolete || m.obsoletedAt == None
    ensures var at := if m.occurredAt == 0 then m.createdAt else m.occurredAt;
      && (q.occurredAfter == 0 || at >= q.occurredAfter) && (q.occurredBefore == 0 || at <= q.occurredBefore)
    ensures q.embedding == [] || |m.vector| == |q.embedding|
  {}

  /** What a search in a project leaves out of a full answer is no more similar than what it reports. */
  lemma NearestAreReported(cosine: Cosine, mems: map<int, Memory>, q: Query, answer: seq<Memory>, k: int, m: Memory)
    requires ValidAnswer(cosine, mems, q, answer) && k in mems && mems[k] !in answer && q.project != ""
    requires q == Query(q.project, "", "", 0.0, false, 0, 0, q.embedding, q.limit, false) && q.embedding != []
    requires mems[k].project == q.project && mems[k].obsoletedAt == None && mems[k].weight >= 0.0
    requires |mems[k].vector| == |q.embedding| && m in answer
    ensures |answer| == if q.limit <= 0 then 10 else q.limit
    ensures cosine(q.embedding, m.vector) >= cosine(q.embedding, mems[k].vector)
  {
    assert Rank(cosine, q)(m) >= Rank(cosine, q)(mems[k]);
  }
}
