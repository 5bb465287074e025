/**
 Whole runs of the write pipeline and of explicit update signals: the SUPERSEDED graph stays a
 forest, every accepted text is kept exactly once, event times only move earlier.
 */
module WriteRuns {
  import opened Wrappers
  import opened Bags
  import opened SortSlice
  import opened MemoryStore
  import opened UpdateTracker
  import opened WritePipeline
  import opened SupersededGraph

  // ---------------------------------------------------------------- one accepted write

  lemma AppliedSupersedes(v: View, carrier: Memory, ids: seq<int>, boost: real, now: int)
    requires Keyed(v.mems) && carrier.id in v.mems && Distinct(ids) && carrier.id !in ids
    requires forall k :: k in ids ==> k in v.mems && v.mems[k].Active()
    ensures Supersession(v, Applied(v, carrier, ids, boost, now), carrier.id, ids)
  {
    if ids == [] { assert v.edges + SupersededEdges(carrier.id, []) == v.edges; }
  }

  /** The same text at the same time. */
  predicate SameStory(a: Memory, b: Memory) {
    a.summary == b.summary && a.EffectiveOccurredAt() == b.EffectiveOccurredAt()
  }

  lemma AppliedKeepsStories(v: View, carrier: Memory, ids: seq<int>, boost: real, now: int)
    ensures var w := Applied(v, carrier, ids, boost, now);
      && w.mems.Keys == v.mems.Keys && (Keyed(v.mems) ==> Keyed(w.mems))
      && forall k :: k in v.mems ==> SameStory(v.mems[k], w.mems[k])
  {}

  /** An accepted summary and the memory that holds it. */
  datatype Accepted = Accepted(id: int, text: string, created: bool)

  /** `a` was recorded in one memory, new or appended to; no other memory's text or time changed. */
  ghost predicate Recorded(v: View, w: View, a: Accepted) {
    && w.mems.Keys == v.mems.Keys + {a.id}
    && (a.created <==> a.id !in v.mems)
    && (a.created ==> w.mems[a.id].summary == a.text)
    && (!a.created ==>
          && v.mems[a.id].Active()
          && w.mems[a.id].summary == v.mems[a.id].summary + "\n" + a.text
          && w.mems[a.id].EffectiveOccurredAt() <= v.mems[a.id].EffectiveOccurredAt())
    && (forall k :: k in v.mems && k != a.id ==> SameStory(v.mems[k], w.mems[k]))
  }

  /**
   What is appended to is a stored active memory of the same project, language and entity that the
   event does not cover.
   */
  lemma AppendedIsNotCovered(cfg: Config, s: State, event: Event, p: Prepared, embedding: seq<real>, place: Place,
                             c: Choice)
    requires Keyed(s.view.mems) && cfg.decay.Some? && ValidChoice(cfg, s, event, p, embedding, place, c)
    ensures var covered := OldIDs(Judged(cfg, event, place, c));
      var target := MergeTarget(cfg, embedding, place, covered, c.found);
      && Distinct(covered) && (forall k :: k in covered ==> k in s.view.mems && s.view.mems[k].Active())
      && (target.Some? ==>
            var m := target.value;
            && m.id in s.view.mems && s.view.mems[m.id] == m && m.Active() && m.id !in covered
            && m.project == place.project && m.language == place.language && m.entityGroup == place.entity
            && !Covers(cfg.language, cfg.Tracker(), Newcomer(event, place, c.now), m))
  {
    var covered := OldIDs(Judged(cfg, event, place, c));
    JudgedAreStored(cfg, s, event, place, embedding, c);
    TargetIsCandidate(cfg, embedding, place, covered, c.found);
    AnswerIDs(cfg.cosine, s.view, CandidateQuery(place.project, embedding), c.found);
    DetectedAreCovered(cfg.language, cfg.Tracker(), Newcomer(event, place, c.now), c.found);
  }

  function AcceptedBy(cfg: Config, s: State, event: Event, p: Prepared, embedding: seq<real>, place: Place,
                      c: Choice): Accepted
    requires cfg.decay.Some?
  {
    var r := Persist(cfg, s, event, p, embedding, place, c).result.value;
    Accepted(r.id, event.summary, r.action == CreatedNew)
  }

  /** Writing a carrier and retiring what it covers changes no other text or time. */
  lemma CarriedKeepsStories(cfg: Config, v: View, carrier: Memory, covered: seq<int>, now: int)
    requires Keyed(v.mems) && carrier.id != NIL_ID
    ensures var w := Carried(cfg, v, carrier, covered, now);
      && Keyed(w.mems) && w.mems.Keys == v.mems.Keys + {carrier.id} && SameStory(carrier, w.mems[carrier.id])
      && forall k :: k in v.mems && k != carrier.id ==> SameStory(v.mems[k], w.mems[k])
  {
    AppliedKeepsStories(Put(v, carrier), carrier, covered, cfg.Tracker().WeightBoost(), now);
  }

  /** An accepted write creates one memory, or appends to one. */
  lemma PersistRecords(cfg: Config, s: State, event: Event, p: Prepared, embedding: seq<real>, place: Place, c: Choice)
    requires Keyed(s.view.mems) && cfg.decay.Some? && ValidChoice(cfg, s, event, p, embedding, place, c)
    ensures Recorded(s.view, Persist(cfg, s, event, p, embedding, place, c).state.view,
        AcceptedBy(cfg, s, event, p, embedding, place, c))
    ensures Keyed(Persist(cfg, s, event, p, embedding, place, c).state.view.mems)
  {
    AppendedIsNotCovered(cfg, s, event, p, embedding, place, c);
    var covered := OldIDs(Judged(cfg, event, place, c));
    var target := MergeTarget(cfg, embedding, place, covered, c.found);
    if target.Some? {
      CarriedKeepsStories(cfg, s.view, Merged(cfg, event, p, embedding, c.now, target.value), covered, c.now);
    } else {
      CarriedKeepsStories(cfg, s.view, Created(cfg, event, p, embedding, place, c.now, c.id), covered, c.now);
    }
  }

  lemma {:induction false} LinksAreRelatesTo(cfg: Config, id: int, summary: string, related: seq<Memory>)
    ensures forall e :: e in Links(cfg, id, summary, related) ==> e.kind == RelatesTo && e.from == id
  {
    if related != [] { LinksAreRelatesTo(cfg, id, summary, related[..|related| - 1]); }
  }

  lemma LinksAreNotSuperseded(cfg: Config, id: int, summary: string, place: Place, related: seq<Memory>,
                              pitfalls: seq<int>)
    ensures forall e :: e in AllLinks(cfg, id, summary, place, related, pitfalls) ==> e.kind != Superseded
  {
    LinksAreRelatesTo(cfg, id, summary, related);
  }

  /** An accepted write keeps the graph a forest: its carrier is active, so it is its own root. */
  lemma PersistKeepsForest(cfg: Config, s: State, rank: map<int, nat>, event: Event, p: Prepared, embedding: seq<real>,
                           place: Place, c: Choice)
    returns (rank': map<int, nat>)
    requires Forest(s.view, rank) && cfg.decay.Some? && ValidChoice(cfg, s, event, p, embedding, place, c)
    ensures Forest(Persist(cfg, s, event, p, embedding, place, c).state.view, rank')
  {
    AppendedIsNotCovered(cfg, s, event, p, embedding, place, c);
    var covered := OldIDs(Judged(cfg, event, place, c));
    var target := MergeTarget(cfg, embedding, place, covered, c.found);
    if target.Some? {
      var carrier := Merged(cfg, event, p, embedding, c.now, target.value);
      SameForest(s.view, rank, Put(s.view, carrier));
      rank' := CarriedKeepsForest(cfg, s.view, rank, carrier, covered, c.now);
    } else {
      var carrier := Created(cfg, event, p, embedding, place, c.now, c.id);
      FreshMemory(s.view, rank, carrier);
      rank' := CarriedKeepsForest(cfg, s.view, rank[c.id := 0], carrier, covered, c.now);
      LinksAreNotSuperseded(cfg, c.id, event.summary, place, c.related, c.pitfalls);
      OtherEdges(Carried(cfg, s.view, carrier, covered, c.now), rank',
        AllLinks(cfg, c.id, event.summary, place, c.related, c.pitfalls));
    }
  }

  lemma CarriedKeepsForest(cfg: Config, v: View, rank: map<int, nat>, carrier: Memory, covered: seq<int>, now: int)
    returns (rank': map<int, nat>)
    requires Forest(Put(v, carrier), rank) && carrier.Active() && Distinct(covered) && carrier.id !in covered
    requires forall k :: k in covered ==> k in Put(v, carrier).mems && Put(v, carrier).mems[k].Active()
    ensures Forest(Carried(cfg, v, carrier, covered, now), rank')
  {
    var w := Put(v, carrier);
    AppliedSupersedes(w, carrier, covered, cfg.Tracker().WeightBoost(), now);
    SparedRootKeepsForest(w, rank, Carried(cfg, v, carrier, covered, now), carrier.id, covered);
    rank' := Shifted(w, rank, carrier.id, covered);
  }

  // ---------------------------------------------------------------- runs

  datatype Op =
    | WriteOp(event: Event, place: Place, c: Choice)
    | WriteGiven(event: Event, embedding: seq<real>, place: Place, c: Choice)
    | SignalOp(id: int, boost: real, peers: seq<Memory>, now: int)

  function EmbeddingOf(cfg: Config, op: Op): Option<seq<real>>
    requires !op.SignalOp?
  {
    if op.WriteOp? then cfg.embed(op.event.summary) else if op.embedding == [] then None else Some(op.embedding)
  }

  /** The write is accepted: past the gate, and embedded. */
  predicate Accepts(cfg: Config, s: State, op: Op) {
    && !op.SignalOp?
    && var prepared := Prepare(cfg, s, op.event, op.place.project);
       prepared.Success? && prepared.value.ShouldPersist() && EmbeddingOf(cfg, op).Some?
  }

  ghost predicate Legal(cfg: Config, s: State, op: Op) {
    if op.SignalOp? then ValidPeers(cfg.cosine, s.view, op.id, op.peers)
    else LegalWrite(cfg, s, op.event, EmbeddingOf(cfg, op), op.place, op.c)
  }

  function After(cfg: Config, s: State, op: Op): State
    requires op.SignalOp? ==> op.id in s.view.mems
  {
    match op
    case WriteOp(event, place, c) => Write(cfg, s, event, place, c).state
    case WriteGiven(event, embedding, place, c) => WriteEmbedded(cfg, s, event, embedding, place, c).state
    case SignalOp(id, boost, peers, now) => s.(view := Pass(cfg.language, s.view, id, boost, peers, now))
  }

  function Logged(cfg: Config, s: State, op: Op): seq<Accepted> {
    if !Accepts(cfg, s, op) then [] else
    [AcceptedBy(cfg, s, op.event, Prepare(cfg, s, op.event, op.place.project).value, EmbeddingOf(cfg, op).value,
      op.place, op.c)]
  }

  /** Only an accepted write or a signal changes the store. */
  lemma AfterCases(cfg: Config, s: State, op: Op)
    requires Legal(cfg, s, op)
    ensures Accepts(cfg, s, op) ==>
      cfg.decay.Some? &&
      var p, embedding := Prepare(cfg, s, op.event, op.place.project).value, EmbeddingOf(cfg, op).value;
      && ValidChoice(cfg, s, op.event, p, embedding, op.place, op.c)
      && After(cfg, s, op) == Persist(cfg, s, op.event, p, embedding, op.place, op.c).state
    ensures !op.SignalOp? && !Accepts(cfg, s, op) ==> After(cfg, s, op) == s
  {}

  ghost predicate StoriesKept(v: View, w: View) {
    w.mems.Keys == v.mems.Keys && forall k :: k in v.mems ==> SameStory(v.mems[k], w.mems[k])
  }

  /** The effect of any step on the texts in the store. */
  lemma StepRecords(cfg: Config, s: State, op: Op)
    requires Keyed(s.view.mems) && Legal(cfg, s, op)
    ensures Keyed(After(cfg, s, op).view.mems)
    ensures var log := Logged(cfg, s, op);
      if log == [] then StoriesKept(s.view, After(cfg, s, op).view)
      else |log| == 1 && Recorded(s.view, After(cfg, s, op).view, log[0]) && log[0].text == op.event.summary
  {
    AfterCases(cfg, s, op);
    if op.SignalOp? {
      PassEffect(cfg.cosine, cfg.language, s.view, op.id, op.boost, op.peers, op.now);
    } else if Accepts(cfg, s, op) {
      var p, embedding := Prepare(cfg, s, op.event, op.place.project).value, EmbeddingOf(cfg, op).value;
      PersistRecords(cfg, s, op.event, p, embedding, op.place, op.c);
    }
  }

  ghost predicate LegalRun(cfg: Config, s: State, ops: seq<Op>)
    decreases |ops|, 0
  {
    ops == [] || (
      var n := |ops| - 1;
      LegalRun(cfg, s, ops[..n]) && Legal(cfg, Run(cfg, s, ops[..n]), ops[n]))
  }

  ghost function Run(cfg: Config, s: State, ops: seq<Op>): State
    requires LegalRun(cfg, s, ops)
    decreases |ops|, 1
  {
    if ops == [] then s else
    var n := |ops| - 1;
    After(cfg, Run(cfg, s, ops[..n]), ops[n])
  }

  /** The accepted writes of a run, in order. */
  ghost function Log(cfg: Config, s: State, ops: seq<Op>): seq<Accepted>
    requires LegalRun(cfg, s, ops)
  {
    if ops == [] then [] else
    var n := |ops| - 1;
    Log(cfg, s, ops[..n]) + Logged(cfg, Run(cfg, s, ops[..n]), ops[n])
  }

  const EMPTY_VIEW := View(map[], [])

  // ---------------------------------------------------------------- the SUPERSEDED graph over runs

  /** Every signal is given on a memory that is active at that point. */
  ghost predicate SignalsOnActive(cfg: Config, s: State, ops: seq<Op>)
    requires LegalRun(cfg, s, ops)
  {
    forall n :: 0 <= n < |ops| && LegalRun(cfg, s, ops[..n]) && ops[n].SignalOp? ==>
      ops[n].id in Run(cfg, s, ops[..n]).view.mems && Run(cfg, s, ops[..n]).view.mems[ops[n].id].Active()
  }

  lemma {:induction false} RunKeepsForest(cfg: Config, s: State, rank: map<int, nat>, ops: seq<Op>)
    returns (rank': map<int, nat>)
    requires Forest(s.view, rank) && LegalRun(cfg, s, ops) && SignalsOnActive(cfg, s, ops)
    ensures Forest(Run(cfg, s, ops).view, rank')
    decreases |ops|
  {
    if ops == [] { return rank; }
    var n := |ops| - 1;
    assert forall k :: 0 <= k < n ==> ops[..n][..k] == ops[..k];
    var r := RunKeepsForest(cfg, s, rank, ops[..n]);
    var t, op := Run(cfg, s, ops[..n]), ops[n];
    AfterCases(cfg, t, op);
    if op.SignalOp? {
      PassSupersedes(cfg.cosine, cfg.language, t.view, op.id, op.boost, op.peers, op.now);
      var ids := OldIDs(Found(cfg.language, t.view, op.id, op.peers));
      SparedRootKeepsForest(t.view, r, After(cfg, t, op).view, op.id, ids);
      return Shifted(t.view, r, op.id, ids);
    }
    if Accepts(cfg, t, op) {
      var p, embedding := Prepare(cfg, t, op.event, op.place.project).value, EmbeddingOf(cfg, op).value;
      rank' := PersistKeepsForest(cfg, t, r, op.event, p, embedding, op.place, op.c);
      return;
    }
    return r;
  }

  /** `p` leads from an active memory to `id`. */
  ghost predicate LeadsTo(v: View, p: seq<int>, id: int) {
    Chain(v, p) && p[0] in v.mems && v.mems[p[0]].Active() && p[|p| - 1] == id
  }

  /**
   From an empty store, every run keeps the SUPERSEDED graph a forest: no cycle, at most one
   incoming edge, targets retired, and each memory, however often superseded, is reached from an
   active memory, and from only one.
   */
  lemma SupersededGraphIsForest(cfg: Config, s: State, ops: seq<Op>) returns (rank: map<int, nat>)
    requires s.view == EMPTY_VIEW && LegalRun(cfg, s, ops) && SignalsOnActive(cfg, s, ops)
    ensures Forest(Run(cfg, s, ops).view, rank) && Acyclic(Run(cfg, s, ops).view) &&
        SingleParents(Run(cfg, s, ops).view.edges)
    ensures forall id :: id in Run(cfg, s, ops).view.mems ==> exists p :: LeadsTo(Run(cfg, s, ops).view, p, id)
    ensures forall p, q, id :: LeadsTo(Run(cfg, s, ops).view, p, id) && LeadsTo(Run(cfg, s, ops).view, q, id) ==>
        p[0] == q[0]
  {
    rank := RunKeepsForest(cfg, s, map[], ops);
    var v := Run(cfg, s, ops).view;
    ForestIsAcyclic(v, rank);
    forall id | id in v.mems ensures exists p :: LeadsTo(v, p, id) {
      var p := RootReaches(v, rank, id);
      assert LeadsTo(v, p, id);
    }
    forall p, q, id | LeadsTo(v, p, id) && LeadsTo(v, q, id) ensures p[0] == q[0] {
      RootIsUnique(v, rank, p);
      RootIsUnique(v, rank, q);
    }
  }

  // ---------------------------------------------------------------- conservation of accepted texts

  /** The accepted texts a log assigns to one memory, in order. */
  function Pieces(log: seq<Accepted>, id: int): seq<string> {
    if log == [] then [] else
    var n := |log| - 1;
    Pieces(log[..n], id) + if log[n].id == id then [log[n].text] else []
  }

  function Joined(pieces: seq<string>): string {
    if pieces == [] then "" else
    var n := |pieces| - 1;
    if n == 0 then pieces[0] else Joined(pieces[..n]) + "\n" + pieces[n]
  }

  /** Each memory's summary consists of the texts logged for it. */
  ghost predicate TextsKept(v: View, log: seq<Accepted>) {
    && (forall id :: id in v.mems <==> Pieces(log, id) != [])
    && (forall id :: id in v.mems ==> v.mems[id].summary == Joined(Pieces(log, id)))
  }

  lemma RecordedKeepsTexts(v: View, w: View, log: seq<Accepted>, a: Accepted)
    requires TextsKept(v, log) && Recorded(v, w, a)
    ensures TextsKept(w, log + [a])
  {
    var log' := log + [a];
    assert log'[..|log|] == log;
    forall id ensures Pieces(log', id) == Pieces(log, id) + if a.id == id then [a.text] else [] {}
    forall id | id in w.mems ensures w.mems[id].summary == Joined(Pieces(log', id)) {
      var was := Pieces(log, id);
      if id == a.id {
        assert Pieces(log', id) == was + [a.text] && (was + [a.text])[..|was|] == was;
        assert a.created ==> was == [];
      } else {
        assert SameStory(v.mems[id], w.mems[id]) && Pieces(log', id) == was;
      }
    }
  }

  /** Over any run from an empty store, no accepted text is lost, doubled or moved. */
  lemma {:induction false} AcceptedTextsAreKept(cfg: Config, s: State, ops: seq<Op>)
    requires s.view == EMPTY_VIEW && LegalRun(cfg, s, ops)
    ensures Keyed(Run(cfg, s, ops).view.mems)
    ensures TextsKept(Run(cfg, s, ops).view, Log(cfg, s, ops))
    decreases |ops|
  {
    if ops != [] {
      var n := |ops| - 1;
      AcceptedTextsAreKept(cfg, s, ops[..n]);
      var t := Run(cfg, s, ops[..n]);
      StepRecords(cfg, t, ops[n]);
      var log := Logged(cfg, t, ops[n]);
      if log == [] {
        assert Log(cfg, s, ops) == Log(cfg, s, ops[..n]);
      } else {
        RecordedKeepsTexts(t.view, Run(cfg, s, ops).view, Log(cfg, s, ops[..n]), log[0]);
        assert log == [log[0]];
      }
    }
  }

  function Texts(log: seq<Accepted>): seq<string> {
    if log == [] then [] else Texts(log[..|log| - 1]) + [log[|log| - 1].text]
  }

  /** What each of the listed memories holds. */
  function Shares(log: seq<Accepted>, ids: seq<int>): (shares: seq<seq<string>>)
    ensures |shares| == |ids| && forall i :: 0 <= i < |ids| ==> shares[i] == Pieces(log, ids[i])
  {
    seq(|ids|, i requires 0 <= i < |ids| => Pieces(log, ids[i]))
  }

  lemma {:induction false} PoolOfEmpty(shares: seq<seq<string>>)
    requires forall i :: 0 <= i < |shares| ==> shares[i] == []
    ensures Pool(shares) == multiset{}
  {
    if shares != [] { PoolOfEmpty(shares[1..]); }
  }

  /** One more text in one share. */
  lemma PoolGains(before: seq<seq<string>>, after: seq<seq<string>>, at: nat, text: string)
    requires |before| == |after| && at < |before| && after[at] == before[at] + [text]
    requires forall i :: 0 <= i < |before| && i != at ==> after[i] == before[i]
    ensures Pool(after) == Pool(before) + multiset{text}
  {
    assert after[..at] + after[at + 1..] == before[..at] + before[at + 1..];
    PoolSplit(before, at);
    PoolSplit(after, at);
    var rest := Pool(before[..at] + before[at + 1..]);
    assert multiset(after[at]) == multiset(before[at]) + multiset{text};
    assert rest + (multiset(before[at]) + multiset{text}) == (rest + multiset(before[at])) + multiset{text};
  }

  lemma SharesGain(log: seq<Accepted>, ids: seq<int>)
    requires log != [] && Distinct(ids) && log[|log| - 1].id in ids
    ensures Pool(Shares(log, ids)) == Pool(Shares(log[..|log| - 1], ids)) + multiset{log[|log| - 1].text}
  {
    var a := log[|log| - 1];
    var at :| 0 <= at < |ids| && ids[at] == a.id;
    forall i | 0 <= i < |ids| && i != at ensures ids[i] != a.id {
      assert i < at || at < i;
    }
    PoolGains(Shares(log[..|log| - 1], ids), Shares(log, ids), at, a.text);
  }

  /** Splitting a log by memory neither loses nor repeats a text. */
  lemma {:induction false} PiecesPartitionTexts(log: seq<Accepted>, ids: seq<int>)
    requires Distinct(ids) && forall a :: a in log ==> a.id in ids
    ensures Pool(Shares(log, ids)) == multiset(Texts(log))
  {
    if log == [] {
      PoolOfEmpty(Shares(log, ids));
    } else {
      var n := |log| - 1;
      var a := log[n];
      assert a in log;
      PiecesPartitionTexts(log[..n], ids);
      SharesGain(log, ids);
    }
  }

  /**
   Conservation: list the stored memories in any order, retired ones included; the texts their
   summaries are joined from are, together, exactly the accepted texts.
   */
  lemma TextsAreConserved(cfg: Config, s: State, ops: seq<Op>, ids: seq<int>)
    requires s.view == EMPTY_VIEW && LegalRun(cfg, s, ops)
    requires Distinct(ids) && forall id :: id in ids <==> id in Run(cfg, s, ops).view.mems
    ensures Pool(Shares(Log(cfg, s, ops), ids)) == multiset(Texts(Log(cfg, s, ops)))
    ensures forall id :: id in ids ==> Run(cfg, s, ops).view.mems[id].summary == Joined(Pieces(Log(cfg, s, ops), id))
  {
    AcceptedTextsAreKept(cfg, s, ops);
    var log := Log(cfg, s, ops);
    forall a | a in log ensures a.id in ids { LoggedHasPieces(log, a); }
    PiecesPartitionTexts(log, ids);
  }

  lemma {:induction false} LoggedHasPieces(log: seq<Accepted>, a: Accepted)
    requires a in log
    ensures Pieces(log, a.id) != []
  {
    var n := |log| - 1;
    if log[n] != a {
      assert log == log[..n] + [log[n]];
      LoggedHasPieces(log[..n], a);
    }
  }

  /** Memories are never dropped by a run, and their event time only moves earlier. */
  lemma {:induction false} EventTimesMoveEarlier(cfg: Config, s: State, ops: seq<Op>, n: nat, id: int)
    requires Keyed(s.view.mems) && LegalRun(cfg, s, ops) && n <= |ops|
    ensures LegalRun(cfg, s, ops[..n]) && Keyed(Run(cfg, s, ops).view.mems)
    ensures id in Run(cfg, s, ops[..n]).view.mems ==>
      && id in Run(cfg, s, ops).view.mems
      && Run(cfg, s, ops).view.mems[id].EffectiveOccurredAt() <= Run(cfg, s,
        ops[..n]).view.mems[id].EffectiveOccurredAt()
    decreases |ops|
  {
    if ops != [] {
      var m := |ops| - 1;
      EventTimesMoveEarlier(cfg, s, ops[..m], if n <= m then n else m, id);
      StepRecords(cfg, Run(cfg, s, ops[..m]), ops[m]);
      if n <= m { assert ops[..m][..n] == ops[..n]; } else { assert ops[..n] == ops; }
    } else {
      assert ops[..n] == ops;
    }
  }
}
