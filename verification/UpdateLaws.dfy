/**
 Which memories an update retires, said about the texts, times and entities themselves: a
 restatement never retires what it restates, a reversed directive does.
 */
module UpdateLaws {
  import opened Wrappers
  import opened MemoryStore
  import opened UpdateTracker
  import opened WritePipeline
  import opened Directives

  // ---------------------------------------------------------------- the judgement

  /** A judgement names a candidate exactly when the candidate passes every condition. */
  lemma NamedIff(l: Language, t: Tracker, newer: Statement, candidates: seq<Memory>, m: Memory)
    requires DistinctIDs(candidates) && m in candidates
    ensures m.id in OldIDs(Detected(l, t, newer, candidates)) <==> (
      var a, b := newer.summary, m.summary;
      && m.id != newer.id && m.obsoletedAt == None
      && (if m.occurredAt == 0 then m.createdAt else m.occurredAt) < newer.at
      && !(newer.entity != "" && m.entityGroup != "" && newer.entity != m.entityGroup)
      && l.dice(a, b) >= (if t.minSimilarity <= 0.0 then 0.25 else t.minSimilarity)
      && ((l.polarity(a).Some? && l.polarity(b).Some? && l.polarity(a) != l.polarity(b))
          || (&& l.dice(a, b) < (if t.restatementSimilarity <= 0.0 then 0.9 else t.restatementSimilarity)
              && !l.contains(a, b) && !l.contains(b, a))))
  {
    DetectedAreCovered(l, t, newer, candidates);
    assert forall k :: k in candidates && k.id == m.id ==> k == m;
  }

  /** A judgement reports, for each memory it names, both times, both directives and how similar the texts are. */
  lemma {:induction false} PairsCarryTheEvidence(l: Language, t: Tracker, newer: Statement, candidates: seq<Memory>,
                                                 p: UpdatePair) returns (m: Memory)
    requires p in Detected(l, t, newer, candidates)
    ensures m in candidates && p.oldID == m.id && p.newOccurredAt == newer.at
    ensures p.oldOccurredAt == (if m.occurredAt == 0 then m.createdAt else m.occurredAt)
    ensures p.similarity == l.dice(newer.summary, m.summary)
    ensures p.oldPolarity == l.polarity(m.summary) && p.newPolarity == l.polarity(newer.summary)
  {
    var n := |candidates| - 1;
    if p in Detected(l, t, newer, candidates[..n]) {
      m := PairsCarryTheEvidence(l, t, newer, candidates[..n], p);
    } else {
      m := candidates[n];
    }
  }

  /** What either text already contains, or nearly repeats, is not retired, unless the directive is reversed. */
  lemma RestatedIsSpared(l: Language, t: Tracker, newer: Statement, candidates: seq<Memory>, m: Memory)
    requires DistinctIDs(candidates) && m in candidates
    requires l.contains(newer.summary, m.summary) || l.contains(m.summary, newer.summary)
        || l.dice(newer.summary, m.summary) >= t.RestatementSimilarity()
    requires l.polarity(newer.summary) == None || l.polarity(m.summary) == None
        || l.polarity(newer.summary) == l.polarity(m.summary)
    ensures m.id !in OldIDs(Detected(l, t, newer, candidates))
  {
    NamedIff(l, t, newer, candidates, m);
  }

  /** Another entity, another subject, or an event that is not older: not retired. */
  lemma UnrelatedIsSpared(l: Language, t: Tracker, newer: Statement, candidates: seq<Memory>, m: Memory)
    requires DistinctIDs(candidates) && m in candidates
    requires (newer.entity != "" && m.entityGroup != "" && newer.entity != m.entityGroup)
        || l.dice(newer.summary, m.summary) < t.MinSimilarity()
        || m.EffectiveOccurredAt() >= newer.at
    ensures m.id !in OldIDs(Detected(l, t, newer, candidates))
  {
    NamedIff(l, t, newer, candidates, m);
  }

  /** A reversed directive retires the older one although nearly all of the text is the same. */
  lemma ReversedIsRetired(l: Language, t: Tracker, newer: Statement, candidates: seq<Memory>, m: Memory)
    requires DistinctIDs(candidates) && m in candidates && m.id != newer.id && m.Active()
    requires newer.entity == "" || m.entityGroup == "" || newer.entity == m.entityGroup
    requires l.dice(newer.summary, m.summary) >= t.MinSimilarity() && m.EffectiveOccurredAt() < newer.at
    requires l.polarity(newer.summary).Some? && l.polarity(m.summary).Some?
        && l.polarity(newer.summary) != l.polarity(m.summary)
    ensures m.id in OldIDs(Detected(l, t, newer, candidates))
  {
    NamedIff(l, t, newer, candidates, m);
  }

  // ---------------------------------------------------------------- one signal

  /**
   A signal on memory `id` retires an active memory exactly when the search reports it, it is another
   one, older, about the same subject, not about another entity, and either its directive is reversed
   or neither text repeats or contains the other.
   */
  lemma SignalRetiresIff(cosine: Cosine, lower: char -> char, v: View, id: int, boost: real, peers: seq<Memory>,
                         now: int, k: int)
    requires Keyed(v.mems) && ValidPeers(cosine, v, id, peers) && k in v.mems && v.mems[k].obsoletedAt == None
    ensures var w := Pass(TextLanguage(lower), v, id, boost, peers, now);
      k in w.mems && (w.mems[k].obsoletedAt != None <==> (
        var n, m := v.mems[id], v.mems[k];
        var forbids := (s: string) => Marked(lower, PROHIBITIVE_MARKERS, s);
        var prescribes := (s: string) =>
          Marked(lower, AFFIRMATIVE_MARKERS, s) && !Marked(lower, PROHIBITIVE_MARKERS, s);
        && m in peers && k != id
        && (if m.occurredAt == 0 then m.createdAt else m.occurredAt)
             < (if n.occurredAt == 0 then n.createdAt else n.occurredAt)
        && !(n.entityGroup != "" && m.entityGroup != "" && n.entityGroup != m.entityGroup)
        && Text.Dice(n.summary, m.summary) >= 0.25
        && ((forbids(n.summary) && prescribes(m.summary)) || (prescribes(n.summary) && forbids(m.summary))
            || (&& Text.Dice(n.summary, m.summary) < 0.9
                && !Text.Contains(n.summary, m.summary) && !Text.Contains(m.summary, n.summary)))))
  {
    var l, m := TextLanguage(lower), v.mems[k];
    PassEffect(cosine, l, v, id, boost, peers, now);
    AnswerIDs(cosine, v, PeerQuery(v.mems[id].project), peers);
    if m in peers {
      NamedIff(l, DEFAULT_TRACKER, StatementOf(v.mems[id]), peers, m);
    } else {
      DetectedAreCovered(l, DEFAULT_TRACKER, StatementOf(v.mems[id]), peers);
    }
  }

  /** A boost multiplies, within [0, 1]. */
  lemma BoostIsClamped(weight: real, boost: real)
    ensures var w := weight * boost;
      BoostedWeight(weight, boost) == if w < 0.0 then 0.0 else if w > 1.0 then 1.0 else w
  {}

  lemma AppliedToCarrier(v: View, id: int, ids: seq<int>, boost: real, now: int)
    requires id in v.mems && v.mems[id].id == id && id !in ids && ids != []
    ensures var w := Applied(v, v.mems[id], ids, boost, now);
      id in w.mems && w.mems[id] == v.mems[id].(weight := BoostedWeight(v.mems[id].weight, boost))
  {
    assert Retired(v, id, ids, now).mems[id] == v.mems[id];
  }

  /** What a signal makes of its own memory: a boost when something was retired, else nothing. */
  lemma SignalBoosts(cosine: Cosine, l: Language, v: View, id: int, boost: real, peers: seq<Memory>, now: int)
    requires Keyed(v.mems) && ValidPeers(cosine, v, id, peers)
    ensures var w := Pass(l, v, id, boost, peers, now);
      && id in w.mems
      && w.mems[id] == v.mems[id].(weight :=
           if Found(l, v, id, peers) == [] then v.mems[id].weight
           else BoostedWeight(v.mems[id].weight, if boost > 0.0 then boost else 1.5))
  {
    var ids := OldIDs(Found(l, v, id, peers));
    FoundAreOthers(cosine, l, v, id, peers);
    if ids != [] {
      AppliedToCarrier(v, id, ids, SignalTracker(boost).WeightBoost(), now);
    }
  }

  // ---------------------------------------------------------------- one write

  /** What a write retires, whether it appends or creates: what its judgement names, and nothing else. */
  lemma WriteRetiresJudged(cfg: Config, s: State, event: Event, p: Prepared, embedding: seq<real>, place: Place,
                           c: Choice, k: int)
    requires Keyed(s.view.mems) && cfg.decay.Some? && ValidChoice(cfg, s, event, p, embedding, place, c)
    requires k in s.view.mems && s.view.mems[k].obsoletedAt == None
    ensures var w := Persist(cfg, s, event, p, embedding, place, c).state.view;
      k in w.mems && (w.mems[k].obsoletedAt != None <==> k in OldIDs(Judged(cfg, event, place, c)))
    ensures var o := Persist(cfg, s, event, p, embedding, place, c);
      o.result.Success? && k in o.state.view.mems
    ensures var o := Persist(cfg, s, event, p, embedding, place, c);
      k in OldIDs(Judged(cfg, event, place, c)) ==>
        && o.state.view.mems[k] == s.view.mems[k].(obsoletedAt := Some(c.now))
        && Edge(o.result.value.id, k, Superseded) in o.state.view.edges
    ensures var o := Persist(cfg, s, event, p, embedding, place, c);
      k !in OldIDs(Judged(cfg, event, place, c)) && k != o.result.value.id ==>
        o.state.view.mems[k] == s.view.mems[k]
  {
    var covered := OldIDs(Judged(cfg, event, place, c));
    JudgedAreStored(cfg, s, event, place, embedding, c);
    TargetIsCandidate(cfg, embedding, place, covered, c.found);
    AnswerIDs(cfg.cosine, s.view, CandidateQuery(place.project, embedding), c.found);
  }

  /** The same law for a write: the candidates are what the similarity search found for the event. */
  lemma WriteRetiresIff(cfg: Config, lower: char -> char, s: State, event: Event, p: Prepared, embedding: seq<real>,
                        place: Place, c: Choice, k: int)
    requires Keyed(s.view.mems) && cfg.decay.Some? && ValidChoice(cfg, s, event, p, embedding, place, c)
    requires cfg.language == TextLanguage(lower) && cfg.tracker == None
    requires k in s.view.mems && s.view.mems[k].obsoletedAt == None
    ensures var w := Persist(cfg, s, event, p, embedding, place, c).state.view;
      k in w.mems && (w.mems[k].obsoletedAt != None <==> (
        var m := s.view.mems[k];
        var forbids := (s: string) => Marked(lower, PROHIBITIVE_MARKERS, s);
        var prescribes := (s: string) =>
          Marked(lower, AFFIRMATIVE_MARKERS, s) && !Marked(lower, PROHIBITIVE_MARKERS, s);
        && m in c.found
        && (if m.occurredAt == 0 then m.createdAt else m.occurredAt)
             < (if event.occurredAt == 0 then c.now else event.occurredAt)
        && !(place.entity != "" && m.entityGroup != "" && place.entity != m.entityGroup)
        && Text.Dice(event.summary, m.summary) >= 0.25
        && ((forbids(event.summary) && prescribes(m.summary)) || (prescribes(event.summary) && forbids(m.summary))
            || (&& Text.Dice(event.summary, m.summary) < 0.9
                && !Text.Contains(event.summary, m.summary) && !Text.Contains(m.summary, event.summary)))))
  {
    var m, newcomer := s.view.mems[k], Newcomer(event, place, c.now);
    WriteRetiresJudged(cfg, s, event, p, embedding, place, c, k);
    AnswerIDs(cfg.cosine, s.view, CandidateQuery(place.project, embedding), c.found);
    if m in c.found {
      NamedIff(cfg.language, DEFAULT_TRACKER, newcomer, c.found, m);
    } else {
      DetectedAreCovered(cfg.language, DEFAULT_TRACKER, newcomer, c.found);
    }
  }
}
