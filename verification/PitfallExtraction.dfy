/**
 The pitfall extraction pipeline: filter debug episodes, group them by entity, cluster each
 group, draft one pitfall per cluster, then merge duplicates. The books must balance: every
 counted occurrence is one source episode, and no episode is counted twice.
 */
module PitfallExtraction {
  import opened Wrappers
  import opened Bags
  import opened PitfallClustering
  import opened PitfallMerging

  const MAX_EPISODICS_PER_ENTITY := 50

  function IdOf(): Item -> int { (x: Item) => x.id }

  /** The debug episodes of one entity, in scan order. */
  ghost function DebugOf(eps: seq<Item>, e: string): seq<Item> {
    if eps == [] then [] else
    var n := |eps| - 1;
    DebugOf(eps[..n], e) + if eps[n].taskType == "debug" && eps[n].entityID == e then [eps[n]] else []
  }

  // ---------------------------------------------------------------- grouping

  datatype EntityGroup = EntityGroup(entityID: string, episodics: seq<Item>)

  ghost function WithEntity(eps: seq<Item>, e: string): seq<Item> {
    if eps == [] then [] else
    var n := |eps| - 1;
    WithEntity(eps[..n], e) + if eps[n].entityID == e then [eps[n]] else []
  }

  /** The debug episodes the pipeline keeps for an entity. */
  ghost function Kept(episodics: seq<Item>, e: string): seq<Item> {
    if e == "" then [] else DebugOf(episodics, e)
  }

  ghost predicate Filters(debugEps: seq<Item>, episodics: seq<Item>) {
    forall e :: WithEntity(debugEps, e) == Kept(episodics, e)
  }

  lemma FiltersNext(debugEps: seq<Item>, episodics: seq<Item>, ep: Item)
    requires Filters(debugEps, episodics)
    ensures Filters(if ep.taskType == "debug" && ep.entityID != "" then debugEps + [ep] else debugEps, episodics + [ep])
  {
    var taken := if ep.taskType == "debug" && ep.entityID != "" then debugEps + [ep] else debugEps;
    assert (episodics + [ep])[..|episodics|] == episodics && (debugEps + [ep])[..|debugEps|] == debugEps;
    forall e ensures WithEntity(taken, e) == Kept(episodics + [ep], e) {
      assert WithEntity(debugEps, e) == Kept(episodics, e);
      assert Kept(episodics, e) + [] == Kept(episodics, e);
    }
  }

  method FilterDebug(episodics: seq<Item>) returns (debugEps: seq<Item>)
    ensures Filters(debugEps, episodics)
  {
    debugEps := [];
    for i := 0 to |episodics|
      invariant Filters(debugEps, episodics[..i])
    {
      var ep := episodics[i];
      FiltersNext(debugEps, episodics[..i], ep);
      PrefixNext(episodics, i);
      if ep.taskType == "debug" && ep.entityID != "" {
        debugEps := debugEps + [ep];
      }
    }
    assert episodics[..|episodics|] == episodics;
  }

  ghost predicate HasGroup(groups: seq<EntityGroup>, e: string) {
    exists g :: 0 <= g < |groups| && groups[g].entityID == e
  }

  /** `m` holds, per entity, its episodes in order. */
  ghost predicate Collects(m: map<string, seq<Item>>, episodics: seq<Item>) {
    && (forall e :: WithEntity(episodics, e) == if e in m then m[e] else [])
    && (forall e :: e in m ==> m[e] != [])
  }

  lemma CollectsNext(m: map<string, seq<Item>>, episodics: seq<Item>, ep: Item)
    requires Collects(m, episodics)
    ensures Collects(m[ep.entityID := (if ep.entityID in m then m[ep.entityID] else []) + [ep]], episodics + [ep])
  {
    assert (episodics + [ep])[..|episodics|] == episodics;
  }

  method CollectByEntity(episodics: seq<Item>) returns (m: map<string, seq<Item>>)
    ensures Collects(m, episodics)
  {
    m := map[];
    for i := 0 to |episodics|
      invariant Collects(m, episodics[..i])
    {
      var ep := episodics[i];
      CollectsNext(m, episodics[..i], ep);
      PrefixNext(episodics, i);
      m := m[ep.entityID := (if ep.entityID in m then m[ep.entityID] else []) + [ep]];
    }
    assert episodics[..|episodics|] == episodics;
  }

  ghost predicate DistinctEntities(groups: seq<EntityGroup>) {
    forall g, h :: 0 <= g < h < |groups| ==> groups[g].entityID != groups[h].entityID
  }

  /** The groups list the entries of `m`, all but those of the keys still left. */
  ghost predicate ListsAllBut(m: map<string, seq<Item>>, left: set<string>, groups: seq<EntityGroup>) {
    && DistinctEntities(groups)
    && (forall g :: 0 <= g < |groups| ==>
          groups[g].entityID in m && groups[g].entityID !in left && groups[g].episodics == m[groups[g].entityID])
    && (forall e :: e in m && e !in left ==> HasGroup(groups, e))
  }

  lemma ListsOneMore(m: map<string, seq<Item>>, left: set<string>, groups: seq<EntityGroup>, e: string)
    requires ListsAllBut(m, left, groups) && e in left && e in m
    ensures ListsAllBut(m, left - {e}, groups + [EntityGroup(e, m[e])])
  {
    HasGroupSnoc(groups, EntityGroup(e, m[e]));
  }

  /** One group per entity, in any order. */
  method GroupByEntityID(episodics: seq<Item>) returns (groups: seq<EntityGroup>)
    ensures DistinctEntities(groups)
    ensures forall g :: 0 <= g < |groups| ==>
              groups[g].episodics == WithEntity(episodics, groups[g].entityID) && groups[g].episodics != []
    ensures forall e :: WithEntity(episodics, e) != [] ==> HasGroup(groups, e)
  {
    var m := CollectByEntity(episodics);
    groups := [];
    var keys := m.Keys;
    while keys != {}
      invariant keys <= m.Keys
      invariant ListsAllBut(m, keys, groups)
      decreases keys
    {
      var e :| e in keys;
      ListsOneMore(m, keys, groups, e);
      groups := groups + [EntityGroup(e, m[e])];
      keys := keys - {e};
    }
  }

  lemma HasGroupSnoc(groups: seq<EntityGroup>, g: EntityGroup)
    ensures HasGroup(groups + [g], g.entityID)
    ensures forall e :: HasGroup(groups, e) ==> HasGroup(groups + [g], e)
  {
    assert (groups + [g])[|groups|] == g;
    forall e | HasGroup(groups, e) ensures HasGroup(groups + [g], e) {
      var k :| 0 <= k < |groups| && groups[k].entityID == e;
      assert (groups + [g])[k].entityID == e;
    }
  }
  // ---------------------------------------------------------------- the whole pipeline

  function PitfallFrom(entityID: string, sc: seq<Item>, d: Draft): (p: Pitfall)
    ensures Counted(p) && p.entityID == entityID
    ensures p.sources == Map(IdOf(), sc)
  {
    Pitfall(entityID, if sc == [] then "" else sc[0].projectID, if sc == [] then "" else sc[0].language,
            d.signature, d.fixStrategy, |sc|, None, false, None, Map(IdOf(), sc))
  }

  lemma {:induction false} SourcesOfConcat(a: seq<Pitfall>, b: seq<Pitfall>, e: string, x: int)
    ensures SourcesOf(a + b, e, x) == SourcesOf(a, e, x) + SourcesOf(b, e, x)
  {
    if b == [] {
      assert a + b == a;
    } else {
      var n := |b| - 1;
      assert a + b == (a + b[..n]) + [b[n]];
      SourcesOfConcat(a, b[..n], e, x);
      SourcesOfSnoc(a + b[..n], b[n]);
    }
  }

  lemma {:induction false} OtherEntity(ps: seq<Pitfall>, e: string, x: int)
    requires forall k :: 0 <= k < |ps| ==> ps[k].entityID != e
    ensures SourcesOf(ps, e, x) == 0
  {
    if ps != [] { OtherEntity(ps[..|ps| - 1], e, x); }
  }

  /** A cluster becomes a pitfall: it is large enough and can be structured. */
  ghost predicate Becomes(cfg: Extractor, entityID: string, sc: seq<Item>) {
    |sc| >= cfg.minClusterSize && cfg.structure(entityID, sc).Some?
  }

  ghost function Accepted(cfg: Extractor, entityID: string, clusters: seq<seq<Item>>): seq<seq<Item>> {
    if clusters == [] then [] else
    var n := |clusters| - 1;
    Accepted(cfg, entityID, clusters[..n]) + if Becomes(cfg, entityID, clusters[n]) then [clusters[n]] else []
  }

  ghost function PoolCount(clusters: seq<seq<Item>>, x: int): nat {
    Pool(MapAll(IdOf(), clusters))[x]
  }

  lemma PoolCountSnoc(clusters: seq<seq<Item>>, sc: seq<Item>)
    ensures forall x :: PoolCount(clusters + [sc], x) == PoolCount(clusters, x) + Count(Map(IdOf(), sc), x)
  {
    var ids := MapAll(IdOf(), clusters + [sc]);
    PoolSnoc(ids, |clusters|);
    assert ids[..|clusters| + 1] == ids;
    assert ids[..|clusters|] == MapAll(IdOf(), clusters);
  }

  lemma {:induction false} AcceptedCount(cfg: Extractor, entityID: string, clusters: seq<seq<Item>>)
    ensures forall x :: PoolCount(Accepted(cfg, entityID, clusters), x) <= PoolCount(clusters, x)
    ensures (forall k :: 0 <= k < |clusters| ==> Becomes(cfg, entityID, clusters[k])) ==>
        Accepted(cfg, entityID, clusters) == clusters
  {
    if clusters != [] {
      var n := |clusters| - 1;
      AcceptedCount(cfg, entityID, clusters[..n]);
      assert clusters == clusters[..n] + [clusters[n]];
      PoolCountSnoc(clusters[..n], clusters[n]);
      PoolCountSnoc(Accepted(cfg, entityID, clusters[..n]), clusters[n]);
      assert !Becomes(cfg, entityID, clusters[n]) ==>
        Accepted(cfg, entityID, clusters) == Accepted(cfg, entityID, clusters[..n]);
    }
  }

  /** `ps` is one counted pitfall per accepted cluster, drawing on exactly its episodes. */
  ghost predicate Drafted(cfg: Extractor, entityID: string, clusters: seq<seq<Item>>, ps: seq<Pitfall>) {
    && (forall k :: 0 <= k < |ps| ==> Counted(ps[k]) && ps[k].entityID == entityID)
    && |ps| == |Accepted(cfg, entityID, clusters)| <= |clusters|
    && forall x :: SourcesOf(ps, entityID, x) == PoolCount(Accepted(cfg, entityID, clusters), x)
  }

  lemma DraftedNext(cfg: Extractor, entityID: string, clusters: seq<seq<Item>>, sc: seq<Item>, ps: seq<Pitfall>)
    requires Drafted(cfg, entityID, clusters, ps)
    ensures !Becomes(cfg, entityID, sc) ==> Drafted(cfg, entityID, clusters + [sc], ps)
    ensures Becomes(cfg, entityID, sc) ==>
              Drafted(cfg, entityID, clusters + [sc],
                      ps + [PitfallFrom(entityID, sc, cfg.structure(entityID, sc).value)])
  {
    assert (clusters + [sc])[..|clusters|] == clusters;
    if Becomes(cfg, entityID, sc) {
      var p := PitfallFrom(entityID, sc, cfg.structure(entityID, sc).value);
      PoolCountSnoc(Accepted(cfg, entityID, clusters), sc);
      SourcesOfSnoc(ps, p);
    } else {
      assert Accepted(cfg, entityID, clusters + [sc]) == Accepted(cfg, entityID, clusters);
    }
  }

  /** One pitfall per cluster that is large enough and can be structured, in order. */
  function Drafts(cfg: Extractor, entityID: string, clusters: seq<seq<Item>>): seq<Pitfall> {
    if clusters == [] then [] else
    var n := |clusters| - 1;
    var sc := clusters[n];
    Drafts(cfg, entityID, clusters[..n])
    + if |sc| >= cfg.minClusterSize && cfg.structure(entityID, sc).Some?
      then [PitfallFrom(entityID, sc, cfg.structure(entityID, sc).value)] else []
  }

  method DraftClusters(cfg: Extractor, entityID: string, subClusters: seq<seq<Item>>) returns (extracted: seq<Pitfall>)
    ensures Drafted(cfg, entityID, subClusters, extracted)
    ensures extracted == Drafts(cfg, entityID, subClusters)
  {
    extracted := [];
    EmptyCounts();
    for i := 0 to |subClusters|
      invariant Drafted(cfg, entityID, subClusters[..i], extracted)
      invariant extracted == Drafts(cfg, entityID, subClusters[..i])
    {
      var sc := subClusters[i];
      DraftedNext(cfg, entityID, subClusters[..i], sc, extracted);
      assert subClusters[..i] + [sc] == subClusters[..i + 1];
      assert subClusters[..i + 1][..i] == subClusters[..i];
      if |sc| >= cfg.minClusterSize {
        var d := cfg.structure(entityID, sc);
        if d.Some? {
          extracted := extracted + [PitfallFrom(entityID, sc, d.value)];
        }
      }
    }
    assert subClusters[..|subClusters|] == subClusters;
  }

  /** A fresh pitfall with the signature, fix and size of the cluster, and its episodes as sources, in order. */
  ghost predicate DraftedFrom(cfg: Extractor, entityID: string, sc: seq<Item>, p: Pitfall) {
    && cfg.structure(entityID, sc) == Some(Draft(p.signature, p.fixStrategy))
    && p.entityID == entityID && p.occurrenceCount == |sc| && p.sources == Map(IdOf(), sc)
    && (sc != [] ==> p.projectID == sc[0].projectID && p.language == sc[0].language)
    && !p.wasUserCorrected && p.obsoletedAt == None && p.lastOccurredAt == None
  }

  /** Where in the list of clusters the drafts come from. */
  ghost predicate Ascending(places: seq<nat>) {
    forall i, j :: 0 <= i < j < |places| ==> places[i] < places[j]
  }

  /** The places are those of the clusters that are large enough and can be structured; each has its draft. */
  ghost predicate DraftPlaces(cfg: Extractor, entityID: string, clusters: seq<seq<Item>>, ps: seq<Pitfall>,
                              places: seq<nat>) {
    && Ascending(places) && |places| == |ps|
    && (forall k: nat :: k in places <==>
          k < |clusters| && |clusters[k]| >= cfg.minClusterSize && cfg.structure(entityID, clusters[k]).Some?)
    && (forall i :: 0 <= i < |places| ==>
          places[i] < |clusters| && DraftedFrom(cfg, entityID, clusters[places[i]], ps[i]))
  }

  lemma DraftPlacesNext(cfg: Extractor, entityID: string, clusters: seq<seq<Item>>, ps: seq<Pitfall>,
                        places: seq<nat>, sc: seq<Item>)
    requires DraftPlaces(cfg, entityID, clusters, ps, places)
    ensures if |sc| >= cfg.minClusterSize && cfg.structure(entityID, sc).Some?
      then DraftPlaces(cfg, entityID, clusters + [sc],
                       ps + [PitfallFrom(entityID, sc, cfg.structure(entityID, sc).value)], places + [|clusters|])
      else DraftPlaces(cfg, entityID, clusters + [sc], ps, places)
  {
    if |sc| >= cfg.minClusterSize && cfg.structure(entityID, sc).Some? {
      assert DraftedFrom(cfg, entityID, sc, PitfallFrom(entityID, sc, cfg.structure(entityID, sc).value));
    }
  }

  /**
   The drafts in plain words: in order, exactly the clusters that are large enough and can be
   structured, each with its own signature, fix, size and sources.
   */
  lemma {:induction false} DraftsMean(cfg: Extractor, entityID: string, clusters: seq<seq<Item>>)
    returns (places: seq<nat>)
    ensures DraftPlaces(cfg, entityID, clusters, Drafts(cfg, entityID, clusters), places)
  {
    if clusters == [] {
      places := [];
    } else {
      var n := |clusters| - 1;
      places := DraftsMean(cfg, entityID, clusters[..n]);
      DraftPlacesNext(cfg, entityID, clusters[..n], Drafts(cfg, entityID, clusters[..n]), places, clusters[n]);
      assert clusters == clusters[..n] + [clusters[n]];
      if |clusters[n]| >= cfg.minClusterSize && cfg.structure(entityID, clusters[n]).Some? {
        places := places + [n];
      } else {
        assert Drafts(cfg, entityID, clusters) == Drafts(cfg, entityID, clusters[..n]);
      }
    }
  }

  /** Nothing of this entity is cut off, too small, or impossible to structure. */
  ghost predicate Lossless(cfg: Extractor, entityID: string, count: nat) {
    cfg.minClusterSize <= 1 && count <= MAX_EPISODICS_PER_ENTITY && forall sc :: cfg.structure(entityID, sc).Some?
  }

  /**
   Among the pitfalls `ps`, those of this group's entity draw on its episodes, each at most
   once, and on all of them when nothing is lost.
   */
  ghost predicate Booked(cfg: Extractor, g: EntityGroup, ps: seq<Pitfall>) {
    && (forall x :: SourcesOf(ps, g.entityID, x) <= Count(Map(IdOf(), g.episodics), x))
    && (Lossless(cfg, g.entityID, |g.episodics|) ==>
          forall x :: SourcesOf(ps, g.entityID, x) == Count(Map(IdOf(), g.episodics), x))
  }

  /** The sub-clusters of a group: none when it is too small, else those of its first 50 episodes. */
  ghost predicate ClusteredGroup(cfg: Extractor, episodics: seq<Item>, clusters: seq<seq<Item>>) {
    if episodics == [] || |episodics| < cfg.minClusterSize then clusters == []
    else SubClustered(cfg.measures, if |episodics| > MAX_EPISODICS_PER_ENTITY
      then episodics[..MAX_EPISODICS_PER_ENTITY] else episodics, cfg.mergeThreshold, clusters)
  }

  method ExtractGroup(cfg: Extractor, g: EntityGroup)
    returns (extracted: seq<Pitfall>, found: nat, ghost clusters: seq<seq<Item>>)
    requires g.episodics != []
    ensures forall k :: 0 <= k < |extracted| ==> Counted(extracted[k]) && extracted[k].entityID == g.entityID
    ensures GroupBooked(cfg, g, clusters, extracted)
    ensures extracted == Drafts(cfg, g.entityID, clusters)
    ensures |extracted| <= found == |clusters|
  {
    extracted, found, clusters := [], 0, [];
    EmptyCounts();
    if |g.episodics| < cfg.minClusterSize {
      return;
    }
    var items := if |g.episodics| > MAX_EPISODICS_PER_ENTITY then g.episodics[..MAX_EPISODICS_PER_ENTITY]
      else g.episodics;
    var subClusters := SubCluster(cfg.measures, items, cfg.mergeThreshold);
    clusters := subClusters;
    found := |subClusters|;
    extracted := DraftClusters(cfg, g.entityID, subClusters);
    ClustersAreBooked(cfg, g, items, subClusters, extracted);
  }

  lemma ClustersAreBooked(cfg: Extractor, g: EntityGroup, items: seq<Item>, clusters: seq<seq<Item>>,
                          extracted: seq<Pitfall>)
    requires items <= g.episodics && (|g.episodics| <= MAX_EPISODICS_PER_ENTITY ==> items == g.episodics)
    requires g.episodics != [] && |g.episodics| >= cfg.minClusterSize && Pool(clusters) == multiset(items)
    requires forall k :: 0 <= k < |clusters| ==> clusters[k] != []
    requires Drafted(cfg, g.entityID, clusters, extracted)
    ensures Booked(cfg, g, extracted)
  {
    AcceptedCount(cfg, g.entityID, clusters);
    MapPool(IdOf(), clusters, items);
    MapPrefix(items, g.episodics);
  }

  lemma MapPrefix(a: seq<Item>, b: seq<Item>)
    requires a <= b
    ensures forall x :: Count(Map(IdOf(), a), x) <= Count(Map(IdOf(), b), x)
  {
    var p, q := Map(IdOf(), a), Map(IdOf(), b[|a|..]);
    assert Map(IdOf(), b) == p + q;
    assert multiset(p + q) == multiset(p) + multiset(q);
  }

  /** What the pipeline owes: exact counts, and per entity at most the debug episodes scanned for it. */
  ghost predicate Balanced(episodics: seq<Item>, ps: seq<Pitfall>) {
    && (forall k :: 0 <= k < |ps| ==> Counted(ps[k]))
    && (forall e, x :: SourcesOf(ps, e, x) <= if e == "" then 0 else Count(Map(IdOf(), DebugOf(episodics, e)), x))
  }

  /** The pitfalls `ps` of this entity use the clusters that become pitfalls, each episode as often as they do. */
  ghost predicate Yields(cfg: Extractor, entityID: string, clusters: seq<seq<Item>>, ps: seq<Pitfall>) {
    forall x :: SourcesOf(ps, entityID, x) == PoolCount(Accepted(cfg, entityID, clusters), x)
  }

  ghost predicate GroupBooked(cfg: Extractor, g: EntityGroup, clusters: seq<seq<Item>>, ps: seq<Pitfall>) {
    Booked(cfg, g, ps) && ClusteredGroup(cfg, g.episodics, clusters) && Yields(cfg, g.entityID, clusters, ps)
  }

  /** The same sources of this entity: booked as before. */
  lemma SameSourcesSameBooks(cfg: Extractor, g: EntityGroup, clusters: seq<seq<Item>>, ps: seq<Pitfall>,
                             qs: seq<Pitfall>)
    requires GroupBooked(cfg, g, clusters, ps)
    requires forall x :: SourcesOf(qs, g.entityID, x) == SourcesOf(ps, g.entityID, x)
    ensures GroupBooked(cfg, g, clusters, qs)
  {}

  ghost predicate EachBooked(cfg: Extractor, groups: seq<EntityGroup>, clusters: seq<seq<seq<Item>>>, ps: seq<Pitfall>)
    requires |clusters| == |groups|
  {
    forall h :: 0 <= h < |groups| ==> GroupBooked(cfg, groups[h], clusters[h], ps)
  }

  /** These groups are booked, and no other entity has a pitfall. */
  ghost predicate GroupsBooked(cfg: Extractor, groups: seq<EntityGroup>, clusters: seq<seq<seq<Item>>>,
                               ps: seq<Pitfall>)
    requires |clusters| == |groups|
  {
    && (forall k :: 0 <= k < |ps| ==> Counted(ps[k]))
    && EachBooked(cfg, groups, clusters, ps) && NoOtherSources(groups, ps)
  }

  ghost predicate NoOtherSources(groups: seq<EntityGroup>, ps: seq<Pitfall>) {
    forall e, x :: !HasGroup(groups, e) ==> SourcesOf(ps, e, x) == 0
  }

  lemma NoOtherSourcesNext(groups: seq<EntityGroup>, g: EntityGroup, ps: seq<Pitfall>, more: seq<Pitfall>)
    requires NoOtherSources(groups, ps) && forall k :: 0 <= k < |more| ==> more[k].entityID == g.entityID
    ensures NoOtherSources(groups + [g], ps + more)
  {
    HasGroupSnoc(groups, g);
    forall e, x | !HasGroup(groups + [g], e) ensures SourcesOf(ps + more, e, x) == 0 {
      SourcesOfMore(ps, more, g.entityID, e, x);
    }
  }

  /** The sources of other entities stay, those of the new group are added. */
  lemma SourcesOfMore(ps: seq<Pitfall>, more: seq<Pitfall>, entityID: string, e: string, x: int)
    requires forall k :: 0 <= k < |more| ==> more[k].entityID == entityID
    ensures SourcesOf(ps + more, e, x) == SourcesOf(ps, e, x) + if e == entityID then SourcesOf(more, e, x) else 0
  {
    SourcesOfConcat(ps, more, e, x);
    if e != entityID { OtherEntity(more, e, x); }
  }

  lemma EarlierStaysBooked(cfg: Extractor, g: EntityGroup, clusters: seq<seq<Item>>, ps: seq<Pitfall>,
                           more: seq<Pitfall>, entityID: string)
    requires GroupBooked(cfg, g, clusters, ps) && g.entityID != entityID
    requires forall k :: 0 <= k < |more| ==> more[k].entityID == entityID
    ensures GroupBooked(cfg, g, clusters, ps + more)
  {
    forall x ensures SourcesOf(ps + more, g.entityID, x) == SourcesOf(ps, g.entityID, x) {
      SourcesOfMore(ps, more, entityID, g.entityID, x);
    }
    SameSourcesSameBooks(cfg, g, clusters, ps, ps + more);
  }

  lemma NewIsBooked(cfg: Extractor, g: EntityGroup, clusters: seq<seq<Item>>, ps: seq<Pitfall>, more: seq<Pitfall>)
    requires GroupBooked(cfg, g, clusters, more) && forall x :: SourcesOf(ps, g.entityID, x) == 0
    requires forall k :: 0 <= k < |more| ==> more[k].entityID == g.entityID
    ensures GroupBooked(cfg, g, clusters, ps + more)
  {
    forall x ensures SourcesOf(ps + more, g.entityID, x) == SourcesOf(more, g.entityID, x) {
      SourcesOfMore(ps, more, g.entityID, g.entityID, x);
    }
    SameSourcesSameBooks(cfg, g, clusters, more, ps + more);
  }

  lemma EachBookedNext(cfg: Extractor, groups: seq<EntityGroup>, clusters: seq<seq<seq<Item>>>, g: EntityGroup,
                       found: seq<seq<Item>>, ps: seq<Pitfall>, more: seq<Pitfall>)
    requires |clusters| == |groups| && EachBooked(cfg, groups, clusters, ps) && GroupBooked(cfg, g, found, ps + more)
    requires forall k :: 0 <= k < |more| ==> more[k].entityID == g.entityID
    requires !HasGroup(groups, g.entityID)
    ensures EachBooked(cfg, groups + [g], clusters + [found], ps + more)
  {
    forall h | 0 <= h < |groups| ensures GroupBooked(cfg, groups[h], clusters[h], ps + more) {
      EarlierStaysBooked(cfg, groups[h], clusters[h], ps, more, g.entityID);
    }
  }

  lemma GroupsBookedNext(cfg: Extractor, groups: seq<EntityGroup>, clusters: seq<seq<seq<Item>>>, g: EntityGroup,
                         found: seq<seq<Item>>, ps: seq<Pitfall>, more: seq<Pitfall>)
    requires |clusters| == |groups| && GroupsBooked(cfg, groups, clusters, ps) && !HasGroup(groups, g.entityID)
    requires forall k :: 0 <= k < |more| ==> Counted(more[k]) && more[k].entityID == g.entityID
    requires GroupBooked(cfg, g, found, more)
    ensures GroupsBooked(cfg, groups + [g], clusters + [found], ps + more)
  {
    NoOtherSourcesNext(groups, g, ps, more);
    NewIsBooked(cfg, g, found, ps, more);
    EachBookedNext(cfg, groups, clusters, g, found, ps, more);
  }

  lemma EntityIsNew(groups: seq<EntityGroup>, n: nat)
    requires DistinctEntities(groups) && n < |groups|
    ensures !HasGroup(groups[..n], groups[n].entityID)
  {}

  method ExtractGroups(cfg: Extractor, groups: seq<EntityGroup>)
    returns (extracted: seq<Pitfall>, candidatesFound: nat, ghost clusters: seq<seq<seq<Item>>>)
    requires DistinctEntities(groups) && forall h :: 0 <= h < |groups| ==> groups[h].episodics != []
    ensures |clusters| == |groups| && GroupsBooked(cfg, groups, clusters, extracted)
    ensures |extracted| <= candidatesFound == CountClusters(clusters)
  {
    extracted, candidatesFound, clusters := [], 0, [];
    for gi := 0 to |groups|
      invariant |clusters| == gi && |extracted| <= candidatesFound == CountClusters(clusters)
      invariant GroupsBooked(cfg, groups[..gi], clusters, extracted)
    {
      ghost var more';
      var more, found;
      more, found, more' := ExtractGroup(cfg, groups[gi]);
      EntityIsNew(groups, gi);
      PrefixNext(groups, gi);
      GroupsBookedNext(cfg, groups[..gi], clusters, groups[gi], more', extracted, more);
      CountOneMore(clusters, more');
      extracted := extracted + more;
      candidatesFound := candidatesFound + found;
      clusters := clusters + [more'];
    }
    assert groups[..|groups|] == groups;
  }

  lemma CountOneMore(clusters: seq<seq<seq<Item>>>, found: seq<seq<Item>>)
    ensures CountClusters(clusters + [found]) == CountClusters(clusters) + |found|
  {
    assert (clusters + [found])[..|clusters|] == clusters;
  }

  ghost function CountClusters(clusters: seq<seq<seq<Item>>>): nat {
    if clusters == [] then 0 else CountClusters(clusters[..|clusters| - 1]) + |clusters[|clusters| - 1]|
  }

  /** Per entity: its pitfalls use its scanned debug episodes, exactly all of them when nothing is lost. */
  ghost predicate EntityBooked(cfg: Extractor, episodics: seq<Item>, e: string, ps: seq<Pitfall>) {
    Booked(cfg, EntityGroup(e, Kept(episodics, e)), ps)
  }

  /** Per entity: these are the clusters of its debug episodes, and its pitfalls use exactly those that became one. */
  ghost predicate EntityYields(cfg: Extractor, episodics: seq<Item>, e: string, clusters: seq<seq<Item>>,
                               ps: seq<Pitfall>) {
    GroupBooked(cfg, EntityGroup(e, Kept(episodics, e)), clusters, ps)
  }

  /** Where the group of an entity stands, if it has one. */
  ghost function GroupAt(groups: seq<EntityGroup>, e: string): (h: int)
    ensures h >= 0 ==> h < |groups| && groups[h].entityID == e
    ensures h < 0 ==> !HasGroup(groups, e)
  {
    if h :| 0 <= h < |groups| && groups[h].entityID == e then h else -1
  }

  ghost function ClustersOf(groups: seq<EntityGroup>, clusters: seq<seq<seq<Item>>>, e: string): seq<seq<Item>>
    requires |clusters| == |groups|
  {
    var h := GroupAt(groups, e);
    if h >= 0 then clusters[h] else []
  }

  lemma NothingIsBooked(cfg: Extractor, e: string, ps: seq<Pitfall>)
    requires forall x :: SourcesOf(ps, e, x) == 0
    ensures GroupBooked(cfg, EntityGroup(e, []), [], ps)
  {
    EmptyCounts();
    assert Accepted(cfg, e, []) == [] && MapAll(IdOf(), []) == [];
  }

  lemma GroupsCoverEntities(cfg: Extractor, episodics: seq<Item>, groups: seq<EntityGroup>,
                            clusters: seq<seq<seq<Item>>>, ps: seq<Pitfall>, e: string)
    requires |clusters| == |groups| && GroupsBooked(cfg, groups, clusters, ps)
    requires forall g :: 0 <= g < |groups| ==>
      groups[g].episodics == Kept(episodics, groups[g].entityID)
    requires Kept(episodics, e) != [] ==> HasGroup(groups, e)
    ensures EntityYields(cfg, episodics, e, ClustersOf(groups, clusters, e), ps)
  {
    var h := GroupAt(groups, e);
    if h >= 0 {
      assert groups[h] == EntityGroup(e, Kept(episodics, e));
    } else {
      NothingIsBooked(cfg, e, ps);
    }
  }

  lemma BookedIsBalanced(cfg: Extractor, episodics: seq<Item>, ps: seq<Pitfall>)
    requires forall k :: 0 <= k < |ps| ==> Counted(ps[k])
    requires forall e :: EntityBooked(cfg, episodics, e, ps)
    ensures Balanced(episodics, ps)
  {
    EmptyCounts();
    forall e, x
      ensures SourcesOf(ps, e, x) <= if e == "" then 0 else Count(Map(IdOf(), DebugOf(episodics, e)), x)
    {
      assert EntityBooked(cfg, episodics, e, ps);
    }
  }

  lemma MergingKeepsYields(cfg: Extractor, episodics: seq<Item>, e: string, clusters: seq<seq<Item>>,
                           extracted: seq<Pitfall>, ps: seq<Pitfall>)
    requires EntityYields(cfg, episodics, e, clusters, extracted)
    requires forall x :: SourcesOf(ps, e, x) == SourcesOf(extracted, e, x)
    ensures EntityYields(cfg, episodics, e, clusters, ps) && EntityBooked(cfg, episodics, e, ps)
  {
    SameSourcesSameBooks(cfg, EntityGroup(e, Kept(episodics, e)), clusters, extracted, ps);
  }

  method Extract(cfg: Extractor, episodics: seq<Item>)
    returns (pitfalls: seq<Pitfall>, candidatesFound: nat, merged: nat, ghost clusters: string -> seq<seq<Item>>)
    ensures Balanced(episodics, pitfalls)
    ensures forall e :: EntityBooked(cfg, episodics, e, pitfalls)
    ensures forall e :: EntityYields(cfg, episodics, e, clusters(e), pitfalls)
    ensures |pitfalls| + merged <= candidatesFound
  {
    var debugEps := FilterDebug(episodics);
    var groups := GroupByEntityID(debugEps);
    ghost var found';
    var extracted, found;
    extracted, found, found' := ExtractGroups(cfg, groups);
    clusters := e => ClustersOf(groups, found', e);
    candidatesFound := found;
    ghost var dups;
    pitfalls, dups := DeduplicatePitfalls(cfg, extracted);
    merged := |extracted| - |pitfalls|;
    forall e
      ensures EntityYields(cfg, episodics, e, clusters(e), pitfalls) && EntityBooked(cfg, episodics, e, pitfalls)
    {
      GroupsCoverEntities(cfg, episodics, groups, found', extracted, e);
      MergingKeepsYields(cfg, episodics, e, clusters(e), extracted, pitfalls);
    }
    BookedIsBalanced(cfg, episodics, pitfalls);
  }

  lemma EmptyCounts()
    ensures forall x :: Count(Map(IdOf(), []), x) == 0
  {
    assert Map(IdOf(), []) == [];
  }

  // ---------------------------------------------------------------- what is extracted

  lemma {:induction false} LargeIsAccepted(cfg: Extractor, e: string, clusters: seq<seq<Item>>, k: nat)
    requires k < |clusters| && |clusters[k]| >= cfg.minClusterSize && cfg.structure(e, clusters[k]).Some?
    ensures clusters[k] in Accepted(cfg, e, clusters)
  {
    var n := |clusters| - 1;
    if k < n { LargeIsAccepted(cfg, e, clusters[..n], k); }
  }

  lemma MemberIsCounted(clusters: seq<seq<Item>>, sc: seq<Item>, x: Item)
    requires sc in clusters && x in sc
    ensures PoolCount(clusters, x.id) > 0
  {
    var k :| 0 <= k < |clusters| && clusters[k] == sc;
    var i :| 0 <= i < |sc| && sc[i] == x;
    var ids := MapAll(IdOf(), clusters);
    assert ids[k][i] == x.id;
    assert x.id in ids[k];
    PoolMember(ids, x.id);
  }

  lemma {:induction false} SomePitfallUses(ps: seq<Pitfall>, e: string, x: int) returns (p: Pitfall)
    requires SourcesOf(ps, e, x) > 0
    ensures p in ps && p.entityID == e && x in p.sources
  {
    var n := |ps| - 1;
    if SourcesIf(ps[n], e, x) > 0 {
      p := ps[n];
      assert x in multiset(p.sources);
    } else {
      p := SomePitfallUses(ps[..n], e, x);
    }
  }

  /** Whatever the minimum size: every episode of a cluster that is large enough and can be structured is a source. */
  lemma LargeClustersAreSources(cfg: Extractor, episodics: seq<Item>, e: string, clusters: seq<seq<Item>>,
                                ps: seq<Pitfall>, k: nat, x: Item) returns (p: Pitfall)
    requires EntityYields(cfg, episodics, e, clusters, ps)
    requires k < |clusters| && |clusters[k]| >= cfg.minClusterSize && cfg.structure(e, clusters[k]).Some?
    requires x in clusters[k]
    ensures p in ps && p.entityID == e && x.id in p.sources
  {
    LargeIsAccepted(cfg, e, clusters, k);
    MemberIsCounted(Accepted(cfg, e, clusters), clusters[k], x);
    p := SomePitfallUses(ps, e, x.id);
  }

  /** The clusters of an entity with enough debug episodes, and no more than are looked at. */
  lemma EntityIsClustered(cfg: Extractor, episodics: seq<Item>, e: string, clusters: seq<seq<Item>>, ps: seq<Pitfall>)
    requires EntityYields(cfg, episodics, e, clusters, ps) && e != "" && DebugOf(episodics, e) != []
    requires cfg.minClusterSize <= |DebugOf(episodics, e)| <= 50
    ensures SubClustered(cfg.measures, DebugOf(episodics, e), cfg.mergeThreshold, clusters)
  {
    assert ClusteredGroup(cfg, Kept(episodics, e), clusters);
  }

  lemma OneClusterHoldsAll(clusters: seq<seq<Item>>, eps: seq<Item>, x: Item)
    requires |clusters| == 1 && Pool(clusters) == multiset(eps) && x in eps
    ensures |clusters[0]| == |eps| && x in clusters[0]
  {
    PoolSplit(clusters, 0);
    assert clusters[..0] + clusters[1..] == [];
    assert Pool<Item>([]) == multiset{};
    assert multiset(clusters[0]) == multiset(eps);
    assert x in multiset(eps);
    assert |clusters[0]| == |multiset(clusters[0])| == |eps|;
  }

  lemma AlikeEpisodesJoin(m: Measures, eps: seq<Item>, mergeThreshold: real, clusters: seq<seq<Item>>, hi: real,
                          x: Item)
    requires x in eps && SubClustered(m, eps, mergeThreshold, clusters) && mergeThreshold > 0.0
    requires forall i :: 0 <= i < |eps| ==> SignalOf(m, eps[i].summary).Some?
    requires forall i, j :: 0 <= i < |eps| && 0 <= j < |eps| ==>
      mergeThreshold <= m.cosine(SignalOf(m, eps[i].summary).value, SignalOf(m, eps[j].summary).value) <= hi
    ensures |clusters| == 1 && |clusters[0]| == |eps| && x in clusters[0]
  {
    AllAlikeJoin(m, eps, mergeThreshold, clusters, hi);
    SubClustersHoldAll(m, eps, mergeThreshold, clusters);
    OneClusterHoldsAll(clusters, eps, x);
  }

  /**
   Debug episodes of one entity that are all alike are extracted: when there are enough of them, and
   no more than are looked at, each is a source of a pitfall of the entity.
   */
  lemma AlikeEpisodesAreExtracted(cfg: Extractor, episodics: seq<Item>, e: string, clusters: seq<seq<Item>>,
                                  ps: seq<Pitfall>, hi: real, x: Item) returns (p: Pitfall)
    requires EntityYields(cfg, episodics, e, clusters, ps) && e != "" && cfg.mergeThreshold > 0.0
    requires x in DebugOf(episodics, e) && cfg.minClusterSize <= |DebugOf(episodics, e)| <= 50
    requires forall sc :: cfg.structure(e, sc).Some?
    requires var eps, m := DebugOf(episodics, e), cfg.measures;
      && (forall i :: 0 <= i < |eps| ==> SignalOf(m, eps[i].summary).Some?)
      && forall i, j :: 0 <= i < |eps| && 0 <= j < |eps| ==>
        cfg.mergeThreshold <= m.cosine(SignalOf(m, eps[i].summary).value, SignalOf(m, eps[j].summary).value) <= hi
    ensures p in ps && p.entityID == e && x.id in p.sources
  {
    var eps := DebugOf(episodics, e);
    EntityIsClustered(cfg, episodics, e, clusters, ps);
    AlikeEpisodesJoin(cfg.measures, eps, cfg.mergeThreshold, clusters, hi, x);
    p := LargeClustersAreSources(cfg, episodics, e, clusters, ps, 0, x);
  }

  lemma {:induction false} SmallAreNotAccepted(cfg: Extractor, e: string, clusters: seq<seq<Item>>)
    requires forall k :: 0 <= k < |clusters| ==> |clusters[k]| < cfg.minClusterSize
    ensures Accepted(cfg, e, clusters) == []
  {
    if clusters != [] { SmallAreNotAccepted(cfg, e, clusters[..|clusters| - 1]); }
  }

  /** Debug episodes of which no two are alike are no source of anything, when a pitfall takes two. */
  lemma UnlikeEpisodesAreNotExtracted(cfg: Extractor, episodics: seq<Item>, e: string, clusters: seq<seq<Item>>,
                                      ps: seq<Pitfall>, x: int)
    requires EntityYields(cfg, episodics, e, clusters, ps) && e != "" && cfg.mergeThreshold > 0.0
    requires cfg.minClusterSize >= 2 && |DebugOf(episodics, e)| <= 50
    requires var eps, m := DebugOf(episodics, e), cfg.measures;
      && (forall i :: 0 <= i < |eps| ==> SignalOf(m, eps[i].summary).Some?)
      && forall i, j :: 0 <= i < j < |eps| ==>
        m.cosine(SignalOf(m, eps[i].summary).value, SignalOf(m, eps[j].summary).value) < cfg.mergeThreshold
    ensures SourcesOf(ps, e, x) == 0
  {
    var eps := DebugOf(episodics, e);
    if |eps| >= cfg.minClusterSize {
      EntityIsClustered(cfg, episodics, e, clusters, ps);
      assert SignalOf(cfg.measures, eps[0].summary).Some?;
      ApartIff(cfg.measures, eps, cfg.mergeThreshold, clusters);
    }
    SmallAreNotAccepted(cfg, e, clusters);
    assert MapAll(IdOf(), []) == [];
  }

  // ---------------------------------------------------------------- what the balance means

  lemma {:induction false} DebugOfMember(eps: seq<Item>, e: string, x: Item)
    requires x in DebugOf(eps, e)
    ensures x in eps && x.taskType == "debug" && x.entityID == e
  {
    var n := |eps| - 1;
    if x in DebugOf(eps[..n], e) { DebugOfMember(eps[..n], e, x); }
  }

  /** And no debug episode of the entity is passed over. */
  lemma {:induction false} DebugEpisodesAreKept(eps: seq<Item>, e: string, i: nat)
    requires i < |eps| && eps[i].taskType == "debug" && eps[i].entityID == e
    ensures eps[i] in DebugOf(eps, e)
  {
    var n := |eps| - 1;
    if i < n { DebugEpisodesAreKept(eps[..n], e, i); }
  }

  lemma {:induction false} SourcesOfMember(ps: seq<Pitfall>, k: nat, x: int)
    requires k < |ps|
    ensures Count(ps[k].sources, x) <= SourcesOf(ps, ps[k].entityID, x)
  {
    var n := |ps| - 1;
    if k < n { SourcesOfMember(ps[..n], k, x); }
  }

  lemma CountedElement(s: seq<int>, x: int) returns (i: nat)
    requires Count(s, x) > 0
    ensures i < |s| && s[i] == x
  {
    assert x in multiset(s);
    i :| 0 <= i < |s| && s[i] == x;
  }

  /** Every source of a pitfall is a scanned debug episode of the pitfall's own entity. */
  lemma SourcesAreOwnDebugEpisodes(episodics: seq<Item>, ps: seq<Pitfall>, k: nat, source: int)
    returns (episode: Item)
    requires Balanced(episodics, ps) && k < |ps| && source in ps[k].sources
    ensures episode in episodics && episode.id == source
    ensures episode.taskType == "debug" && episode.entityID == ps[k].entityID != ""
  {
    var e := ps[k].entityID;
    assert source in multiset(ps[k].sources);
    SourcesOfMember(ps, k, source);
    var i := CountedElement(Map(IdOf(), DebugOf(episodics, e)), source);
    episode := DebugOf(episodics, e)[i];
    DebugOfMember(episodics, e, episode);
  }

  ghost predicate DistinctIds(eps: seq<Item>) {
    forall i, j :: 0 <= i < j < |eps| ==> eps[i].id != eps[j].id
  }

  lemma {:induction false} IdsOnce(eps: seq<Item>, e: string, x: int)
    requires DistinctIds(eps)
    ensures Count(Map(IdOf(), DebugOf(eps, e)), x) <= 1
  {
    if eps == [] {
      EmptyCounts();
    } else {
      var n := |eps| - 1;
      var rest := DebugOf(eps[..n], e);
      IdsOnce(eps[..n], e, x);
      if eps[n].taskType == "debug" && eps[n].entityID == e {
        assert DebugOf(eps, e) == rest + [eps[n]];
        CountSnoc(rest, eps[n], x);
        if Count(Map(IdOf(), rest), x) > 0 {
          var i := CountedElement(Map(IdOf(), rest), x);
          DebugOfMember(eps[..n], e, rest[i]);
          var m :| 0 <= m < n && eps[m] == rest[i];
          assert eps[m].id != eps[n].id;
        }
      } else {
        assert DebugOf(eps, e) == rest;
      }
    }
  }

  lemma CountSnoc(rest: seq<Item>, last: Item, x: int)
    ensures Count(Map(IdOf(), rest + [last]), x) == Count(Map(IdOf(), rest), x) + if x == last.id then 1 else 0
  {
    var ids := Map(IdOf(), rest);
    assert Map(IdOf(), rest + [last]) == ids + [last.id];
    assert multiset(ids + [last.id]) == multiset(ids) + multiset{last.id};
  }

  lemma {:induction false} SourcesOfTwo(ps: seq<Pitfall>, j: nat, k: nat, x: int)
    requires j < k < |ps| && ps[j].entityID == ps[k].entityID
    ensures Count(ps[j].sources, x) + Count(ps[k].sources, x) <= SourcesOf(ps, ps[k].entityID, x)
  {
    var n := |ps| - 1;
    if k < n { SourcesOfTwo(ps[..n], j, k, x); } else { SourcesOfMember(ps[..n], j, x); }
  }

  /** With distinct scan ids no episode feeds two pitfalls, and none feeds one pitfall twice. */
  lemma NoEpisodeFeedsTwo(episodics: seq<Item>, ps: seq<Pitfall>, j: nat, k: nat, source: int)
    requires Balanced(episodics, ps) && DistinctIds(episodics) && j < k < |ps|
    ensures !(source in ps[j].sources && source in ps[k].sources)
    ensures Count(ps[k].sources, source) <= 1 && Count(ps[j].sources, source) <= 1
  {
    IdsOnce(episodics, ps[j].entityID, source);
    IdsOnce(episodics, ps[k].entityID, source);
    SourcesOfMember(ps, j, source);
    SourcesOfMember(ps, k, source);
    assert source in ps[j].sources ==> source in multiset(ps[j].sources);
    assert source in ps[k].sources ==> source in multiset(ps[k].sources);
    if ps[j].entityID == ps[k].entityID {
      SourcesOfTwo(ps, j, k, source);
    } else if source in ps[j].sources && source in ps[k].sources {
      var a := SourcesAreOwnDebugEpisodes(episodics, ps, j, source);
      var b := SourcesAreOwnDebugEpisodes(episodics, ps, k, source);
    }
  }
}
