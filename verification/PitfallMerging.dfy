/**
 Merging pitfalls that describe the same bug: greedy groups of duplicates, each of which becomes one
 pitfall with the counts and sources of all.
 */
module PitfallMerging {
  import opened Wrappers
  import opened Bags
  import opened Text
  import opened Vectors
  import opened PitfallClustering

  datatype Pitfall = Pitfall(
    entityID: string, projectID: string, language: string, signature: string, fixStrategy: string,
    occurrenceCount: int, lastOccurredAt: Option<int>, wasUserCorrected: bool, obsoletedAt: Option<int>,
    sources: seq<int>)

  /** What structuring one cluster yields; the language model or its parser may fail. */
  datatype Draft = Draft(signature: string, fixStrategy: string)

  datatype Extractor = Extractor(
    minClusterSize: int, mergeThreshold: real, dedupThreshold: real, measures: Measures,
    structure: (string, seq<Item>) -> Option<Draft>)

  // ---------------------------------------------------------------- bookkeeping

  ghost function Count(s: seq<int>, x: int): nat {
    multiset(s)[x]
  }

  ghost function SourcesIf(p: Pitfall, e: string, x: int): nat {
    if p.entityID == e then Count(p.sources, x) else 0
  }

  /** How often episode `x` is a source of the pitfalls of entity `e`. */
  ghost function SourcesOf(ps: seq<Pitfall>, e: string, x: int): nat {
    if ps == [] then 0 else SourcesOf(ps[..|ps| - 1], e, x) + SourcesIf(ps[|ps| - 1], e, x)
  }

  ghost predicate Counted(p: Pitfall) {
    p.occurrenceCount == |p.sources|
  }

  lemma SourcesOfSnoc(ps: seq<Pitfall>, p: Pitfall)
    ensures forall e, x :: SourcesOf(ps + [p], e, x) == SourcesOf(ps, e, x) + SourcesIf(p, e, x)
  {
    assert (ps + [p])[..|ps|] == ps;
  }
  // ---------------------------------------------------------------- merging one group of duplicates

  ghost function CountOf(ps: seq<Pitfall>, members: seq<nat>): int
    requires forall k :: 0 <= k < |members| ==> members[k] < |ps|
  {
    if members == [] then 0 else CountOf(ps, members[..|members| - 1]) + ps[members[|members| - 1]].occurrenceCount
  }

  ghost function SizeOf(ps: seq<Pitfall>, members: seq<nat>): nat
    requires forall k :: 0 <= k < |members| ==> members[k] < |ps|
  {
    if members == [] then 0 else SizeOf(ps, members[..|members| - 1]) + |ps[members[|members| - 1]].sources|
  }

  ghost function MemberSources(ps: seq<Pitfall>, members: seq<nat>, x: int): nat
    requires forall k :: 0 <= k < |members| ==> members[k] < |ps|
  {
    if members == [] then 0
    else MemberSources(ps, members[..|members| - 1], x) + Count(ps[members[|members| - 1]].sources, x)
  }

  /** No later occurrence than `b`, where None is "never". */
  ghost predicate NotAfter(a: Option<int>, b: Option<int>) {
    a.Some? ==> b.Some? && a.value <= b.value
  }

  /** Counts and sources of the given members, added up. */
  ghost predicate Conserved(ps: seq<Pitfall>, members: seq<nat>, r: Pitfall)
    requires members != [] && forall k :: 0 <= k < |members| ==> members[k] < |ps|
  {
    && r.occurrenceCount == CountOf(ps, members)
    && |r.sources| == SizeOf(ps, members)
    && (forall x :: Count(r.sources, x) == MemberSources(ps, members, x))
    && r.entityID == ps[members[0]].entityID
    && r.obsoletedAt == ps[members[0]].obsoletedAt
  }

  /** A longest fix (in bytes), a latest date, some signature, and whether any member was corrected. */
  ghost predicate Chosen(ps: seq<Pitfall>, members: seq<nat>, r: Pitfall)
    requires members != [] && forall k :: 0 <= k < |members| ==> members[k] < |ps|
  {
    && (forall k :: 0 <= k < |members| ==> ByteLength(ps[members[k]].fixStrategy) <= ByteLength(r.fixStrategy))
    && (exists k :: 0 <= k < |members| && ps[members[k]].fixStrategy == r.fixStrategy)
    && (exists k :: 0 <= k < |members| && ps[members[k]].signature == r.signature)
    && (forall k :: 0 <= k < |members| ==> NotAfter(ps[members[k]].lastOccurredAt, r.lastOccurredAt))
    && (exists k :: 0 <= k < |members| && ps[members[k]].lastOccurredAt == r.lastOccurredAt)
    && (r.wasUserCorrected <==> exists k :: 0 <= k < |members| && ps[members[k]].wasUserCorrected)
  }

  /** What merging the given members must produce, whichever of them ends up as the base. */
  ghost predicate MergedFrom(ps: seq<Pitfall>, members: seq<nat>, r: Pitfall)
    requires members != [] && forall k :: 0 <= k < |members| ==> members[k] < |ps|
  {
    Conserved(ps, members, r) && Chosen(ps, members, r)
  }

  /** `r` holds what `a` and `b` hold, in some order. */
  ghost predicate Joined(r: seq<int>, a: seq<int>, b: seq<int>) {
    |r| == |a| + |b| && forall x :: Count(r, x) == Count(a, x) + Count(b, x)
  }

  /** `r` is `p` and `o` merged, whichever of the two serves as the base. */
  ghost predicate Absorbs(p: Pitfall, o: Pitfall, r: Pitfall) {
    && r.occurrenceCount == p.occurrenceCount + o.occurrenceCount
    && Joined(r.sources, p.sources, o.sources)
    && r.entityID in {p.entityID, o.entityID} && r.obsoletedAt == p.obsoletedAt
    && r.fixStrategy in {p.fixStrategy, o.fixStrategy} && r.signature in {p.signature, o.signature}
    && ByteLength(r.fixStrategy) >= ByteLength(p.fixStrategy) && ByteLength(r.fixStrategy) >= ByteLength(o.fixStrategy)
    && r.lastOccurredAt in {p.lastOccurredAt, o.lastOccurredAt}
    && NotAfter(p.lastOccurredAt, r.lastOccurredAt) && NotAfter(o.lastOccurredAt, r.lastOccurredAt)
    && r.wasUserCorrected == (p.wasUserCorrected || o.wasUserCorrected)
  }

  /** One round of the merge loop. */
  method MergeInto(p: Pitfall, o: Pitfall) returns (primary: Pitfall)
    ensures Absorbs(p, o, primary)
  {
    primary := p;
    var other := o;
    if other.occurrenceCount > primary.occurrenceCount {
      var otherOccurrence := other.occurrenceCount;
      other := other.(obsoletedAt := primary.obsoletedAt);
      primary, other := other, primary;
      primary := primary.(occurrenceCount := otherOccurrence);
    }
    primary := primary.(occurrenceCount := primary.occurrenceCount + other.occurrenceCount);
    primary := primary.(sources := primary.sources + other.sources);
    if ByteLength(other.fixStrategy) > ByteLength(primary.fixStrategy) {
      primary := primary.(fixStrategy := other.fixStrategy);
    }
    if other.lastOccurredAt.Some? {
      if primary.lastOccurredAt.None? || other.lastOccurredAt.value > primary.lastOccurredAt.value {
        primary := primary.(lastOccurredAt := other.lastOccurredAt);
      }
    }
    if other.wasUserCorrected {
      primary := primary.(wasUserCorrected := true);
    }
  }

  /** The primary is the first member; no other member repeats it. */
  method MergePitfallGroup(ps: seq<Pitfall>, members: seq<nat>) returns (primary: Pitfall)
    requires members != [] && forall k :: 0 <= k < |members| ==> members[k] < |ps|
    requires forall k :: 0 < k < |members| ==> members[k] != members[0]
    requires forall k :: 0 <= k < |members| ==> ps[members[k]].entityID == ps[members[0]].entityID
    ensures MergedFrom(ps, members, primary)
  {
    primary := ps[members[0]];
    MergedFromOne(ps, members);
    for k := 1 to |members|
      invariant MergedPrefix(ps, members, k, primary)
    {
      var next := MergeInto(primary, ps[members[k]]);
      MergedFromNext(ps, members, k, primary, next);
      primary := next;
    }
    assert members[..|members|] == members;
  }

  ghost predicate MergedPrefix(ps: seq<Pitfall>, members: seq<nat>, k: nat, r: Pitfall)
    requires 0 < k <= |members| && forall i :: 0 <= i < |members| ==> members[i] < |ps|
  {
    MergedFrom(ps, members[..k], r)
  }

  lemma MergedFromOne(ps: seq<Pitfall>, members: seq<nat>)
    requires members != [] && forall i :: 0 <= i < |members| ==> members[i] < |ps|
    ensures MergedPrefix(ps, members, 1, ps[members[0]])
  {
    var one := members[..1];
    assert one[..0] == [];
    assert one[0] == members[0];
  }

  lemma ChosenNext(ps: seq<Pitfall>, members: seq<nat>, k: nat, p: Pitfall, r: Pitfall)
    requires 0 < k < |members| && forall i :: 0 <= i < |members| ==> members[i] < |ps|
    requires Chosen(ps, members[..k], p) && Absorbs(p, ps[members[k]], r)
    ensures Chosen(ps, members[..k + 1], r)
  {
    var was, all := members[..k], members[..k + 1];
    assert forall i :: 0 <= i < k ==> all[i] == was[i];
    assert all[k] == members[k];
    var a :| 0 <= a < k && ps[was[a]].fixStrategy == p.fixStrategy;
    var b :| 0 <= b < k && ps[was[b]].signature == p.signature;
    var c :| 0 <= c < k && ps[was[c]].lastOccurredAt == p.lastOccurredAt;
    assert ps[all[a]].fixStrategy == r.fixStrategy || ps[all[k]].fixStrategy == r.fixStrategy;
    assert ps[all[b]].signature == r.signature || ps[all[k]].signature == r.signature;
    assert ps[all[c]].lastOccurredAt == r.lastOccurredAt || ps[all[k]].lastOccurredAt == r.lastOccurredAt;
    if p.wasUserCorrected {
      var d :| 0 <= d < k && ps[was[d]].wasUserCorrected;
      assert ps[all[d]].wasUserCorrected;
    }
  }

  lemma ConservedNext(ps: seq<Pitfall>, members: seq<nat>, k: nat, p: Pitfall, r: Pitfall)
    requires 0 < k < |members| && forall i :: 0 <= i < |members| ==> members[i] < |ps|
    requires ps[members[k]].entityID == ps[members[0]].entityID
    requires Conserved(ps, members[..k], p) && Absorbs(p, ps[members[k]], r)
    ensures Conserved(ps, members[..k + 1], r)
  {
    assert members[..k + 1][..k] == members[..k];
  }

  lemma MergedFromNext(ps: seq<Pitfall>, members: seq<nat>, k: nat, p: Pitfall, r: Pitfall)
    requires 0 < k < |members| && forall i :: 0 <= i < |members| ==> members[i] < |ps|
    requires ps[members[k]].entityID == ps[members[0]].entityID
    requires MergedPrefix(ps, members, k, p) && Absorbs(p, ps[members[k]], r)
    ensures MergedPrefix(ps, members, k + 1, r)
  {
    ConservedNext(ps, members, k, p, r);
    ChosenNext(ps, members, k, p, r);
  }

  // ---------------------------------------------------------------- greedy deduplication

  ghost predicate GroupOk(ps: seq<Pitfall>, g: seq<nat>) {
    && g != [] && (forall k :: 0 <= k < |g| ==> g[k] < |ps|)
    && (forall k :: 0 < k < |g| ==> g[k] != g[0])
    && (forall k :: 0 <= k < |g| ==> ps[g[k]].entityID == ps[g[0]].entityID)
  }

  ghost function GroupSources(ps: seq<Pitfall>, g: seq<nat>, e: string, x: int): nat
    requires GroupOk(ps, g)
  {
    if ps[g[0]].entityID == e then MemberSources(ps, g, x) else 0
  }

  ghost predicate GroupsOk(ps: seq<Pitfall>, groups: seq<seq<nat>>) {
    forall g :: 0 <= g < |groups| ==> GroupOk(ps, groups[g])
  }

  ghost function GroupsSources(ps: seq<Pitfall>, groups: seq<seq<nat>>, e: string, x: int): nat
    requires GroupsOk(ps, groups)
  {
    if groups == [] then 0
    else GroupsSources(ps, groups[..|groups| - 1], e, x) + GroupSources(ps, groups[|groups| - 1], e, x)
  }

  /** The sources of the pitfalls that already have a group. */
  ghost function TakenSources(ps: seq<Pitfall>, taken: seq<bool>, e: string, x: int): nat
    requires |taken| <= |ps|
  {
    if taken == [] then 0 else
    var n := |taken| - 1;
    TakenSources(ps, taken[..n], e, x) + if taken[n] then SourcesIf(ps[n], e, x) else 0
  }

  lemma {:induction false} TakeOne(ps: seq<Pitfall>, taken: seq<bool>, j: nat, e: string, x: int)
    requires |taken| <= |ps| && j < |taken| && !taken[j]
    ensures TakenSources(ps, taken[j := true], e, x) == TakenSources(ps, taken, e, x) + SourcesIf(ps[j], e, x)
  {
    var n := |taken| - 1;
    var next := taken[j := true];
    if j == n {
      assert next[..n] == taken[..n];
    } else {
      assert next[..n] == taken[..n][j := true];
      TakeOne(ps, taken[..n], j, e, x);
    }
  }

  lemma {:induction false} NoneTaken(ps: seq<Pitfall>, taken: seq<bool>, e: string, x: int)
    requires |taken| <= |ps| && forall k :: 0 <= k < |taken| ==> !taken[k]
    ensures TakenSources(ps, taken, e, x) == 0
  {
    if taken != [] { NoneTaken(ps, taken[..|taken| - 1], e, x); }
  }

  lemma {:induction false} AllTaken(ps: seq<Pitfall>, taken: seq<bool>, e: string, x: int)
    requires |taken| <= |ps| && forall k :: 0 <= k < |taken| ==> taken[k]
    ensures TakenSources(ps, taken, e, x) == SourcesOf(ps[..|taken|], e, x)
  {
    if taken != [] {
      var n := |taken| - 1;
      AllTaken(ps, taken[..n], e, x);
      assert ps[..|taken|][..n] == ps[..n];
    }
  }

  ghost predicate Similar(cfg: Extractor, ps: seq<Pitfall>, embs: seq<Option<Vector>>, i: nat, j: nat)
    requires i < |ps| && j < |ps| && |embs| == |ps|
  {
    && ps[i].entityID == ps[j].entityID
    && if embs[i].Some? && embs[j].Some?
       then cfg.measures.cosine(embs[i].value, embs[j].value) >= cfg.dedupThreshold
       else ps[i].signature == ps[j].signature
  }

  /** Every member duplicates its primary; no primary duplicates a later primary. */
  ghost predicate Deduplicated(cfg: Extractor, ps: seq<Pitfall>, embs: seq<Option<Vector>>, groups: seq<seq<nat>>)
    requires GroupsOk(ps, groups) && |embs| == |ps|
  {
    && (forall g, k :: 0 <= g < |groups| && 0 < k < |groups[g]| ==> Similar(cfg, ps, embs, groups[g][0], groups[g][k]))
    && (forall g, h :: 0 <= g < h < |groups| ==> !Similar(cfg, ps, embs, groups[g][0], groups[h][0]))
  }

  /** Since `start`, exactly the members of `g` were taken. */
  ghost predicate TookGroup(ps: seq<Pitfall>, start: seq<bool>, now: seq<bool>, g: seq<nat>)
    requires |start| == |now| == |ps| && GroupOk(ps, g)
  {
    forall e, x :: TakenSources(ps, now, e, x) == TakenSources(ps, start, e, x) + GroupSources(ps, g, e, x)
  }

  lemma TookFirst(ps: seq<Pitfall>, start: seq<bool>, i: nat)
    requires |start| == |ps| && i < |ps| && !start[i]
    ensures GroupOk(ps, [i]) && TookGroup(ps, start, start[i := true], [i])
  {
    var g := [i];
    assert g[..|g| - 1] == [];
    forall e, x
      ensures TakenSources(ps, start[i := true], e, x) == TakenSources(ps, start, e, x) + GroupSources(ps, g, e, x)
    {
      TakeOne(ps, start, i, e, x);
      assert MemberSources(ps, g, x) == MemberSources(ps, g[..|g| - 1], x) + Count(ps[g[|g| - 1]].sources, x);
    }
  }

  lemma TookNext(ps: seq<Pitfall>, start: seq<bool>, now: seq<bool>, g: seq<nat>, j: nat)
    requires |start| == |now| == |ps| && GroupOk(ps, g) && TookGroup(ps, start, now, g)
    requires j < |ps| && !now[j] && j != g[0] && ps[j].entityID == ps[g[0]].entityID
    ensures GroupOk(ps, g + [j]) && TookGroup(ps, start, now[j := true], g + [j])
  {
    var h := g + [j];
    assert h[..|h| - 1] == g && h[0] == g[0];
    forall e, x
      ensures TakenSources(ps, now[j := true], e, x) == TakenSources(ps, start, e, x) + GroupSources(ps, h, e, x)
    {
      TakeOne(ps, now, j, e, x);
      assert MemberSources(ps, h, x) == MemberSources(ps, h[..|h| - 1], x) + Count(ps[h[|h| - 1]].sources, x);
    }
  }

  function Bit(b: bool): nat {
    if b then 1 else 0
  }

  /** Since `start`, the members of `g` were taken, each once, and no other index. */
  ghost predicate TookOnce(start: seq<bool>, now: seq<bool>, g: seq<nat>)
    requires |start| == |now|
  {
    forall j :: 0 <= j < |now| ==> Bit(now[j]) == Bit(start[j]) + multiset(g)[j]
  }

  lemma TookOnceNext(start: seq<bool>, now: seq<bool>, g: seq<nat>, j: nat)
    requires |start| == |now| && TookOnce(start, now, g) && j < |now| && !now[j]
    ensures TookOnce(start, now[j := true], g + [j])
  {
    assert multiset(g + [j]) == multiset(g) + multiset{j};
  }

  /** Members come after their primary. */
  ghost predicate PrimaryFirst(g: seq<nat>) {
    forall k :: 0 < k < |g| ==> g[0] < g[k]
  }

  /** Of the pitfalls before `j`, exactly the new duplicates of pitfall `i` were taken, into the group `g`. */
  ghost predicate Collected(cfg: Extractor, ps: seq<Pitfall>, embs: seq<Option<Vector>>, start: seq<bool>,
                            now: seq<bool>, i: nat, j: nat, g: seq<nat>)
    requires |embs| == |ps| == |start| == |now| && i < |ps|
  {
    && GroupOk(ps, g) && g[0] == i && PrimaryFirst(g)
    && (forall k :: 0 < k < |g| ==> Similar(cfg, ps, embs, i, g[k]))
    && now[i] && (forall m :: 0 <= m < |ps| && start[m] ==> now[m])
    && (forall m :: i < m < j && m < |ps| && !now[m] ==> !Similar(cfg, ps, embs, i, m))
    && TookGroup(ps, start, now, g) && TookOnce(start, now, g)
  }

  lemma CollectedFirst(cfg: Extractor, ps: seq<Pitfall>, embs: seq<Option<Vector>>, start: seq<bool>, i: nat)
    requires |embs| == |ps| == |start| && i < |ps| && !start[i]
    ensures Collected(cfg, ps, embs, start, start[i := true], i, i + 1, [i])
  {
    TookFirst(ps, start, i);
    TookOnceNext(start, start, [], i);
    assert [] + [i] == [i];
  }

  lemma CollectedNext(cfg: Extractor, ps: seq<Pitfall>, embs: seq<Option<Vector>>, start: seq<bool>, now: seq<bool>,
                      i: nat, j: nat, g: seq<nat>)
    requires |embs| == |ps| == |start| == |now| && i < j < |ps| && Collected(cfg, ps, embs, start, now, i, j, g)
    ensures now[j] || !Similar(cfg, ps, embs, i, j) ==> Collected(cfg, ps, embs, start, now, i, j + 1, g)
    ensures !now[j] && Similar(cfg, ps, embs, i, j) ==>
      Collected(cfg, ps, embs, start, now[j := true], i, j + 1, g + [j])
  {
    if !now[j] && Similar(cfg, ps, embs, i, j) {
      TookNext(ps, start, now, g, j);
      TookOnceNext(start, now, g, j);
    }
  }

  /** The inner loop: collect the pitfalls without a group that duplicate pitfall `i`. */
  method CollectDuplicates(cfg: Extractor, ps: seq<Pitfall>, embs: seq<Option<Vector>>, i: nat, taken: array<bool>)
    returns (members: seq<nat>)
    requires |embs| == |ps| == taken.Length && i < |ps| && !taken[i]
    modifies taken
    ensures Collected(cfg, ps, embs, old(taken[..]), taken[..], i, |ps|, members)
  {
    members := [i];
    ghost var start := taken[..];
    CollectedFirst(cfg, ps, embs, start, i);
    taken[i] := true;
    assert taken[..] == start[i := true];
    for j := i + 1 to |ps|
      invariant Collected(cfg, ps, embs, start, taken[..], i, j, members)
    {
      ghost var before := taken[..];
      CollectedNext(cfg, ps, embs, start, before, i, j, members);
      if taken[j] || ps[i].entityID != ps[j].entityID {
        continue;
      }
      var duplicate := if embs[i].Some? && embs[j].Some?
        then cfg.measures.cosine(embs[i].value, embs[j].value) >= cfg.dedupThreshold
        else ps[i].signature == ps[j].signature;
      if duplicate {
        members := members + [j];
        taken[j] := true;
        assert taken[..] == before[j := true];
      }
    }
  }

  /** The groups hold exactly what was taken. */
  ghost predicate GroupsHold(ps: seq<Pitfall>, groups: seq<seq<nat>>, taken: seq<bool>)
    requires GroupsOk(ps, groups) && |taken| == |ps|
  {
    forall e, x :: GroupsSources(ps, groups, e, x) == TakenSources(ps, taken, e, x)
  }

  lemma GroupsHoldNext(ps: seq<Pitfall>, groups: seq<seq<nat>>, start: seq<bool>, now: seq<bool>, g: seq<nat>)
    requires GroupsOk(ps, groups) && |start| == |now| == |ps| && GroupsHold(ps, groups, start)
    requires GroupOk(ps, g) && TookGroup(ps, start, now, g)
    ensures GroupsOk(ps, groups + [g]) && GroupsHold(ps, groups + [g], now)
  {
    assert (groups + [g])[..|groups|] == groups;
  }

  /** Groups in the order of their primaries, each of which comes first in its group. */
  ghost predicate GroupsInOrder(groups: seq<seq<nat>>) {
    && (forall g :: 0 <= g < |groups| ==> groups[g] != [] && PrimaryFirst(groups[g]))
    && (forall g, h :: 0 <= g < h < |groups| ==> groups[g] != [] && groups[h] != [] && groups[g][0] < groups[h][0])
  }

  /** The groups so far, holding what was taken. */
  ghost predicate GroupsOrdered(groups: seq<seq<nat>>, taken: seq<bool>) {
    && GroupsInOrder(groups)
    && (forall j :: 0 <= j < |taken| ==> Pool<nat>(groups)[j] == Bit(taken[j]))
  }

  lemma GroupsOrderedNext(groups: seq<seq<nat>>, start: seq<bool>, now: seq<bool>, g: seq<nat>)
    requires GroupsOrdered(groups, start) && |start| == |now| && TookOnce(start, now, g)
    requires g != [] && PrimaryFirst(g) && forall h :: 0 <= h < |groups| ==> groups[h][0] < g[0]
    ensures GroupsOrdered(groups + [g], now)
  {
    var longer := groups + [g];
    PoolSnoc<nat>(longer, |groups|);
    assert longer[..|groups|] == groups && longer[..|groups| + 1] == longer;
  }

  lemma TakenIsPartition(ps: seq<Pitfall>, groups: seq<seq<nat>>, taken: seq<bool>)
    requires GroupsOk(ps, groups) && GroupsOrdered(groups, taken) && |taken| == |ps|
    requires forall j :: 0 <= j < |taken| ==> taken[j]
    ensures Partition(groups, |ps|)
  {
    forall j: nat ensures Pool<nat>(groups)[j] == multiset(Iota(|ps|))[j] {
      IotaCounts(|ps|, j);
      PoolMember<nat>(groups, j);
    }
  }

  /** The state of the outer loop before pitfall `i`. */
  ghost predicate Grouped(cfg: Extractor, ps: seq<Pitfall>, embs: seq<Option<Vector>>, groups: seq<seq<nat>>,
                          taken: seq<bool>, i: nat)
    requires |embs| == |ps| == |taken| && i <= |ps|
  {
    && GroupsOk(ps, groups) && |groups| <= i
    && (forall j :: 0 <= j < i ==> taken[j])
    && (forall g :: 0 <= g < |groups| ==> groups[g][0] < i)
    && (forall g, j :: 0 <= g < |groups| && groups[g][0] < j < |ps| && !taken[j] ==>
          !Similar(cfg, ps, embs, groups[g][0], j))
    && Deduplicated(cfg, ps, embs, groups)
    && GroupsHold(ps, groups, taken) && GroupsOrdered(groups, taken)
  }

  lemma GroupedFirst(cfg: Extractor, ps: seq<Pitfall>, embs: seq<Option<Vector>>, taken: seq<bool>)
    requires |embs| == |ps| == |taken| && forall j :: 0 <= j < |taken| ==> !taken[j]
    ensures Grouped(cfg, ps, embs, [], taken, 0)
  {
    forall e, x ensures TakenSources(ps, taken, e, x) == 0 { NoneTaken(ps, taken, e, x); }
  }

  lemma DeduplicatedNext(cfg: Extractor, ps: seq<Pitfall>, embs: seq<Option<Vector>>, groups: seq<seq<nat>>,
                         g: seq<nat>)
    requires GroupsOk(ps, groups) && GroupOk(ps, g) && |embs| == |ps| && Deduplicated(cfg, ps, embs, groups)
    requires forall k :: 0 < k < |g| ==> Similar(cfg, ps, embs, g[0], g[k])
    requires forall h :: 0 <= h < |groups| ==> !Similar(cfg, ps, embs, groups[h][0], g[0])
    ensures GroupsOk(ps, groups + [g]) && Deduplicated(cfg, ps, embs, groups + [g])
  {}

  lemma GroupedNext(cfg: Extractor, ps: seq<Pitfall>, embs: seq<Option<Vector>>, groups: seq<seq<nat>>,
                    start: seq<bool>, now: seq<bool>, i: nat, g: seq<nat>)
    requires |embs| == |ps| == |start| == |now| && i < |ps| && Grouped(cfg, ps, embs, groups, start, i) && !start[i]
    requires Collected(cfg, ps, embs, start, now, i, |ps|, g)
    ensures Grouped(cfg, ps, embs, groups + [g], now, i + 1)
  {
    GroupsHoldNext(ps, groups, start, now, g);
    GroupsOrderedNext(groups, start, now, g);
    DeduplicatedNext(cfg, ps, embs, groups, g);
  }

  method GroupDuplicates(cfg: Extractor, ps: seq<Pitfall>, embs: seq<Option<Vector>>) returns (groups: seq<seq<nat>>)
    requires |embs| == |ps|
    ensures GroupsOk(ps, groups) && |groups| <= |ps|
    ensures Partition(groups, |ps|) && GroupsInOrder(groups)
    ensures Deduplicated(cfg, ps, embs, groups)
    ensures forall e, x :: GroupsSources(ps, groups, e, x) == SourcesOf(ps, e, x)
  {
    var taken := new bool[|ps|](_ => false);
    groups := [];
    GroupedFirst(cfg, ps, embs, taken[..]);
    for i := 0 to |ps|
      invariant Grouped(cfg, ps, embs, groups, taken[..], i)
    {
      if taken[i] {
        continue;
      }
      ghost var start := taken[..];
      var members := CollectDuplicates(cfg, ps, embs, i, taken);
      GroupedNext(cfg, ps, embs, groups, start, taken[..], i, members);
      groups := groups + [members];
    }
    assert ps[..|taken[..]|] == ps;
    TakenIsPartition(ps, groups, taken[..]);
    forall e, x ensures GroupsSources(ps, groups, e, x) == SourcesOf(ps, e, x) { AllTaken(ps, taken[..], e, x); }
  }

  lemma {:induction false} CountsAgree(ps: seq<Pitfall>, members: seq<nat>)
    requires forall k :: 0 <= k < |members| ==> members[k] < |ps|
    requires forall k :: 0 <= k < |ps| ==> Counted(ps[k])
    ensures CountOf(ps, members) == SizeOf(ps, members)
  {
    if members != [] {
      CountsAgree(ps, members[..|members| - 1]);
    }
  }

  /** The result of one group: the lone member, or the merge. */
  method ResolveGroup(ps: seq<Pitfall>, mg: seq<nat>) returns (p: Pitfall)
    requires GroupOk(ps, mg) && forall k :: 0 <= k < |ps| ==> Counted(ps[k])
    ensures Counted(p)
    ensures forall e, x :: SourcesIf(p, e, x) == GroupSources(ps, mg, e, x)
    ensures ResolvedTo(ps, mg, p)
  {
    CountsAgree(ps, mg);
    if |mg| == 1 {
      p := ps[mg[0]];
      MergedFromOne(ps, mg);
      assert mg[..1] == mg;
    } else {
      p := MergePitfallGroup(ps, mg);
    }
  }

  /** A lone pitfall stays as it is; several are merged. */
  ghost predicate ResolvedTo(ps: seq<Pitfall>, g: seq<nat>, p: Pitfall)
    requires GroupOk(ps, g)
  {
    if |g| == 1 then p == ps[g[0]] else MergedFrom(ps, g, p)
  }

  function SignatureVectors(m: Measures, ps: seq<Pitfall>): (embs: seq<Option<Vector>>)
    ensures |embs| == |ps| && forall i :: 0 <= i < |ps| ==> embs[i] == m.embed(ps[i].signature)
  {
    seq(|ps|, i requires 0 <= i < |ps| => m.embed(ps[i].signature))
  }

  /** The results are those of the greedy groups, one for each. */
  ghost predicate DedupedBy(cfg: Extractor, ps: seq<Pitfall>, result: seq<Pitfall>, groups: seq<seq<nat>>) {
    && GroupsOk(ps, groups) && Partition(groups, |ps|) && GroupsInOrder(groups)
    && Deduplicated(cfg, ps, SignatureVectors(cfg.measures, ps), groups)
    && |result| == |groups| && forall g :: 0 <= g < |groups| ==> ResolvedTo(ps, groups[g], result[g])
  }

  lemma FewPitfallsStay(cfg: Extractor, ps: seq<Pitfall>)
    requires |ps| <= 1
    ensures DedupedBy(cfg, ps, ps, seq(|ps|, i => [i]))
  {
    SingletonsPartition(seq(|ps|, i => [i]));
  }

  method DeduplicatePitfalls(cfg: Extractor, ps: seq<Pitfall>)
    returns (result: seq<Pitfall>, ghost groups: seq<seq<nat>>)
    requires forall k :: 0 <= k < |ps| ==> Counted(ps[k])
    ensures forall k :: 0 <= k < |result| ==> Counted(result[k])
    ensures forall e, x :: SourcesOf(result, e, x) == SourcesOf(ps, e, x)
    ensures |result| <= |ps|
    ensures DedupedBy(cfg, ps, result, groups)
  {
    if |ps| <= 1 {
      FewPitfallsStay(cfg, ps);
      return ps, seq(|ps|, i => [i]);
    }
    var embs := SignatureVectors(cfg.measures, ps);
    var merged := GroupDuplicates(cfg, ps, embs);
    groups := merged;
    result := [];
    for gi := 0 to |merged|
      invariant ResolvedSoFar(ps, merged[..gi], result)
    {
      var p := ResolveGroup(ps, merged[gi]);
      ResolvedNext(ps, merged[..gi], merged[gi], result, p);
      assert merged[..gi + 1] == merged[..gi] + [merged[gi]];
      result := result + [p];
    }
    assert merged[..|merged|] == merged;
  }

  /** One counted result for each group, drawing on the same sources. */
  ghost predicate ResolvedSoFar(ps: seq<Pitfall>, groups: seq<seq<nat>>, result: seq<Pitfall>)
    requires GroupsOk(ps, groups)
  {
    && |result| == |groups|
    && (forall k :: 0 <= k < |groups| ==> Counted(result[k]) && ResolvedTo(ps, groups[k], result[k]))
    && (forall e, x :: SourcesOf(result, e, x) == GroupsSources(ps, groups, e, x))
  }

  lemma ResolvedNext(ps: seq<Pitfall>, groups: seq<seq<nat>>, g: seq<nat>, result: seq<Pitfall>, p: Pitfall)
    requires GroupsOk(ps, groups) && GroupOk(ps, g) && ResolvedSoFar(ps, groups, result)
    requires Counted(p) && ResolvedTo(ps, g, p) && forall e, x :: SourcesIf(p, e, x) == GroupSources(ps, g, e, x)
    ensures GroupsOk(ps, groups + [g]) && ResolvedSoFar(ps, groups + [g], result + [p])
  {
    assert (groups + [g])[..|groups|] == groups;
    SourcesOfSnoc(result, p);
  }

  lemma {:induction false} PoolOfNonEmpty<T>(s: seq<seq<T>>)
    requires forall k :: 0 <= k < |s| ==> s[k] != []
    ensures |Pool(s)| >= |s|
    ensures |Pool(s)| == |s| <==> forall k :: 0 <= k < |s| ==> |s[k]| == 1
  {
    if s != [] {
      PoolOfNonEmpty(s[1..]);
      assert forall k :: 1 <= k < |s| ==> s[k] == s[1..][k - 1];
      assert |Pool(s)| == |s[0]| + |Pool(s[1..])|;
    }
  }

  /** Ascending places that take as many values as there are below `n` are 0, 1, 2 and so on. */
  lemma {:induction false} AscendingPlaces(groups: seq<seq<nat>>, n: nat, g: nat)
    requires GroupsInOrder(groups) && g < |groups| == n && forall h :: 0 <= h < n ==> groups[h][0] < n
    ensures groups[g][0] == g
  {
    AtLeastOwnPlace(groups, g);
    AtMostOwnPlace(groups, n, g);
  }

  lemma {:induction false} AtLeastOwnPlace(groups: seq<seq<nat>>, g: nat)
    requires GroupsInOrder(groups) && g < |groups|
    ensures groups[g][0] >= g
  {
    if g > 0 { AtLeastOwnPlace(groups, g - 1); }
  }

  lemma {:induction false} AtMostOwnPlace(groups: seq<seq<nat>>, n: nat, g: nat)
    requires GroupsInOrder(groups) && g < |groups| == n && groups[n - 1] != [] && groups[n - 1][0] < n
    ensures groups[g][0] <= g
    decreases n - g
  {
    if g < n - 1 { AtMostOwnPlace(groups, n, g + 1); }
  }

  lemma LoneIff(cfg: Extractor, ps: seq<Pitfall>, embs: seq<Option<Vector>>, groups: seq<seq<nat>>)
    requires GroupsOk(ps, groups) && Partition(groups, |ps|) && GroupsInOrder(groups)
    requires |embs| == |ps| && Deduplicated(cfg, ps, embs, groups)
    ensures |groups| <= |ps|
    ensures |groups| == |ps| <==> forall i, j :: 0 <= i < j < |ps| ==> !Similar(cfg, ps, embs, i, j)
    ensures |groups| == |ps| ==> forall g :: 0 <= g < |groups| ==> groups[g] == [g]
  {
    var n := |ps|;
    assert |multiset(Iota(n))| == n;
    PoolOfNonEmpty<nat>(groups);
    if |groups| == n {
      forall g | 0 <= g < n ensures groups[g] == [g] { AscendingPlaces(groups, n, g); }
      forall i, j | 0 <= i < j < n ensures !Similar(cfg, ps, embs, i, j) {
        assert groups[i][0] == i && groups[j][0] == j;
      }
    } else {
      var g :| 0 <= g < |groups| && |groups[g]| != 1;
      assert groups[g][0] < groups[g][1] && Similar(cfg, ps, embs, groups[g][0], groups[g][1]);
    }
  }

  lemma SimilarMeans(cfg: Extractor, ps: seq<Pitfall>, i: nat, j: nat)
    requires i < |ps| && j < |ps|
    ensures !Similar(cfg, ps, SignatureVectors(cfg.measures, ps), i, j) <==> (
      ps[i].entityID == ps[j].entityID ==>
        match (cfg.measures.embed(ps[i].signature), cfg.measures.embed(ps[j].signature))
        case (Some(v), Some(w)) => cfg.measures.cosine(v, w) < cfg.dedupThreshold
        case _ => ps[i].signature != ps[j].signature)
  {}

  /**
   Deduplication leaves the list as it is exactly when no two pitfalls of one entity are close by the
   vectors of their signatures or, without both vectors, have the same signature.
   */
  lemma UnmergedIff(cfg: Extractor, ps: seq<Pitfall>, result: seq<Pitfall>, groups: seq<seq<nat>>)
    requires DedupedBy(cfg, ps, result, groups)
    ensures |result| <= |ps| && (|result| == |ps| ==> result == ps)
    ensures |result| == |ps| <==>
      forall i, j :: 0 <= i < j < |ps| && ps[i].entityID == ps[j].entityID ==>
        match (cfg.measures.embed(ps[i].signature), cfg.measures.embed(ps[j].signature))
        case (Some(v), Some(w)) => cfg.measures.cosine(v, w) < cfg.dedupThreshold
        case _ => ps[i].signature != ps[j].signature
  {
    LoneIff(cfg, ps, SignatureVectors(cfg.measures, ps), groups);
    if |groups| == |ps| {
      forall g | 0 <= g < |ps| ensures result[g] == ps[g] { assert ResolvedTo(ps, groups[g], result[g]); }
    }
    forall i, j | 0 <= i < j < |ps|
      ensures !Similar(cfg, ps, SignatureVectors(cfg.measures, ps), i, j) <==> (
        ps[i].entityID == ps[j].entityID ==>
          match (cfg.measures.embed(ps[i].signature), cfg.measures.embed(ps[j].signature))
          case (Some(v), Some(w)) => cfg.measures.cosine(v, w) < cfg.dedupThreshold
          case _ => ps[i].signature != ps[j].signature)
    {
      SimilarMeans(cfg, ps, i, j);
    }
  }
}
