/**
 The shape of the SUPERSEDED graph: a forest whose roots are the active memories, and exactly
 which supersessions keep it one.
 */
module SupersededGraph {
  import opened SortSlice
  import opened MemoryStore
  import opened UpdateTracker
  import opened SignalFixpoint

  predicate Link(v: View, a: int, b: int) {
    Edge(a, b, Superseded) in v.edges
  }

  /** One incoming edge at most. */
  ghost predicate SingleParents(edges: seq<Edge>) {
    forall i, j :: 0 <= i < j < |edges| && edges[i].kind == Superseded && edges[j].kind == Superseded ==>
      edges[i].to != edges[j].to
  }

  ghost predicate HasParent(v: View, id: int) {
    exists a :: Link(v, a, id)
  }

  /** Edges lead from stored memories to retired ones and away from the roots; exactly the retired have a parent. */
  ghost predicate Forest(v: View, rank: map<int, nat>) {
    && Keyed(v.mems) && rank.Keys == v.mems.Keys
    && (forall a, b :: Link(v, a, b) ==> a in v.mems && b in v.mems && !v.mems[b].Active() && rank[a] < rank[b])
    && SingleParents(v.edges)
    && (forall id :: id in v.mems && !v.mems[id].Active() ==> HasParent(v, id))
  }

  lemma ParentIsUnique(v: View, a: int, a': int, b: int)
    requires SingleParents(v.edges) && Link(v, a, b) && Link(v, a', b)
    ensures a == a'
  {
    var i :| 0 <= i < |v.edges| && v.edges[i] == Edge(a, b, Superseded);
    var j :| 0 <= j < |v.edges| && v.edges[j] == Edge(a', b, Superseded);
    assert i < j || j < i || i == j;
  }

  /** Follow the incoming edges back to an active memory. */
  ghost function Root(v: View, rank: map<int, nat>, id: int): (r: int)
    requires Forest(v, rank) && id in v.mems
    ensures r in v.mems && v.mems[r].Active()
    ensures v.mems[id].Active() ==> r == id
    decreases rank[id]
  {
    if v.mems[id].Active() then id else
    assert HasParent(v, id);
    var a :| Link(v, a, id);
    Root(v, rank, a)
  }

  lemma LinkSharesRoot(v: View, rank: map<int, nat>, a: int, b: int)
    requires Forest(v, rank) && Link(v, a, b)
    ensures Root(v, rank, a) == Root(v, rank, b)
  {
    assert HasParent(v, b);
    var a' :| Link(v, a', b) && Root(v, rank, b) == Root(v, rank, a');
    ParentIsUnique(v, a, a', b);
  }

  /** A path along the edges. */
  ghost predicate Chain(v: View, p: seq<int>) {
    p != [] && forall i :: 0 <= i < |p| - 1 ==> Link(v, p[i], p[i + 1])
  }

  ghost predicate Acyclic(v: View) {
    forall p :: Chain(v, p) && |p| > 1 ==> p[0] != p[|p| - 1]
  }

  lemma {:induction false} ChainDescends(v: View, rank: map<int, nat>, p: seq<int>)
    requires Forest(v, rank) && Chain(v, p) && |p| > 1
    ensures p[0] in v.mems && p[|p| - 1] in v.mems && rank[p[0]] < rank[p[|p| - 1]]
  {
    var n := |p| - 1;
    assert Link(v, p[n - 1], p[n]);
    if n > 1 { ChainDescends(v, rank, p[..n]); }
  }

  lemma ForestIsAcyclic(v: View, rank: map<int, nat>)
    requires Forest(v, rank)
    ensures Acyclic(v)
  {
    forall p | Chain(v, p) && |p| > 1 ensures p[0] != p[|p| - 1] { ChainDescends(v, rank, p); }
  }

  /** Every memory is reached from its root. */
  lemma {:induction false} RootReaches(v: View, rank: map<int, nat>, id: int) returns (p: seq<int>)
    requires Forest(v, rank) && id in v.mems
    ensures Chain(v, p) && p[0] == Root(v, rank, id) && p[|p| - 1] == id
    decreases rank[id]
  {
    if v.mems[id].Active() {
      p := [id];
    } else {
      assert HasParent(v, id);
      var a :| Link(v, a, id) && Root(v, rank, id) == Root(v, rank, a);
      p := RootReaches(v, rank, a);
      p := p + [id];
    }
  }

  /** No other active memory reaches it. */
  lemma {:induction false} RootIsUnique(v: View, rank: map<int, nat>, p: seq<int>)
    requires Forest(v, rank) && Chain(v, p) && p[0] in v.mems && v.mems[p[0]].Active()
    ensures p[|p| - 1] in v.mems && Root(v, rank, p[|p| - 1]) == p[0]
    decreases |p|
  {
    if |p| > 1 {
      var n := |p| - 1;
      assert Link(v, p[n - 1], p[n]);
      RootIsUnique(v, rank, p[..n]);
      LinkSharesRoot(v, rank, p[n - 1], p[n]);
    }
  }

  // ---------------------------------------------------------------- growing the graph

  /** A fresh active memory is one more root. */
  lemma FreshMemory(v: View, rank: map<int, nat>, m: Memory)
    requires Forest(v, rank) && m.id !in v.mems && m.id != NIL_ID && m.Active()
    ensures Forest(View(v.mems[m.id := m], v.edges), rank[m.id := 0])
    ensures Root(View(v.mems[m.id := m], v.edges), rank[m.id := 0], m.id) == m.id
  {
    var w := View(v.mems[m.id := m], v.edges);
    assert forall a, b :: Link(w, a, b) <==> Link(v, a, b);
    forall id | id in w.mems && !w.mems[id].Active() ensures HasParent(w, id) {
      assert HasParent(v, id);
    }
  }

  /** Rewriting memories without retiring or reviving any. */
  lemma SameForest(v: View, rank: map<int, nat>, w: View)
    requires Forest(v, rank) && w.edges == v.edges && w.mems.Keys == v.mems.Keys && Keyed(w.mems)
    requires forall k :: k in v.mems ==> (w.mems[k].Active() <==> v.mems[k].Active())
    ensures Forest(w, rank)
  {
    assert forall a, b :: Link(w, a, b) <==> Link(v, a, b);
    forall id | id in w.mems && !w.mems[id].Active() ensures HasParent(w, id) {
      assert HasParent(v, id);
    }
  }

  /** Other kinds of edges do not matter. */
  lemma OtherEdges(v: View, rank: map<int, nat>, more: seq<Edge>)
    requires Forest(v, rank) && forall e :: e in more ==> e.kind != Superseded
    ensures Forest(v.(edges := v.edges + more), rank)
  {
    var w := v.(edges := v.edges + more);
    assert forall a, b :: Link(w, a, b) <==> Link(v, a, b);
    assert forall k :: |v.edges| <= k < |w.edges| ==> w.edges[k] in more;
    forall i, j | 0 <= i < j < |w.edges| && w.edges[i].kind == Superseded && w.edges[j].kind == Superseded
      ensures w.edges[i].to != w.edges[j].to
    {
      assert j < |v.edges|;
    }
    forall id | id in w.mems && !w.mems[id].Active() ensures HasParent(w, id) {
      assert HasParent(v, id);
    }
  }

  /** `w` is `v` after the active memories `ids` were retired in favour of `carrier`. */
  ghost predicate Supersession(v: View, w: View, carrier: int, ids: seq<int>) {
    && w.edges == v.edges + SupersededEdges(carrier, ids)
    && w.mems.Keys == v.mems.Keys && Keyed(w.mems) && carrier in v.mems
    && Distinct(ids) && carrier !in ids
    && (forall k :: k in ids ==> k in v.mems && v.mems[k].Active())
    && (forall k :: k in v.mems ==> (w.mems[k].Active() <==> v.mems[k].Active() && k !in ids))
  }

  lemma SupersessionLinks(v: View, w: View, carrier: int, ids: seq<int>)
    requires w.edges == v.edges + SupersededEdges(carrier, ids)
    ensures forall a, b :: Link(w, a, b) <==> Link(v, a, b) || (a == carrier && b in ids)
  {
    var more := SupersededEdges(carrier, ids);
    forall a, b ensures Edge(a, b, Superseded) in more <==> a == carrier && b in ids {
      if a == carrier && b in ids {
        var i :| 0 <= i < |ids| && ids[i] == b;
        assert more[i] == Edge(a, b, Superseded);
      }
    }
  }

  lemma StillSingleParents(v: View, rank: map<int, nat>, w: View, carrier: int, ids: seq<int>)
    requires Forest(v, rank) && Supersession(v, w, carrier, ids)
    ensures SingleParents(w.edges)
  {
    var n := |v.edges|;
    forall i, j | 0 <= i < j < |w.edges| && w.edges[i].kind == Superseded && w.edges[j].kind == Superseded
      ensures w.edges[i].to != w.edges[j].to
    {
      if i < n <= j {
        assert Link(v, v.edges[i].from, v.edges[i].to);
        assert w.edges[j].to == ids[j - n];
      } else if n <= i {
        assert w.edges[i].to == ids[i - n] && w.edges[j].to == ids[j - n];
      }
    }
  }

  /** The trees of the retired roots hang below the carrier. */
  ghost function Shifted(v: View, rank: map<int, nat>, carrier: int, ids: seq<int>): map<int, nat>
    requires Forest(v, rank) && carrier in v.mems
  {
    map x | x in v.mems :: rank[x] + if Root(v, rank, x) in ids then rank[carrier] + 1 else 0
  }

  lemma SparedRootKeepsForest(v: View, rank: map<int, nat>, w: View, carrier: int, ids: seq<int>)
    requires Forest(v, rank) && Supersession(v, w, carrier, ids)
    requires Root(v, rank, carrier) !in ids
    ensures Forest(w, Shifted(v, rank, carrier, ids))
  {
    var rank' := Shifted(v, rank, carrier, ids);
    SupersessionLinks(v, w, carrier, ids);
    StillSingleParents(v, rank, w, carrier, ids);
    forall a, b | Link(w, a, b) ensures a in w.mems && b in w.mems && !w.mems[b].Active() && rank'[a] < rank'[b] {
      if Link(v, a, b) { LinkSharesRoot(v, rank, a, b); }
    }
    forall id | id in w.mems && !w.mems[id].Active() ensures HasParent(w, id) {
      if id in ids {
        assert Link(w, carrier, id);
      } else {
        assert HasParent(v, id);
        var a :| Link(v, a, id);
        assert Link(w, a, id);
      }
    }
  }

  lemma RetiredRootClosesCycle(v: View, rank: map<int, nat>, w: View, carrier: int, ids: seq<int>)
    requires Forest(v, rank) && Supersession(v, w, carrier, ids)
    requires Root(v, rank, carrier) in ids
    ensures !Acyclic(w)
  {
    SupersessionLinks(v, w, carrier, ids);
    var p := RootReaches(v, rank, carrier);
    var cycle := p + [Root(v, rank, carrier)];
    assert Chain(w, cycle);
  }

  /**
   A supersession keeps the graph free of cycles exactly when it spares the root of its carrier;
   an active carrier is its own root, so it always does.
   */
  lemma AcyclicExactlyWhenRootIsSpared(v: View, rank: map<int, nat>, w: View, carrier: int, ids: seq<int>)
    requires Forest(v, rank) && Supersession(v, w, carrier, ids)
    ensures Acyclic(w) <==> Root(v, rank, carrier) !in ids
    ensures v.mems[carrier].Active() ==> Acyclic(w)
  {
    if Root(v, rank, carrier) in ids {
      RetiredRootClosesCycle(v, rank, w, carrier, ids);
    } else {
      SparedRootKeepsForest(v, rank, w, carrier, ids);
      ForestIsAcyclic(w, Shifted(v, rank, carrier, ids));
    }
  }

  // ---------------------------------------------------------------- the explicit signal

  lemma PassSupersedes(cosine: Cosine, l: Language, v: View, id: int, boost: real, peers: seq<Memory>, now: int)
    requires Keyed(v.mems) && ValidPeers(cosine, v, id, peers)
    ensures Supersession(v, Pass(l, v, id, boost, peers, now), id, OldIDs(Found(l, v, id, peers)))
  {
    PassEffect(cosine, l, v, id, boost, peers, now);
    FoundAreOthers(cosine, l, v, id, peers);
  }

  /**
   A signal on any stored memory closes a cycle exactly when that memory covers the root it hangs
   below and the root is among the 500 newest of the project; within the cap, exactly when it
   covers its root.
   */
  lemma SignalKeepsAcyclicIff(cosine: Cosine, l: Language, v: View, rank: map<int, nat>, id: int, boost: real,
                              peers: seq<Memory>, now: int)
    requires Forest(v, rank) && ValidPeers(cosine, v, id, peers)
    requires CoveredBy(l, v, id, Root(v, rank, id)) ==> Decided(v, PeerPool(v, v.mems[id].project), Root(v, rank, id))
    ensures Acyclic(Pass(l, v, id, boost, peers, now)) <==> !Reached(l, v, id, Root(v, rank, id))
    ensures |PeerPool(v, v.mems[id].project)| <= UPDATE_PEER_POOL ==>
      (Acyclic(Pass(l, v, id, boost, peers, now)) <==> !CoveredBy(l, v, id, Root(v, rank, id)))
  {
    var r, pool := Root(v, rank, id), PeerPool(v, v.mems[id].project);
    PassSupersedes(cosine, l, v, id, boost, peers, now);
    AcyclicExactlyWhenRootIsSpared(v, rank, Pass(l, v, id, boost, peers, now), id, OldIDs(Found(l, v, id, peers)));
    FoundIffReached(cosine, l, v, id, peers, r);
    if r in pool { SubsetSize(Newer(v, pool, r), pool - {r}); }
  }

  /** Where the cap cuts through the tie of a covered root, either outcome is possible. */
  lemma CutTieLeavesCycleOpen(cosine: Cosine, l: Language, v: View, rank: map<int, nat>, id: int, boost: real, now: int)
    returns (safe: seq<Memory>, unsafe: seq<Memory>)
    requires Forest(v, rank) && id in v.mems && CoveredBy(l, v, id, Root(v, rank, id))
    requires !Decided(v, PeerPool(v, v.mems[id].project), Root(v, rank, id))
    ensures ValidPeers(cosine, v, id, safe) && Acyclic(Pass(l, v, id, boost, safe, now))
    ensures ValidPeers(cosine, v, id, unsafe) && !Acyclic(Pass(l, v, id, boost, unsafe, now))
  {
    var r := Root(v, rank, id);
    unsafe, safe := CutTieIsOpen(cosine, v, id, r);
    FoundIffReported(cosine, l, v, id, safe, r);
    FoundIffReported(cosine, l, v, id, unsafe, r);
    PassSupersedes(cosine, l, v, id, boost, safe, now);
    PassSupersedes(cosine, l, v, id, boost, unsafe, now);
    AcyclicExactlyWhenRootIsSpared(v, rank, Pass(l, v, id, boost, safe, now), id, OldIDs(Found(l, v, id, safe)));
    AcyclicExactlyWhenRootIsSpared(v, rank, Pass(l, v, id, boost, unsafe, now), id, OldIDs(Found(l, v, id, unsafe)));
  }
}
