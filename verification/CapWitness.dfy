/**
 The documented idempotence of the update signal fails from 501 memories on: a project whose
 newest memory covers all others, and more others than one search returns.
 */
module CapWitness {
  import opened Wrappers
  import opened SortSlice
  import opened MemoryStore
  import opened UpdateTracker
  import opened SignalFixpoint
  import opened SampleTexts

  /** Memory `i` of `n`: all but the newest say the same. */
  function Nth(n: nat, i: int): Memory {
    Memory(i, "p", "", "", if i == n then "bcd" else "abc", 3, 0.5, 1.0, i, None, None, "", [], false, 0.0, i)
  }

  function Crowd(n: nat): View {
    View(map i | 1 <= i <= n :: Nth(n, i), [])
  }

  function NewestOfCrowd(n: nat): (peers: seq<Memory>)
    requires n > UPDATE_PEER_POOL
    ensures |peers| == UPDATE_PEER_POOL && forall i :: 0 <= i < |peers| ==> peers[i] == Nth(n, n - i)
  {
    seq(UPDATE_PEER_POOL, i => Nth(n, n - i))
  }

  /** The newest 500 of a crowd are those above `n - 500`. */
  lemma NewestMembers(n: nat)
    requires n > UPDATE_PEER_POOL
    ensures forall m :: m in NewestOfCrowd(n) ==> m == Nth(n, m.id) && n - UPDATE_PEER_POOL < m.id <= n
    ensures forall i :: n - UPDATE_PEER_POOL < i <= n ==> Nth(n, i) in NewestOfCrowd(n)
  {
    var peers := NewestOfCrowd(n);
    forall i | n - UPDATE_PEER_POOL < i <= n ensures Nth(n, i) in peers {
      assert peers[n - i] == Nth(n, i);
    }
  }

  /** They are an answer the peer search may give. */
  lemma NewestAreTopRanked(cosine: Cosine, n: nat)
    requires n > UPDATE_PEER_POOL
    ensures ValidPeers(cosine, Crowd(n), n, NewestOfCrowd(n))
  {
    NewestMembers(n);
    forall i | 0 < i ensures Rank(cosine, PeerQuery("p"))(Nth(n, i)) == i as real {
      RankIsTime(cosine, "p", Nth(n, i));
      assert Nth(n, i).EffectiveOccurredAt() == i;
    }
    assert TopRanked(cosine, Crowd(n).mems, PeerQuery("p"), NewestOfCrowd(n));
  }

  lemma NewestCoversOthers(l: Language, n: nat, k: int)
    requires Compares(l) && 0 < k <= n
    ensures k in PeerPool(Crowd(n), "p")
    ensures CoveredBy(l, Crowd(n), n, k) <==> k < n
  {
    forall i | 0 < i <= n ensures Crowd(n).mems[i].EffectiveOccurredAt() == i {}
  }

  ghost function Between(lo: nat, hi: nat): (s: set<int>)
    requires lo <= hi
    ensures |s| == hi - lo && forall i :: i in s <==> lo < i <= hi
    decreases hi
  {
    if lo == hi then {} else Between(lo, hi - 1) + {hi}
  }

  lemma NewerInCrowd(n: nat, k: nat)
    requires 0 < k <= n
    ensures Newer(Crowd(n), PeerPool(Crowd(n), "p"), k) == Between(k, n)
  {
    forall i | 0 < i <= n ensures Crowd(n).mems[i].EffectiveOccurredAt() == i && i in PeerPool(Crowd(n), "p") {}
  }

  /** No two memories of a crowd tie. */
  lemma NoLevelInCrowd(n: nat, pool: set<int>, k: int)
    requires 0 < k <= n
    ensures Level(Crowd(n), pool, k) == {} && Decided(Crowd(n), pool, k)
  {
    forall i | 0 < i <= n ensures Crowd(n).mems[i].EffectiveOccurredAt() == i {}
    assert Level(Crowd(n), pool, k) == {};
  }

  /** The first signal reaches those above `n - 500`. */
  lemma ReachedInCrowd(l: Language, n: nat, k: nat)
    requires Compares(l) && 0 < k <= n
    ensures Reached(l, Crowd(n), n, k) <==> n - UPDATE_PEER_POOL < k < n
  {
    NewestCoversOthers(l, n, k);
    NewerInCrowd(n, k);
  }

  lemma LeftInCrowd(l: Language, n: nat)
    requires Compares(l) && n > UPDATE_PEER_POOL
    ensures PoolAfter(l, Crowd(n), n) <= Between(0, n - UPDATE_PEER_POOL) + {n}
  {
    forall k | k in PoolAfter(l, Crowd(n), n) ensures k in Between(0, n - UPDATE_PEER_POOL) + {n} {
      if 0 < k <= n { ReachedInCrowd(l, n, k); }
    }
  }

  lemma OnlyTheTop(n: nat, pool: set<int>, k: nat)
    requires 0 < k <= n && pool <= Between(0, k) + {n}
    ensures |Newer(Crowd(n), pool, k)| <= 1
  {
    forall i | i in Newer(Crowd(n), pool, k) ensures i == n {
      assert Crowd(n).mems[i].EffectiveOccurredAt() == i;
      assert Crowd(n).mems[k].EffectiveOccurredAt() == k;
    }
    SubsetSize(Newer(Crowd(n), pool, k), {n});
  }

  /** The newest of those it misses has only the signalled memory left above it. */
  lemma FewNewerThanMissed(l: Language, n: nat)
    requires Compares(l) && n > UPDATE_PEER_POOL
    ensures |Newer(Crowd(n), PoolAfter(l, Crowd(n), n), n - UPDATE_PEER_POOL)| < UPDATE_PEER_POOL
  {
    LeftInCrowd(l, n);
    OnlyTheTop(n, PoolAfter(l, Crowd(n), n), n - UPDATE_PEER_POOL);
  }

  lemma SomeAreMissed(l: Language, n: nat)
    requires Compares(l) && n > UPDATE_PEER_POOL
    ensures Reached(l, Crowd(n), n, n - 1)
    ensures CoveredBy(l, Crowd(n), n, n - UPDATE_PEER_POOL) && !Reached(l, Crowd(n), n, n - UPDATE_PEER_POOL)
  {
    NewestCoversOthers(l, n, n - UPDATE_PEER_POOL);
    ReachedInCrowd(l, n, n - UPDATE_PEER_POOL);
    ReachedInCrowd(l, n, n - 1);
  }

  /**
   From 501 memories on the signal is not idempotent: whatever the searches answer, the newest
   memory's first signal finds something and so does its second.
   */
  lemma CapLeavesSomeBehind(cosine: Cosine, n: nat, now: int, peers: seq<Memory>, peers': seq<Memory>)
    requires n > UPDATE_PEER_POOL
    ensures Keyed(Crowd(n).mems) && ValidPeers(cosine, Crowd(n), n, NewestOfCrowd(n))
    ensures ValidPeers(cosine, Crowd(n), n, peers) ==>
      && Found(SampleLanguage(), Crowd(n), n, peers) != []
      && var w := Pass(SampleLanguage(), Crowd(n), n, 1.5, peers, now);
         ValidPeers(cosine, w, n, peers') ==> Found(SampleLanguage(), w, n, peers') != []
  {
    var l, v := SampleLanguage(), Crowd(n);
    NewestAreTopRanked(cosine, n);
    TextsCompare();
    SomeAreMissed(l, n);
    FewNewerThanMissed(l, n);
    forall k, pool | CoveredBy(l, v, n, k) ensures Decided(v, pool, k) { NoLevelInCrowd(n, pool, k); }
    if ValidPeers(cosine, v, n, peers) {
      FoundNothingIff(cosine, l, v, n, peers);
      if ValidPeers(cosine, Pass(l, v, n, 1.5, peers, now), n, peers') {
        SecondPassFindsNothingIff(cosine, l, v, n, 1.5, peers, now, peers');
      }
    }
  }
}
