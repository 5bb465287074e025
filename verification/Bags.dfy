/** Multisets of sequences: pooling clusters, taking one element out, mapping a permutation. */
module Bags {
  /** All members of all clusters, with their multiplicity. */
  ghost function Pool<T>(clusters: seq<seq<T>>): multiset<T> {
    if clusters == [] then multiset{} else multiset(clusters[0]) + Pool(clusters[1..])
  }

  lemma MultisetCancel<T>(a: multiset<T>, b: multiset<T>, c: multiset<T>)
    requires a + c == b + c
    ensures a == b
  {
    forall x ensures a[x] == b[x] {
      assert (a + c)[x] == (b + c)[x];
    }
  }

  /** Taking cluster `k` out. */
  lemma {:induction false} PoolSplit<T>(s: seq<seq<T>>, k: nat)
    requires k < |s|
    ensures Pool(s) == Pool(s[..k] + s[k + 1..]) + multiset(s[k])
  {
    var rest := s[..k] + s[k + 1..];
    if k == 0 {
      assert rest == s[1..];
    } else {
      var tail := s[1..][..k - 1] + s[1..][k..];
      assert rest[0] == s[0] && rest[1..] == tail;
      calc {
        Pool(s);
        multiset(s[0]) + Pool(s[1..]);
        { PoolSplit(s[1..], k - 1); }
        multiset(s[0]) + (Pool(tail) + multiset(s[k]));
        (multiset(s[0]) + Pool(tail)) + multiset(s[k]);
        Pool(rest) + multiset(s[k]);
      }
    }
  }

  lemma PoolSnoc<T>(s: seq<seq<T>>, k: nat)
    requires k < |s|
    ensures Pool(s[..k + 1]) == Pool(s[..k]) + multiset(s[k])
  {
    var t := s[..k + 1];
    PoolSplit(t, k);
    assert t[..k] + t[k + 1..] == s[..k];
  }

  lemma {:induction false} PoolMember<T>(s: seq<seq<T>>, x: T)
    ensures x in Pool(s) <==> exists c :: 0 <= c < |s| && x in s[c]
  {
    if s != [] {
      PoolMember(s[1..], x);
      if c :| 0 <= c < |s[1..]| && x in s[1..][c] { assert x in s[c + 1]; }
      if c :| 0 <= c < |s| && x in s[c] {
        if c > 0 { assert x in s[1..][c - 1]; }
      }
    }
  }

  lemma Without<T>(s: seq<T>, at: nat)
    requires at < |s|
    ensures multiset(s) == multiset(s[..at] + s[at + 1..]) + multiset{s[at]}
  {
    assert s == s[..at] + [s[at]] + s[at + 1..];
  }

  /** The head of one sequence stands somewhere in any permutation of it. */
  lemma SharedElement<T>(s: seq<T>, t: seq<T>) returns (at: nat)
    requires multiset(s) == multiset(t) && s != []
    ensures at < |t| && t[at] == s[0]
    ensures multiset(s[1..]) == multiset(t[..at] + t[at + 1..])
  {
    assert s[0] in multiset(t);
    at :| 0 <= at < |t| && t[at] == s[0];
    Without(s, 0);
    Without(t, at);
    assert s[..0] + s[1..] == s[1..];
    MultisetCancel(multiset(s[1..]), multiset(t[..at] + t[at + 1..]), multiset{s[0]});
  }

  lemma PrefixNext<T>(s: seq<T>, n: nat)
    requires n < |s|
    ensures s[..n + 1] == s[..n] + [s[n]]
  {}

  function Map<A, B>(f: A -> B, s: seq<A>): (r: seq<B>)
    ensures |r| == |s| && forall i :: 0 <= i < |s| ==> r[i] == f(s[i])
  {
    seq(|s|, i requires 0 <= i < |s| => f(s[i]))
  }

  lemma MapWithout<A, B>(f: A -> B, t: seq<A>, at: nat, rest: seq<A>, x: B)
    requires at < |t| && rest == t[..at] + t[at + 1..] && x == f(t[at])
    ensures multiset(Map(f, t)) == multiset(Map(f, rest)) + multiset{x}
  {
    var p, q := Map(f, t), Map(f, rest);
    forall k | 0 <= k < |q| ensures q[k] == (p[..at] + p[at + 1..])[k] {
      assert rest[k] == if k < at then t[k] else t[k + 1];
    }
    assert q == p[..at] + p[at + 1..];
    Without(p, at);
  }

  /** Mapping a permutation gives a permutation. */
  lemma {:induction false} MapPermutation<A, B>(f: A -> B, s: seq<A>, t: seq<A>)
    requires multiset(s) == multiset(t)
    ensures multiset(Map(f, s)) == multiset(Map(f, t))
    decreases |s|
  {
    if s == [] {
      assert |multiset(t)| == 0;
      assert t == [];
    } else {
      var at := SharedElement(s, t);
      var rest := t[..at] + t[at + 1..];
      MapPermutation(f, s[1..], rest);
      MapWithout(f, s, 0, s[1..], f(s[0]));
      MapWithout(f, t, at, rest, f(s[0]));
    }
  }

  ghost function Flatten<T>(clusters: seq<seq<T>>): seq<T> {
    if clusters == [] then [] else clusters[0] + Flatten(clusters[1..])
  }

  lemma {:induction false} FlattenIsPool<T>(clusters: seq<seq<T>>)
    ensures multiset(Flatten(clusters)) == Pool(clusters)
  {
    if clusters != [] { FlattenIsPool(clusters[1..]); }
  }

  function MapAll<A, B>(f: A -> B, clusters: seq<seq<A>>): seq<seq<B>> {
    seq(|clusters|, c requires 0 <= c < |clusters| => Map(f, clusters[c]))
  }

  lemma {:induction false} MapFlatten<A, B>(f: A -> B, clusters: seq<seq<A>>)
    ensures Flatten(MapAll(f, clusters)) == Map(f, Flatten(clusters))
  {
    if clusters != [] {
      MapFlatten(f, clusters[1..]);
      assert MapAll(f, clusters)[1..] == MapAll(f, clusters[1..]);
      assert Map(f, clusters[0] + Flatten(clusters[1..])) == Map(f, clusters[0]) + Map(f, Flatten(clusters[1..]));
    }
  }

  /** If the clusters pool to `whole`, the mapped clusters pool to the mapped whole. */
  lemma MapPool<A, B>(f: A -> B, clusters: seq<seq<A>>, whole: seq<A>)
    requires Pool(clusters) == multiset(whole)
    ensures Pool(MapAll(f, clusters)) == multiset(Map(f, whole))
  {
    FlattenIsPool(clusters);
    FlattenIsPool(MapAll(f, clusters));
    MapFlatten(f, clusters);
    MapPermutation(f, Flatten(clusters), whole);
  }
}
