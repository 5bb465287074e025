/** The library sort: a permutation in descending key order, with ties in any order. */
module SortSlice {
  ghost predicate Descending<T>(s: seq<T>, key: T -> real) {
    forall i, j :: 0 <= i < j < |s| ==> key(s[i]) >= key(s[j])
  }

  lemma InsertedMultiset<T>(s: seq<T>, at: nat, x: T)
    requires at <= |s|
    ensures multiset(s[..at] + [x] + s[at..]) == multiset(s) + multiset{x}
  {
    assert s == s[..at] + s[at..];
  }

  method Insert<T>(s: seq<T>, x: T, key: T -> real) returns (r: seq<T>)
    requires Descending(s, key)
    ensures multiset(r) == multiset(s) + multiset{x}
    ensures Descending(r, key)
  {
    var at := |s|;
    while at > 0 && key(s[at - 1]) < key(x)
      invariant 0 <= at <= |s|
      invariant forall k :: at <= k < |s| ==> key(s[k]) < key(x)
    {
      at := at - 1;
    }
    r := s[..at] + [x] + s[at..];
    InsertedMultiset(s, at, x);
  }

  method Sort<T>(s: seq<T>, key: T -> real) returns (r: seq<T>)
    ensures multiset(r) == multiset(s)
    ensures Descending(r, key)
  {
    r := [];
    for i := 0 to |s|
      invariant multiset(r) == multiset(s[..i])
      invariant Descending(r, key)
    {
      r := Insert(r, s[i], key);
      assert s[..i + 1] == s[..i] + [s[i]];
    }
    assert s[..|s|] == s;
  }

  ghost predicate Distinct<T>(s: seq<T>) {
    forall i, j :: 0 <= i < j < |s| ==> s[i] != s[j]
  }

  lemma {:induction false} DistinctCounts<T>(s: seq<T>)
    ensures Distinct(s) <==> forall x :: multiset(s)[x] <= 1
  {
    if s != [] {
      var n := |s| - 1;
      DistinctCounts(s[..n]);
      assert s == s[..n] + [s[n]];
      if Distinct(s) {
        forall x ensures multiset(s)[x] <= 1 {
          assert x == s[n] ==> x !in multiset(s[..n]);
        }
      } else if Distinct(s[..n]) {
        assert s[n] in multiset(s[..n]);
        assert multiset(s)[s[n]] >= 2;
      } else {
        var x :| multiset(s[..n])[x] > 1;
        assert multiset(s)[x] > 1;
      }
    }
  }

  lemma PermutedDistinct<T>(s: seq<T>, t: seq<T>)
    requires multiset(s) == multiset(t) && Distinct(s)
    ensures Distinct(t)
    ensures forall x :: x in s <==> x in t
    ensures |s| == |t|
  {
    DistinctCounts(s);
    DistinctCounts(t);
    assert forall x :: x in s <==> x in multiset(s);
    assert |multiset(s)| == |s| && |multiset(t)| == |t|;
  }

  /**
   The best `limit` of `all`, best first: nothing is left out unless the list is full and all of it
   ranks no lower.
   */
  ghost predicate IsTop<T>(all: seq<T>, key: T -> real, limit: nat, top: seq<T>) {
    && Distinct(top) && |top| <= limit && Descending(top, key)
    && (forall x :: x in top ==> x in all)
    && (forall x :: x in all && x !in top ==> |top| == limit && forall y :: y in top ==> key(y) >= key(x))
  }

  lemma CutIsTop<T>(all: seq<T>, key: T -> real, limit: nat)
    requires Distinct(all) && Descending(all, key)
    ensures IsTop(all, key, limit, all[..if |all| < limit then |all| else limit])
  {
    var top := all[..if |all| < limit then |all| else limit];
    assert forall k :: 0 <= k < |top| ==> all[k] == top[k] && top[k] in top;
    forall x | x in all && x !in top ensures |top| == limit && forall y :: y in top ==> key(y) >= key(x) {
      var k :| 0 <= k < |all| && all[k] == x;
      assert k >= |top|;
    }
  }

  /** Sort and cut. */
  method Top<T>(all: seq<T>, key: T -> real, limit: nat) returns (top: seq<T>)
    requires Distinct(all)
    ensures IsTop(all, key, limit, top)
  {
    var sorted := Sort(all, key);
    PermutedDistinct(all, sorted);
    CutIsTop(sorted, key, limit);
    top := sorted[..if |sorted| < limit then |sorted| else limit];
  }

  ghost function Elements<T>(s: seq<T>): set<T> {
    set x | x in s
  }

  lemma {:induction false} DistinctSize<T>(s: seq<T>)
    requires Distinct(s)
    ensures |Elements(s)| == |s|
  {
    if s != [] {
      var n := |s| - 1;
      DistinctSize(s[..n]);
      assert Elements(s) == Elements(s[..n]) + {s[n]};
    }
  }

  lemma {:induction false} SubsetSize<T>(a: set<T>, b: set<T>)
    requires a <= b
    ensures |a| <= |b|
  {
    if a != {} {
      var x :| x in a;
      SubsetSize(a - {x}, b - {x});
    }
  }
}
