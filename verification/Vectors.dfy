/** Embedding vectors. */
module Vectors {
  type Vector = seq<real>

  predicate HasMagnitude(v: Vector) {
    exists i :: 0 <= i < |v| && v[i] != 0.0
  }

  function Dot(a: Vector, b: Vector): real
    requires |a| == |b|
  {
    if a == [] then 0.0 else a[0] * b[0] + Dot(a[1..], b[1..])
  }

  /** On vectors of length one the cosine is the dot product. */
  ghost predicate OnUnitVectors(cosine: (Vector, Vector) -> real) {
    forall a: Vector, b: Vector :: |a| == |b| && Dot(a, a) == 1.0 && Dot(b, b) == 1.0 ==> cosine(a, b) == Dot(a, b)
  }

  lemma DotOfTwo(a: real, b: real, c: real, d: real)
    ensures Dot([a, b], [c, d]) == a * c + b * d
  {
    assert [a, b][1..] == [b] && [c, d][1..] == [d];
    assert Dot([b], [d]) == b * d + Dot([], []);
  }
}
