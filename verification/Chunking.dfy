/** Cutting a list of texts into chunks of limited size. */
module Chunking {
  /** The provider takes at most this many texts in one request. */
  const BATCH_LIMIT := 64

  /** How many chunks of at most `b` texts it takes to cover `n` texts, one chunk at a time. */
  ghost function ChunksFor(n: nat, b: nat): nat
    requires b > 0
  {
    if n == 0 then 0 else 1 + ChunksFor(if n > b then n - b else 0, b)
  }

  lemma QuotientStep(m: nat, b: nat)
    requires b > 0
    ensures (m + b) / b == m / b + 1
  {
    var d := (m + b) / b - m / b - 1;
    var r, r' := m % b, (m + b) % b;
    assert m == m / b * b + r && m + b == (m + b) / b * b + r';
    assert d * b == ((m + b) / b) * b - (m / b) * b - b;
    assert d * b == r - r';
    SmallMultiple(d, b);
  }

  lemma SmallMultiple(d: int, b: int)
    requires b > 0 && -b < d * b < b
    ensures d == 0
  {
    if d >= 1 {
      MultipleGrows(d, b);
    } else if d <= -1 {
      MultipleGrows(-d, b);
    }
  }

  lemma MultipleGrows(d: int, b: int)
    requires d >= 1 && b > 0
    ensures d * b >= b
  {
  }

  /** The ceiling the code computes is exactly the number of chunks the feeding loop sends. */
  lemma {:induction false} CeilingCountsChunks(n: nat, b: nat)
    requires b > 0
    ensures ChunksFor(n, b) == (n + b - 1) / b
  {
    if n > b {
      CeilingCountsChunks(n - b, b);
      QuotientStep(n - 1, b);
      assert n - b + b - 1 == n - 1;
    } else if n > 0 {
      QuotientStep(n - 1, b);
    }
  }
}
