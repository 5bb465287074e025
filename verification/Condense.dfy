/**
 Condensing the recall context before it is injected: drop near-duplicates in rank order, then
 trim the rank tail until the rendered text fits the token budget.
 */
module Condense {
  import opened Wrappers
  import opened Text

  const DEFAULT_DUPLICATE_SIMILARITY := 0.9

  datatype Episode = Episode(summary: string, language: string)

  /** `lastOccurred` is the formatted date, when there is one. */
  datatype Pitfall = Pitfall(
    entityID: string, signature: string, rootCause: string, lastOccurred: Option<string>, trust: int,
      fixStrategy: string)

  datatype Options = Options(maxTokens: int, duplicateSimilarity: real, lower: char -> char)

  // ---------------------------------------------------------------- subsequences

  /** `f` places the elements of `s` in `t`, in order. */
  ghost predicate Places<T>(f: seq<nat>, s: seq<T>, t: seq<T>) {
    && |f| == |s|
    && (forall i :: 0 <= i < |f| ==> f[i] < |t| && t[f[i]] == s[i])
    && (forall i, j :: 0 <= i < j < |f| ==> f[i] < f[j])
  }

  ghost predicate Subsequence<T>(s: seq<T>, t: seq<T>) {
    exists f :: Places(f, s, t)
  }

  lemma SubsequenceOfSelf<T>(s: seq<T>)
    ensures Subsequence(s, s)
  {
    assert Places(seq(|s|, i => i), s, s);
  }

  lemma SubsequenceOfMore<T>(s: seq<T>, t: seq<T>, u: seq<T>)
    requires Subsequence(s, t)
    ensures Subsequence(s, t + u)
  {
    var f :| Places(f, s, t);
    assert Places(f, s, t + u);
  }

  lemma SubsequenceConcat<T>(a: seq<T>, b: seq<T>, c: seq<T>, d: seq<T>)
    requires Subsequence(a, c) && Subsequence(b, d)
    ensures Subsequence(a + b, c + d)
  {
    var f :| Places(f, a, c);
    var g :| Places(g, b, d);
    var h := f + seq(|g|, i requires 0 <= i < |g| => g[i] + |c|);
    assert Places(h, a + b, c + d);
  }

  lemma SubsequenceTransitive<T>(a: seq<T>, b: seq<T>, c: seq<T>)
    requires Subsequence(a, b) && Subsequence(b, c)
    ensures Subsequence(a, c)
  {
    var f :| Places(f, a, b);
    var g :| Places(g, b, c);
    assert Places(seq(|f|, i requires 0 <= i < |f| => g[f[i]]), a, c);
  }

  // ---------------------------------------------------------------- near-duplicate suppression

  /** Same text, containment of the shorter (in bytes) in the longer, or enough shared bigrams. */
  predicate RedundantRestatement(lower: char -> char, threshold: real, a: string, b: string) {
    var (long, short) := if ByteLength(a) < ByteLength(b) then (b, a) else (a, b);
    a == b || Contains(long, short) || BigramOverlap(lower, long, short) >= threshold
  }

  lemma RedundancyIsSymmetric(lower: char -> char, threshold: real, a: string, b: string)
    ensures RedundantRestatement(lower, threshold, a, b) == RedundantRestatement(lower, threshold, b, a)
  {
    OverlapSymmetric(lower, a, b);
    if a != b && ByteLength(a) == ByteLength(b) {
      if Contains(a, b) { ContainedIsShorter(a, b); }
      if Contains(b, a) { ContainedIsShorter(b, a); }
    }
  }

  /** The items kept so far against which `x` is a duplicate. */
  predicate Repeats<T>(dup: (T, T) -> bool, kept: seq<T>, x: T) {
    exists k :: 0 <= k < |kept| && dup(x, kept[k])
  }

  /** The suppression walk; `dup(x, r)` says that `x` repeats the kept item `r`. */
  function Suppress<T>(dup: (T, T) -> bool, items: seq<T>): seq<T> {
    if items == [] then [] else
    var n := |items| - 1;
    var kept := Suppress(dup, items[..n]);
    if Repeats(dup, kept, items[n]) then kept else kept + [items[n]]
  }

  method SuppressNearDuplicates<T>(dup: (T, T) -> bool, items: seq<T>) returns (kept: seq<T>, suppressed: nat)
    ensures kept == Suppress(dup, items)
    ensures suppressed == |items| - |kept|
  {
    kept, suppressed := [], 0;
    for i := 0 to |items|
      invariant kept == Suppress(dup, items[..i])
      invariant suppressed == i - |kept|
    {
      var it := items[i];
      assert items[..i + 1][..i] == items[..i];
      var redundant := false;
      for k := 0 to |kept|
        invariant redundant <==> exists m :: 0 <= m < k && dup(it, kept[m])
      {
        if dup(it, kept[k]) {
          redundant := true;
          break;
        }
      }
      if redundant {
        suppressed := suppressed + 1;
      } else {
        kept := kept + [it];
      }
    }
    assert items[..|items|] == items;
  }

  ghost predicate PairwiseDistinct<T>(dup: (T, T) -> bool, s: seq<T>) {
    forall i, j :: 0 <= i < j < |s| ==> !dup(s[j], s[i])
  }

  /** A rank-ordered subsequence without internal repetition. */
  lemma {:induction false} SuppressIsDistinct<T>(dup: (T, T) -> bool, items: seq<T>)
    ensures Subsequence(Suppress(dup, items), items)
    ensures PairwiseDistinct(dup, Suppress(dup, items))
  {
    if items == [] {
      SubsequenceOfSelf<T>([]);
    } else {
      var n := |items| - 1;
      var kept := Suppress(dup, items[..n]);
      SuppressIsDistinct(dup, items[..n]);
      assert items == items[..n] + [items[n]];
      SubsequenceOfMore(kept, items[..n], [items[n]]);
      SubsequenceOfSelf([items[n]]);
      SubsequenceConcat(kept, [items[n]], items[..n], [items[n]]);
    }
  }

  /** Each item is kept, or repeats an item kept from before it. */
  lemma {:induction false} DroppedRepeatsEarlier<T>(dup: (T, T) -> bool, items: seq<T>, i: nat)
    requires i < |items|
    ensures Suppress(dup, items[..i]) <= Suppress(dup, items)
    ensures items[i] in Suppress(dup, items) || Repeats(dup, Suppress(dup, items[..i]), items[i])
  {
    var n := |items| - 1;
    if i < n {
      DroppedRepeatsEarlier(dup, items[..n], i);
      assert items[..n][..i] == items[..i];
    }
  }

  /** A list without repetition passes unchanged, so suppressing twice changes nothing. */
  lemma {:induction false} DistinctPassesUnchanged<T>(dup: (T, T) -> bool, s: seq<T>)
    requires PairwiseDistinct(dup, s)
    ensures Suppress(dup, s) == s
  {
    if s != [] { DistinctPassesUnchanged(dup, s[..|s| - 1]); }
  }

  lemma {:induction false} SuppressTwice<T>(dup: (T, T) -> bool, items: seq<T>)
    ensures Suppress(dup, Suppress(dup, items)) == Suppress(dup, items)
  {
    SuppressIsDistinct(dup, items);
    DistinctPassesUnchanged(dup, Suppress(dup, items));
  }

  lemma {:induction false} TopItemKept<T>(dup: (T, T) -> bool, items: seq<T>)
    ensures items != [] ==> Suppress(dup, items) != [] && Suppress(dup, items)[0] == items[0]
  {
    if |items| > 1 {
      TopItemKept(dup, items[..|items| - 1]);
    } else if |items| == 1 {
      assert Suppress(dup, items[..0]) == [];
    }
  }

  function Threshold(opts: Options): real {
    if opts.duplicateSimilarity <= 0.0 then DEFAULT_DUPLICATE_SIMILARITY else opts.duplicateSimilarity
  }

  /** Any two episodes may be restatements; two pitfalls only when they share their entity. */
  function EpisodeDup(opts: Options): (Episode, Episode) -> bool {
    (x: Episode, r: Episode) => RedundantRestatement(opts.lower, Threshold(opts), OneLine(x.summary),
      OneLine(r.summary))
  }

  function PitfallDup(opts: Options): (Pitfall, Pitfall) -> bool {
    (x: Pitfall, r: Pitfall) =>
      x.entityID == r.entityID
      && RedundantRestatement(opts.lower, Threshold(opts), OneLine(x.signature), OneLine(r.signature))
  }

  /** What survives suppression is pairwise non-redundant, in either direction. */
  lemma SurvivorsAreNotRedundant(opts: Options, eps: seq<Episode>, pits: seq<Pitfall>, i: nat, j: nat)
    ensures var kept := Suppress(EpisodeDup(opts), eps);
      i < |kept| && j < |kept| && i != j ==> !EpisodeDup(opts)(kept[i], kept[j])
    ensures var kept := Suppress(PitfallDup(opts), pits);
      i < |kept| && j < |kept| && i != j ==> !PitfallDup(opts)(kept[i], kept[j])
  {
    var es, ps := Suppress(EpisodeDup(opts), eps), Suppress(PitfallDup(opts), pits);
    SuppressIsDistinct(EpisodeDup(opts), eps);
    SuppressIsDistinct(PitfallDup(opts), pits);
    if i < |es| && j < |es| {
      RedundancyIsSymmetric(opts.lower, Threshold(opts), OneLine(es[i].summary), OneLine(es[j].summary));
    }
    if i < |ps| && j < |ps| {
      RedundancyIsSymmetric(opts.lower, Threshold(opts), OneLine(ps[i].signature), OneLine(ps[j].signature));
    }
  }

  // ---------------------------------------------------------------- token estimate

  predicate IsCjk(c: char) {
    0x3000 <= c as int <= 0x9FFF
  }

  function CountCjk(s: string): nat {
    if s == "" then 0 else CountCjk(s[..|s| - 1]) + if IsCjk(s[|s| - 1]) then 1 else 0
  }

  /** One token per CJK character, and one per four other characters, rounded up. */
  function Tokens(s: string): nat {
    CountCjk(s) + (|s| - CountCjk(s) + 3) / 4
  }

  method EstimateTokens(s: string) returns (n: nat)
    ensures n == Tokens(s)
  {
    var cjk, other := 0, 0;
    for i := 0 to |s|
      invariant cjk == CountCjk(s[..i]) && cjk + other == i
    {
      assert s[..i + 1][..i] == s[..i];
      if IsCjk(s[i]) { cjk := cjk + 1; } else { other := other + 1; }
    }
    assert s[..|s|] == s;
    n := cjk + (other + 3) / 4;
  }

  lemma {:induction false} CountCjkConcat(a: string, b: string)
    ensures CountCjk(a + b) == CountCjk(a) + CountCjk(b)
    ensures CountCjk(b) <= |b|
  {
    if b == "" {
      assert a + b == a;
    } else {
      var n := |b| - 1;
      assert (a + b)[..|a + b| - 1] == a + b[..n];
      CountCjkConcat(a, b[..n]);
    }
  }

  /** Taking characters out lowers neither kind of count below the other's loss. */
  lemma {:induction false} CountsShrink(s: string, t: string, f: seq<nat>)
    requires Places(f, s, t)
    ensures CountCjk(s) <= CountCjk(t)
    ensures |s| - CountCjk(s) <= |t| - CountCjk(t)
  {
    if s == "" {
      CountCjkConcat("", t);
      assert "" + t == t;
    } else {
      var n := |s| - 1;
      var m := f[n];
      CountsShrink(s[..n], t[..m], f[..n]);
      assert t == t[..m + 1] + t[m + 1..] && t[..m + 1][..m] == t[..m];
      CountCjkConcat(t[..m + 1], t[m + 1..]);
    }
  }

  lemma TokensShrink(s: string, t: string)
    requires Subsequence(s, t)
    ensures Tokens(s) <= Tokens(t)
  {
    var f :| Places(f, s, t);
    CountsShrink(s, t, f);
  }

  /** A slice of `s` is found in any slice of `t` that spans where its ends are placed. */
  lemma SliceKeepsSubsequence(f: seq<nat>, s: string, t: string, l: nat, r: nat, l': nat, r': nat)
    requires Places(f, s, t) && l < r <= |s| && l' <= f[l] && f[r - 1] < r' <= |t|
    ensures Subsequence(s[l..r], t[l'..r'])
  {
    var mid := f[l..r];
    assert mid[0] == f[l] && mid[r - l - 1] == f[r - 1];
    assert forall i :: 0 <= i < |mid| ==> mid[0] <= mid[i] <= mid[r - l - 1];
    var g := seq(r - l, i requires 0 <= i < r - l => mid[i] - l');
    assert forall i :: 0 <= i < |g| ==> g[i] == mid[i] - l' && s[l..r][i] == t[mid[i]];
    assert Places(g, s[l..r], t[l'..r']);
  }

  /** Trimming respects subsequences: what is left of `s` is found in what is left of `t`. */
  lemma TrimKeepsSubsequence(s: string, t: string)
    requires Subsequence(s, t)
    ensures Subsequence(TrimSpace(s), TrimSpace(t))
  {
    var f :| Places(f, s, t);
    var l, r := Lead(s), Trail(s);
    if l < r {
      assert !IsSpace(t[f[l]]) && !IsSpace(t[f[r - 1]]);
      assert f[l] <= f[r - 1];
      SliceKeepsSubsequence(f, s, t, l, r, Lead(t), Trail(t));
    } else {
      assert Places([], "", TrimSpace(t));
    }
  }

  // ---------------------------------------------------------------- rendering

  /**
   The wording of the recall block: its header, one line per episode (the first without a line
   break before it) and one block per pitfall. What follows holds for any wording.
   */
  datatype Layout = Layout(header: string, line: (bool, Episode) -> string, block: Pitfall -> string)

  function EpisodeLines(l: Layout, eps: seq<Episode>): string {
    if eps == [] then "" else
    var n := |eps| - 1;
    EpisodeLines(l, eps[..n]) + l.line(n == 0, eps[n])
  }

  function PitfallBlocks(l: Layout, pits: seq<Pitfall>): string {
    if pits == [] then "" else
    var n := |pits| - 1;
    PitfallBlocks(l, pits[..n]) + l.block(pits[n])
  }

  function EpisodePart(l: Layout, eps: seq<Episode>): string {
    if eps == [] then "" else l.header + EpisodeLines(l, eps)
  }

  function Rendered(l: Layout, eps: seq<Episode>, pits: seq<Pitfall>): string {
    TrimSpace(EpisodePart(l, eps) + PitfallBlocks(l, pits))
  }

  method FormatPrefetch(l: Layout, eps: seq<Episode>, pits: seq<Pitfall>) returns (text: string)
    ensures text == Rendered(l, eps, pits)
  {
    var b := "";
    if |eps| > 0 {
      b := l.header;
      for i := 0 to |eps|
        invariant b == l.header + EpisodeLines(l, eps[..i])
      {
        assert eps[..i + 1][..i] == eps[..i];
        b := b + l.line(i == 0, eps[i]);
      }
      assert eps[..|eps|] == eps;
    }
    ghost var head := b;
    for i := 0 to |pits|
      invariant b == head + PitfallBlocks(l, pits[..i])
    {
      assert pits[..i + 1][..i] == pits[..i];
      b := b + l.block(pits[i]);
    }
    assert pits[..|pits|] == pits;
    return TrimSpace(b);
  }

  /** `a` renders to no more than `b`: fewer episodes and pitfalls, same first episode. */
  lemma RawFewer(l: Layout, a: seq<Episode>, b: seq<Episode>, p: seq<Pitfall>, q: seq<Pitfall>)
    requires a == [] <==> b == []
    requires Subsequence(EpisodeLines(l, a), EpisodeLines(l, b)) &&
        Subsequence(PitfallBlocks(l, p), PitfallBlocks(l, q))
    ensures Tokens(Rendered(l, a, p)) <= Tokens(Rendered(l, b, q))
  {
    SubsequenceOfSelf(l.header);
    SubsequenceConcat(l.header, EpisodeLines(l, a), l.header, EpisodeLines(l, b));
    SubsequenceOfSelf("");
    SubsequenceConcat(EpisodePart(l, a), PitfallBlocks(l, p), EpisodePart(l, b), PitfallBlocks(l, q));
    TrimKeepsSubsequence(EpisodePart(l, a) + PitfallBlocks(l, p), EpisodePart(l, b) + PitfallBlocks(l, q));
    TokensShrink(Rendered(l, a, p), Rendered(l, b, q));
  }

  lemma {:induction false} SuppressedLines(l: Layout, dup: (Episode, Episode) -> bool, eps: seq<Episode>)
    ensures Subsequence(EpisodeLines(l, Suppress(dup, eps)), EpisodeLines(l, eps))
  {
    if eps == [] {
      SubsequenceOfSelf("");
    } else {
      var n := |eps| - 1;
      var kept := Suppress(dup, eps[..n]);
      SuppressedLines(l, dup, eps[..n]);
      TopItemKept(dup, eps[..n]);
      var line := l.line(n == 0, eps[n]);
      SubsequenceOfMore(EpisodeLines(l, kept), EpisodeLines(l, eps[..n]), line);
      SubsequenceOfSelf(line);
      SubsequenceConcat(EpisodeLines(l, kept), line, EpisodeLines(l, eps[..n]), line);
      assert (kept + [eps[n]])[..|kept|] == kept;
    }
  }

  lemma {:induction false} SuppressedBlocks(l: Layout, dup: (Pitfall, Pitfall) -> bool, pits: seq<Pitfall>)
    ensures Subsequence(PitfallBlocks(l, Suppress(dup, pits)), PitfallBlocks(l, pits))
  {
    if pits == [] {
      SubsequenceOfSelf("");
    } else {
      var n := |pits| - 1;
      var kept := Suppress(dup, pits[..n]);
      SuppressedBlocks(l, dup, pits[..n]);
      var block := l.block(pits[n]);
      SubsequenceOfMore(PitfallBlocks(l, kept), PitfallBlocks(l, pits[..n]), block);
      SubsequenceOfSelf(block);
      SubsequenceConcat(PitfallBlocks(l, kept), block, PitfallBlocks(l, pits[..n]), block);
      assert (kept + [pits[n]])[..|kept|] == kept;
    }
  }

  lemma {:induction false} PrefixLines(l: Layout, eps: seq<Episode>, k: nat)
    requires k <= |eps|
    ensures Subsequence(EpisodeLines(l, eps[..k]), EpisodeLines(l, eps))
  {
    if k == |eps| {
      assert eps[..k] == eps;
      SubsequenceOfSelf(EpisodeLines(l, eps));
    } else {
      var n := |eps| - 1;
      PrefixLines(l, eps[..n], k);
      assert eps[..n][..k] == eps[..k];
      SubsequenceOfMore(EpisodeLines(l, eps[..k]), EpisodeLines(l, eps[..n]), l.line(n == 0, eps[n]));
    }
  }

  lemma {:induction false} PrefixBlocks(l: Layout, pits: seq<Pitfall>, k: nat)
    requires k <= |pits|
    ensures Subsequence(PitfallBlocks(l, pits[..k]), PitfallBlocks(l, pits))
  {
    if k == |pits| {
      assert pits[..k] == pits;
      SubsequenceOfSelf(PitfallBlocks(l, pits));
    } else {
      var n := |pits| - 1;
      PrefixBlocks(l, pits[..n], k);
      assert pits[..n][..k] == pits[..k];
      SubsequenceOfMore(PitfallBlocks(l, pits[..k]), PitfallBlocks(l, pits[..n]), l.block(pits[n]));
    }
  }

  /** Suppressing and then cutting tails never costs more tokens than rendering everything. */
  lemma CondensingNeverGrows(l: Layout, opts: Options, eps: seq<Episode>, pits: seq<Pitfall>, m: nat, n: nat)
    requires m <= |Suppress(EpisodeDup(opts), eps)| && n <= |Suppress(PitfallDup(opts), pits)|
    requires eps != [] ==> m > 0
    ensures Tokens(Rendered(l, Suppress(EpisodeDup(opts), eps)[..m], Suppress(PitfallDup(opts), pits)[..n]))
         <= Tokens(Rendered(l, eps, pits))
  {
    var es, ps := Suppress(EpisodeDup(opts), eps), Suppress(PitfallDup(opts), pits);
    SuppressedLines(l, EpisodeDup(opts), eps);
    PrefixLines(l, es, m);
    SubsequenceTransitive(EpisodeLines(l, es[..m]), EpisodeLines(l, es), EpisodeLines(l, eps));
    SuppressedBlocks(l, PitfallDup(opts), pits);
    PrefixBlocks(l, ps, n);
    SubsequenceTransitive(PitfallBlocks(l, ps[..n]), PitfallBlocks(l, ps), PitfallBlocks(l, pits));
    RawFewer(l, es[..m], eps, ps[..n], pits);
  }

  // ---------------------------------------------------------------- the whole pass

  datatype Stats = Stats(
    episodesIn: nat, episodesOut: nat, pitfallsIn: nat, pitfallsOut: nat,
    suppressedEpisodes: nat, suppressedPitfalls: nat, inputTokens: nat, outputTokens: nat, budgetHit: bool)

  predicate OverBudget(l: Layout, opts: Options, eps: seq<Episode>, pits: seq<Pitfall>) {
    opts.maxTokens > 0 && Tokens(Rendered(l, eps, pits)) > opts.maxTokens
  }

  /** The budget is met, or nothing more may be cut; and only what was over budget was cut, episodes first. */
  ghost predicate CutToBudget(l: Layout, opts: Options, es: seq<Episode>, ps: seq<Pitfall>, m: nat, n: nat)
    requires m <= |es| && n <= |ps|
  {
    && (OverBudget(l, opts, es[..m], ps[..n]) ==> m <= 1 && n <= 1)
    && (forall k :: m < k <= |es| ==> OverBudget(l, opts, es[..k], ps))
    && (forall k :: n < k <= |ps| ==> OverBudget(l, opts, es[..m], ps[..k]))
    && (n < |ps| ==> m <= 1)
    && (es != [] ==> m > 0) && (ps != [] ==> n > 0)
  }

  /**
   Drop items from the tail while what remains is over budget: the cutting loop, run over the
   episodes and then over the pitfalls; the top item stays.
   */
  method CutTail<T>(items: seq<T>, over: seq<T> -> bool) returns (m: nat)
    ensures m <= |items| && (items != [] ==> m > 0)
    ensures over(items[..m]) ==> m <= 1
    ensures forall k :: m < k <= |items| ==> over(items[..k])
  {
    m := |items|;
    while over(items[..m]) && m > 1
      invariant m <= |items| && (items != [] ==> m > 0)
      invariant forall k :: m < k <= |items| ==> over(items[..k])
    {
      m := m - 1;
    }
  }

  /** Render, and cut episodes and then pitfalls until the text fits. */
  method RenderWithinBudget(l: Layout, es: seq<Episode>, ps: seq<Pitfall>, opts: Options)
    returns (text: string, outTokens: nat, budgetHit: bool, m: nat, n: nat)
    ensures m <= |es| && n <= |ps|
    ensures text == Rendered(l, es[..m], ps[..n]) && outTokens == Tokens(text)
    ensures CutToBudget(l, opts, es, ps, m, n)
    ensures budgetHit <==> OverBudget(l, opts, es, ps)
  {
    text := FormatPrefetch(l, es, ps);
    outTokens := EstimateTokens(text);
    budgetHit := opts.maxTokens > 0 && outTokens > opts.maxTokens;
    m, n := |es|, |ps|;
    assert es[..m] == es && ps[..n] == ps;
    if budgetHit {
      m := CutTail(es, (s: seq<Episode>) => OverBudget(l, opts, s, ps));
      var top := es[..m];
      n := CutTail(ps, (s: seq<Pitfall>) => OverBudget(l, opts, top, s));
      text := FormatPrefetch(l, top, ps[..n]);
      outTokens := EstimateTokens(text);
    }
  }

  /** The text and figures that belong to `m` and `n` items of the suppressed lists `es` and `ps`. */
  ghost predicate Condensed(l: Layout, eps: seq<Episode>, pits: seq<Pitfall>, opts: Options,
                            es: seq<Episode>, ps: seq<Pitfall>, text: string, st: Stats)
  {
    && st.episodesIn == |eps| && st.episodesOut <= |es| && |es| + st.suppressedEpisodes == |eps|
    && st.pitfallsIn == |pits| && st.pitfallsOut <= |ps| && |ps| + st.suppressedPitfalls == |pits|
    && (eps != [] ==> st.episodesOut > 0 && es[0] == eps[0])
    && (pits != [] ==> st.pitfallsOut > 0 && ps[0] == pits[0])
    && text == Rendered(l, es[..st.episodesOut], ps[..st.pitfallsOut])
    && CutToBudget(l, opts, es, ps, st.episodesOut, st.pitfallsOut)
    && (st.budgetHit <==> OverBudget(l, opts, es, ps))
    && st.inputTokens == Tokens(Rendered(l, eps, pits)) && st.outputTokens == Tokens(text)
    && st.outputTokens <= st.inputTokens
  }

  /**
   Suppress, then cut: the text renders prefixes of the suppressed lists that keep the top
   item of each non-empty list, never costs more tokens than the plain rendering, and meets
   the budget unless only the top items are left.
   */
  method FormatPrefetchCondensed(l: Layout, eps: seq<Episode>, pits: seq<Pitfall>, opts: Options)
    returns (text: string, st: Stats)
    ensures Condensed(l, eps, pits, opts, Suppress(EpisodeDup(opts), eps), Suppress(PitfallDup(opts), pits), text, st)
  {
    var es, suppressedEps := SuppressNearDuplicates(EpisodeDup(opts), eps);
    var ps, suppressedPits := SuppressNearDuplicates(PitfallDup(opts), pits);
    TopItemKept(EpisodeDup(opts), eps);
    TopItemKept(PitfallDup(opts), pits);
    var inputText := FormatPrefetch(l, eps, pits);
    var inputTokens := EstimateTokens(inputText);
    var outTokens, budgetHit, m, n;
    text, outTokens, budgetHit, m, n := RenderWithinBudget(l, es, ps, opts);
    CondensingNeverGrows(l, opts, eps, pits, m, n);
    st := Stats(|eps|, m, |pits|, n, suppressedEps, suppressedPits, inputTokens, outTokens, budgetHit);
  }
}
