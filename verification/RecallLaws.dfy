/**
 What the condensed recall shows, said about the texts themselves: which restatements are dropped, that
 every item kept is shown, what the token estimate counts, and that a budget is met where it can be.
 */
module RecallLaws {
  import opened Text
  import opened Condense
  import opened RecallText

  // ---------------------------------------------------------------- restatements

  /** Two texts restate each other when they are equal, one contains the other, or they overlap enough. */
  lemma RestatementMeans(lower: char -> char, threshold: real, a: string, b: string)
    ensures RedundantRestatement(lower, threshold, a, b) <==>
      a == b || Contains(a, b) || Contains(b, a) || BigramOverlap(lower, a, b) >= threshold
  {
    OverlapSymmetric(lower, a, b);
    if a != b && Contains(a, b) { ContainedIsShorter(a, b); }
    if a != b && Contains(b, a) { ContainedIsShorter(b, a); }
  }

  /** Of two episodes kept, neither text equals, contains or nearly repeats the other. */
  lemma KeptEpisodesDiffer(opts: Options, eps: seq<Episode>, i: nat, j: nat)
    requires var kept := Suppress(EpisodeDup(opts), eps); i < |kept| && j < |kept| && i != j
    ensures var kept := Suppress(EpisodeDup(opts), eps);
      var a, b := OneLine(kept[i].summary), OneLine(kept[j].summary);
      && a != b && !Contains(a, b) && !Contains(b, a)
      && BigramOverlap(opts.lower, a, b) < if opts.duplicateSimilarity <= 0.0 then 0.9 else opts.duplicateSimilarity
  {
    var kept := Suppress(EpisodeDup(opts), eps);
    SurvivorsAreNotRedundant(opts, eps, [], i, j);
    RestatementMeans(opts.lower, Threshold(opts), OneLine(kept[i].summary), OneLine(kept[j].summary));
  }

  /** An episode that is dropped restates one kept from before it. */
  lemma DroppedEpisodeIsRestated(opts: Options, eps: seq<Episode>, i: nat) returns (k: nat)
    requires i < |eps| && eps[i] !in Suppress(EpisodeDup(opts), eps)
    ensures var kept := Suppress(EpisodeDup(opts), eps[..i]);
      k < |kept| && kept <= Suppress(EpisodeDup(opts), eps) && (
        var a, b := OneLine(eps[i].summary), OneLine(kept[k].summary);
        a == b || Contains(a, b) || Contains(b, a)
        || BigramOverlap(opts.lower, a, b) >= if opts.duplicateSimilarity <= 0.0 then 0.9 else opts.duplicateSimilarity)
  {
    var kept := Suppress(EpisodeDup(opts), eps[..i]);
    DroppedRepeatsEarlier(EpisodeDup(opts), eps, i);
    k :| 0 <= k < |kept| && EpisodeDup(opts)(eps[i], kept[k]);
    RestatementMeans(opts.lower, Threshold(opts), OneLine(eps[i].summary), OneLine(kept[k].summary));
  }

  /** Of two pitfalls of one entity that are kept, neither signature equals, contains or nearly repeats the other. */
  lemma KeptPitfallsDiffer(opts: Options, pits: seq<Pitfall>, i: nat, j: nat)
    requires var kept := Suppress(PitfallDup(opts), pits);
      i < |kept| && j < |kept| && i != j && kept[i].entityID == kept[j].entityID
    ensures var kept := Suppress(PitfallDup(opts), pits);
      var a, b := OneLine(kept[i].signature), OneLine(kept[j].signature);
      && a != b && !Contains(a, b) && !Contains(b, a)
      && BigramOverlap(opts.lower, a, b) < if opts.duplicateSimilarity <= 0.0 then 0.9 else opts.duplicateSimilarity
  {
    var kept := Suppress(PitfallDup(opts), pits);
    SurvivorsAreNotRedundant(opts, [], pits, i, j);
    RestatementMeans(opts.lower, Threshold(opts), OneLine(kept[i].signature), OneLine(kept[j].signature));
  }

  /** A pitfall that is dropped restates one of its own entity kept from before it. */
  lemma DroppedPitfallIsRestated(opts: Options, pits: seq<Pitfall>, i: nat) returns (k: nat)
    requires i < |pits| && pits[i] !in Suppress(PitfallDup(opts), pits)
    ensures var kept := Suppress(PitfallDup(opts), pits[..i]);
      k < |kept| && kept <= Suppress(PitfallDup(opts), pits) && kept[k].entityID == pits[i].entityID && (
        var a, b := OneLine(pits[i].signature), OneLine(kept[k].signature);
        a == b || Contains(a, b) || Contains(b, a)
        || BigramOverlap(opts.lower, a, b) >= if opts.duplicateSimilarity <= 0.0 then 0.9 else opts.duplicateSimilarity)
  {
    var kept := Suppress(PitfallDup(opts), pits[..i]);
    DroppedRepeatsEarlier(PitfallDup(opts), pits, i);
    k :| 0 <= k < |kept| && PitfallDup(opts)(pits[i], kept[k]);
    RestatementMeans(opts.lower, Threshold(opts), OneLine(pits[i].signature), OneLine(kept[k].signature));
  }

  // ---------------------------------------------------------------- every item is shown

  lemma {:induction false} LineIsRendered(l: Layout, eps: seq<Episode>, k: nat)
    requires k < |eps|
    ensures Contains(EpisodeLines(l, eps), l.line(k == 0, eps[k]))
  {
    var n := |eps| - 1;
    var front, last := EpisodeLines(l, eps[..n]), l.line(n == 0, eps[n]);
    if k == n {
      ContainsMiddle(front, last, "");
      assert front + last + "" == front + last;
    } else {
      LineIsRendered(l, eps[..n], k);
      ContainsMiddle("", front, last);
      assert "" + front + last == front + last;
      ContainsTransitive(front + last, front, l.line(k == 0, eps[k]));
    }
  }

  lemma {:induction false} BlockIsRendered(l: Layout, pits: seq<Pitfall>, k: nat)
    requires k < |pits|
    ensures Contains(PitfallBlocks(l, pits), l.block(pits[k]))
  {
    var n := |pits| - 1;
    var front, last := PitfallBlocks(l, pits[..n]), l.block(pits[n]);
    if k == n {
      ContainsMiddle(front, last, "");
      assert front + last + "" == front + last;
    } else {
      BlockIsRendered(l, pits[..n], k);
      ContainsMiddle("", front, last);
      assert "" + front + last == front + last;
      ContainsTransitive(front + last, front, l.block(pits[k]));
    }
  }

  /** A piece of the line of an episode is in the text. */
  lemma PieceOfLineIsShown(l: Layout, eps: seq<Episode>, pits: seq<Pitfall>, k: nat, piece: string)
    requires k < |eps| && Contains(l.line(k == 0, eps[k]), piece) && Solid(piece)
    ensures Contains(Rendered(l, eps, pits), piece)
  {
    var lines, blocks := EpisodeLines(l, eps), PitfallBlocks(l, pits);
    LineIsRendered(l, eps, k);
    ContainsTransitive(lines, l.line(k == 0, eps[k]), piece);
    ContainsMiddle(l.header, lines, blocks);
    ContainsTransitive(l.header + lines + blocks, lines, piece);
    TrimKeepsPiece(l.header + lines + blocks, piece);
  }

  /** A piece of the block of a pitfall is in the text. */
  lemma PieceOfBlockIsShown(l: Layout, eps: seq<Episode>, pits: seq<Pitfall>, k: nat, piece: string)
    requires k < |pits| && Contains(l.block(pits[k]), piece) && Solid(piece)
    ensures Contains(Rendered(l, eps, pits), piece)
  {
    var part, blocks := EpisodePart(l, eps), PitfallBlocks(l, pits);
    BlockIsRendered(l, pits, k);
    ContainsTransitive(blocks, l.block(pits[k]), piece);
    ContainsMiddle(part, blocks, "");
    assert part + blocks + "" == part + blocks;
    ContainsTransitive(part + blocks, blocks, piece);
    TrimKeepsPiece(part + blocks, piece);
  }

  lemma Regroup(a: string, b: string, c: string)
    ensures a + b + c == a + (b + c)
  {}

  lemma LineHoldsSummary(first: bool, ep: Episode)
    ensures Contains(EpisodeLine(first, ep), "- " + OneLine(ep.summary))
  {
    var start, summary := if first then "" else "\n", OneLine(ep.summary);
    var tail := if ep.language != "" then " (lang: " + ep.language + ")" else "";
    Regroup(start, "- ", summary);
    ContainsMiddle(start, "- " + summary, tail);
  }

  lemma BulletIsSolid(text: string)
    requires text != "" && !IsSpace(text[|text| - 1])
    ensures Solid("- " + text)
  {
    var s := "- " + text;
    assert s[0] == '-' && s[|s| - 1] == text[|text| - 1];
  }

  /** In the wording in use: the summary of every episode rendered stands in the text, as one line. */
  lemma EpisodesAreShown(eps: seq<Episode>, pits: seq<Pitfall>, k: nat)
    requires k < |eps| && OneLine(eps[k].summary) != ""
    ensures Contains(Rendered(RecallLayout(), eps, pits), "- " + OneLine(eps[k].summary))
  {
    OneLineIsSolid(eps[k].summary);
    BulletIsSolid(OneLine(eps[k].summary));
    LineHoldsSummary(k == 0, eps[k]);
    PieceOfLineIsShown(RecallLayout(), eps, pits, k, "- " + OneLine(eps[k].summary));
  }

  lemma WithoutTwo(x: string, y: string, z: string)
    requires |x| >= 2 && x[2..] == y
    ensures (x + z)[2..] == y + z
  {}

  /** The advice on a pitfall, but for its fix. */
  function Advice(p: Pitfall): string {
    "[Risk advisory — vatbrain]\n- " + p.entityID + ": " + OneLine(p.signature) + "\n"
    + "  root cause: " + p.rootCause + " · 曾于 " + (if p.lastOccurred.Some? then p.lastOccurred.value else "—")
    + " 发生 · confidence: " + IntText(p.trust)
  }

  lemma WithoutTwoChained(x: string, y: string, a: string, b: string, c: string, d: string, e: string)
    requires |x| >= 2 && x[2..] == y
    ensures (x + a + b + c + d + e)[2..] == y + a + b + c + d + e
  {
    WithoutTwo(x, y, a);
    WithoutTwo(x + a, y + a, b);
    WithoutTwo(x + a + b, y + a + b, c);
    WithoutTwo(x + a + b + c, y + a + b + c, d);
    WithoutTwo(x + a + b + c + d, y + a + b + c + d, e);
  }

  lemma BlockHoldsAdvice(p: Pitfall)
    ensures Contains(PitfallBlock(p), Advice(p)) && Solid(Advice(p))
  {
    var date := if p.lastOccurred.Some? then p.lastOccurred.value else "—";
    var x, y := "\n\n[Risk advisory — vatbrain]\n- ", "[Risk advisory — vatbrain]\n- ";
    WithoutTwoChained(x, y, p.entityID, ": ", OneLine(p.signature), "\n", "  root cause: ");
    x := x + p.entityID + ": " + OneLine(p.signature) + "\n" + "  root cause: ";
    y := y + p.entityID + ": " + OneLine(p.signature) + "\n" + "  root cause: ";
    WithoutTwoChained(x, y, p.rootCause, " · 曾于 ", date, " 发生 · confidence: ", IntText(p.trust));
    AdviceIsSolid(y + p.rootCause + " · 曾于 " + date + " 发生 · confidence: ", p.trust);
    x := x + p.rootCause + " · 曾于 " + date + " 发生 · confidence: " + IntText(p.trust);
    FollowedBy(x, Advice(p), "\n");
    FollowedBy(x + "\n", Advice(p), if p.fixStrategy != "" then "  Fix: " + OneLine(p.fixStrategy) + "\n" else "");
  }

  lemma FollowedBy(x: string, piece: string, more: string)
    requires Contains(x, piece) || (|x| >= 2 && x[2..] == piece)
    ensures Contains(x + more, piece)
  {
    if |x| >= 2 && x[2..] == piece {
      assert StandsAt(x + more, 2, piece);
    } else {
      ContainsMiddle("", x, more);
      assert "" + x + more == x + more;
      ContainsTransitive(x + more, x, piece);
    }
  }

  lemma AdviceIsSolid(start: string, trust: int)
    requires start != "" && !IsSpace(start[0])
    ensures Solid(start + IntText(trust))
  {
    DecimalHasDigits(if trust < 0 then -trust else trust);
    var s := start + IntText(trust);
    assert s[0] == start[0] && s[|s| - 1] == IntText(trust)[|IntText(trust)| - 1];
  }

  lemma FixIsSolid(fix: string)
    requires fix != "" && !IsSpace(fix[|fix| - 1])
    ensures Solid("Fix: " + fix) && Contains("  Fix: " + fix + "\n", "Fix: " + fix)
  {
    var s := "Fix: " + fix;
    assert s[0] == 'F' && s[|s| - 1] == fix[|fix| - 1];
    WithoutTwo("  Fix: ", "Fix: ", fix);
    FollowedBy("  Fix: " + fix, "Fix: " + fix, "\n");
  }

  lemma EndsWith(before: string, end: string)
    ensures Contains(before + end, end)
  {
    assert StandsAt(before + end, |before|, end);
  }

  lemma BlockHoldsFix(p: Pitfall)
    requires OneLine(p.fixStrategy) != ""
    ensures Contains(PitfallBlock(p), "Fix: " + OneLine(p.fixStrategy)) && Solid("Fix: " + OneLine(p.fixStrategy))
  {
    var fix := OneLine(p.fixStrategy);
    OneLineIsSolid(p.fixStrategy);
    FixIsSolid(fix);
    EndsWith("\n\n[Risk advisory — vatbrain]\n- " + p.entityID + ": " + OneLine(p.signature) + "\n"
      + "  root cause: " + p.rootCause + " · 曾于 " + (if p.lastOccurred.Some? then p.lastOccurred.value else "—")
      + " 发生 · confidence: " + IntText(p.trust) + "\n", "  Fix: " + fix + "\n");
    ContainsTransitive(PitfallBlock(p), "  Fix: " + fix + "\n", "Fix: " + fix);
  }

  /** And so does the advice on every pitfall, with entity, signature, cause, date and trust, and its fix if any. */
  lemma PitfallsAreShown(eps: seq<Episode>, pits: seq<Pitfall>, k: nat)
    requires k < |pits|
    ensures Contains(Rendered(RecallLayout(), eps, pits), Advice(pits[k]))
    ensures OneLine(pits[k].fixStrategy) != "" ==>
        Contains(Rendered(RecallLayout(), eps, pits), "Fix: " + OneLine(pits[k].fixStrategy))
  {
    BlockHoldsAdvice(pits[k]);
    PieceOfBlockIsShown(RecallLayout(), eps, pits, k, Advice(pits[k]));
    if OneLine(pits[k].fixStrategy) != "" {
      BlockHoldsFix(pits[k]);
      PieceOfBlockIsShown(RecallLayout(), eps, pits, k, "Fix: " + OneLine(pits[k].fixStrategy));
    }
  }

  // ---------------------------------------------------------------- tokens and budget

  lemma {:induction false} CjkAreCounted(s: string, n: nat)
    requires n <= |s|
    ensures CountCjk(s[..n]) == |set i | 0 <= i < n && 0x3000 <= s[i] as int <= 0x9FFF| <= n
  {
    var hits := set i | 0 <= i < n && 0x3000 <= s[i] as int <= 0x9FFF;
    if n == 0 {
      assert hits == {};
    } else {
      CjkAreCounted(s, n - 1);
      assert s[..n][..n - 1] == s[..n - 1];
      assert hits == (set i | 0 <= i < n - 1 && 0x3000 <= s[i] as int <= 0x9FFF)
        + if 0x3000 <= s[n - 1] as int <= 0x9FFF then {n - 1} else {};
    }
  }

  /** The estimate: one for each CJK character, and one for every four others begun. */
  lemma TokensMean(s: string)
    ensures var cjk := |set i | 0 <= i < |s| && 0x3000 <= s[i] as int <= 0x9FFF|;
      cjk <= |s| && 4 * (Tokens(s) - cjk) - 3 <= |s| - cjk <= 4 * (Tokens(s) - cjk)
  {
    CjkAreCounted(s, |s|);
    assert s[..|s|] == s;
  }

  /**
   With a budget, the text keeps to it, or no more than the two top items are left; and when all that
   survives suppression fits, or there is no budget, all of it is shown.
   */
  lemma BudgetIsMet(l: Layout, eps: seq<Episode>, pits: seq<Pitfall>, opts: Options, es: seq<Episode>, ps: seq<Pitfall>,
                    text: string, st: Stats)
    requires Condensed(l, eps, pits, opts, es, ps, text, st)
    ensures opts.maxTokens > 0 && Tokens(text) > opts.maxTokens ==> st.episodesOut <= 1 && st.pitfallsOut <= 1
    ensures opts.maxTokens <= 0 || Tokens(Rendered(l, es, ps)) <= opts.maxTokens ==>
        st.episodesOut == |es| && st.pitfallsOut == |ps| && text == Rendered(l, es, ps) && !st.budgetHit
  {
    assert es[..|es|] == es && ps[..|ps|] == ps;
  }

  /** Without restatements, and within the budget if there is one, the text is the plain one. */
  lemma NothingToCondense(l: Layout, eps: seq<Episode>, pits: seq<Pitfall>, opts: Options, text: string, st: Stats)
    requires Condensed(l, eps, pits, opts, Suppress(EpisodeDup(opts), eps), Suppress(PitfallDup(opts), pits), text, st)
    requires PairwiseDistinct(EpisodeDup(opts), eps) && PairwiseDistinct(PitfallDup(opts), pits)
    requires opts.maxTokens <= 0 || Tokens(Rendered(l, eps, pits)) <= opts.maxTokens
    ensures text == Rendered(l, eps, pits) && st.inputTokens == st.outputTokens
    ensures st.suppressedEpisodes == st.suppressedPitfalls == 0 && !st.budgetHit
  {
    DistinctPassesUnchanged(EpisodeDup(opts), eps);
    DistinctPassesUnchanged(PitfallDup(opts), pits);
    BudgetIsMet(l, eps, pits, opts, eps, pits, text, st);
  }
}
