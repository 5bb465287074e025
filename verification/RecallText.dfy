/** The wording of the recall block, and the condensed block as it is injected. */
module RecallText {
  import opened Text
  import opened Condense

  function EpisodeLine(first: bool, ep: Episode): string {
    (if first then "" else "\n") + "- " + OneLine(ep.summary)
    + (if ep.language != "" then " (lang: " + ep.language + ")" else "")
  }

  function PitfallBlock(p: Pitfall): string {
    "\n\n[Risk advisory — vatbrain]\n- " + p.entityID + ": " + OneLine(p.signature) + "\n"
    + "  root cause: " + p.rootCause + " · 曾于 " + (if p.lastOccurred.Some? then p.lastOccurred.value else "—")
    + " 发生 · confidence: " + IntText(p.trust) + "\n"
    + (if p.fixStrategy != "" then "  Fix: " + OneLine(p.fixStrategy) + "\n" else "")
  }

  function RecallLayout(): Layout {
    Layout("[vatbrain memory context]\n", (first: bool, ep: Episode) => EpisodeLine(first, ep),
      (p: Pitfall) => PitfallBlock(p))
  }

  /** The recall block under its budget. */
  method FormatRecall(eps: seq<Episode>, pits: seq<Pitfall>, opts: Options) returns (text: string, st: Stats)
    ensures Condensed(RecallLayout(), eps, pits, opts, Suppress(EpisodeDup(opts), eps),
        Suppress(PitfallDup(opts), pits), text, st)
  {
    text, st := FormatPrefetchCondensed(RecallLayout(), eps, pits, opts);
  }

  // ---------------------------------------------------------------- one line per episode

  function Breaks(s: string): nat {
    if s == "" then 0 else Breaks(s[..|s| - 1]) + if s[|s| - 1] == '\n' then 1 else 0
  }

  lemma {:induction false} BreaksConcat(a: string, b: string)
    ensures Breaks(a + b) == Breaks(a) + Breaks(b)
  {
    if b == "" {
      assert a + b == a;
    } else {
      var n := |b| - 1;
      assert (a + b)[..|a + b| - 1] == a + b[..n];
      BreaksConcat(a, b[..n]);
    }
  }

  lemma {:induction false} NoBreaks(s: string)
    requires '\n' !in s
    ensures Breaks(s) == 0
  {
    if s != "" {
      assert forall c :: c in s[..|s| - 1] ==> c in s;
      NoBreaks(s[..|s| - 1]);
    }
  }

  lemma SummaryHasNoBreak(s: string)
    ensures Breaks(OneLine(s)) == 0
  {
    forall i | 0 <= i < |OneLine(s)| ensures OneLine(s)[i] != '\n' { OneLineIsOneLine(s, i); }
    NoBreaks(OneLine(s));
  }

  /** A line breaks before it unless it is the first, and otherwise only inside its language. */
  lemma BreaksOfLine(first: bool, ep: Episode)
    ensures Breaks(EpisodeLine(first, ep)) == (if first then 0 else 1) + Breaks(ep.language)
  {
    var start, summary := (if first then "" else "\n"), OneLine(ep.summary);
    var tail := if ep.language != "" then " (lang: " + ep.language + ")" else "";
    SummaryHasNoBreak(ep.summary);
    BreaksConcat(start + "- " + summary, tail);
    BreaksConcat(start + "- ", summary);
    BreaksConcat(start, "- ");
    NoBreaks("- ");
    NoBreaks(")");
    NoBreaks(" (lang: ");
    BreaksConcat(" (lang: " + ep.language, ")");
    BreaksConcat(" (lang: ", ep.language);
    assert "\n"[..0] == "";
  }

  function LanguageBreaks(eps: seq<Episode>): nat {
    if eps == [] then 0 else LanguageBreaks(eps[..|eps| - 1]) + Breaks(eps[|eps| - 1].language)
  }

  /** Whatever the summaries contain, every episode takes one line, unless its language breaks it. */
  lemma {:induction false} OneLinePerEpisode(eps: seq<Episode>)
    requires eps != []
    ensures Breaks(EpisodeLines(RecallLayout(), eps)) == |eps| - 1 + LanguageBreaks(eps)
  {
    var n := |eps| - 1;
    BreaksConcat(EpisodeLines(RecallLayout(), eps[..n]), EpisodeLine(n == 0, eps[n]));
    BreaksOfLine(n == 0, eps[n]);
    if n > 0 {
      OneLinePerEpisode(eps[..n]);
    } else {
      assert eps[..n] == [];
    }
  }
}
