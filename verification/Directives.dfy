/** The directive a text carries, found by marker words; prohibition wins over prescription. */
module Directives {
  import opened Wrappers
  import opened Text
  import opened UpdateTracker
  import opened RuleConflict

  const PROHIBITIVE_MARKERS: seq<string> := [
    "不要", "禁止", "别用", "不要用", "别再用", "避免", "不应", "不能", "不可", "不该",
    "never", "don't", "do not", "must not", "mustn't", "avoid", "forbid", "禁止使用"]

  const AFFIRMATIVE_MARKERS: seq<string> := [
    "应该", "应当", "必须", "一定要", "始终", "总是", "always", "must", "should",
    "使用", "采用", "选用", "需要"]

  predicate Marked(lower: char -> char, markers: seq<string>, content: string) {
    exists i :: 0 <= i < |markers| && Contains(Lowered(lower, content), Lowered(lower, markers[i]))
  }

  /** The polarity as a function of the text; `lower` is Go's folding, which goes rune by rune. */
  function PolarityOf(lower: char -> char, content: string): Option<Polarity> {
    if Marked(lower, PROHIBITIVE_MARKERS, content) then Some(Prohibitive)
    else if Marked(lower, AFFIRMATIVE_MARKERS, content) then Some(Affirmative)
    else None
  }

  method FindMarker(lower: char -> char, markers: seq<string>, content: string) returns (found: bool)
    ensures found <==> Marked(lower, markers, content)
  {
    var norm := Lowered(lower, content);
    for i := 0 to |markers|
      invariant forall k :: 0 <= k < i ==> !Contains(norm, Lowered(lower, markers[k]))
    {
      if Contains(norm, Lowered(lower, markers[i])) { return true; }
    }
    return false;
  }

  method DetectPolarity(lower: char -> char, content: string) returns (p: Option<Polarity>)
    ensures p == PolarityOf(lower, content)
    ensures p == Some(Prohibitive) <==> Marked(lower, PROHIBITIVE_MARKERS, content)
    ensures p == Some(Affirmative) <==>
        !Marked(lower, PROHIBITIVE_MARKERS, content) && Marked(lower, AFFIRMATIVE_MARKERS, content)
  {
    var found := FindMarker(lower, PROHIBITIVE_MARKERS, content);
    if found { return Some(Prohibitive); }
    found := FindMarker(lower, AFFIRMATIVE_MARKERS, content);
    if found { return Some(Affirmative); }
    return None;
  }

  /** Words that settle the directive: a prohibition in any case, a prescription unless something is forbidden too. */
  lemma WordsDecide(lower: char -> char, content: string, word: string)
    requires Contains(Lowered(lower, content), Lowered(lower, word))
    ensures word == "never" || word == "must not" || word == "avoid" || word == "不要" || word == "禁止" ==>
        PolarityOf(lower, content) == Some(Prohibitive)
    ensures word == "always" || word == "must" || word == "should" || word == "必须" || word == "应该" ==>
        PolarityOf(lower, content) ==
          Some(if Marked(lower, PROHIBITIVE_MARKERS, content) then Prohibitive else Affirmative)
  {
    var no, yes := PROHIBITIVE_MARKERS, AFFIRMATIVE_MARKERS;
    assert no[10] == "never" && no[13] == "must not" && no[15] == "avoid" && no[0] == "不要" && no[1] == "禁止";
    assert yes[6] == "always" && yes[7] == "must" && yes[8] == "should" && yes[2] == "必须" && yes[0] == "应该";
  }

  /** The comparisons the engines make: bigram similarity, substring containment, directive markers. */
  function TextLanguage(lower: char -> char): Language {
    Language((a, b) => Dice(a, b), (a, b) => Contains(a, b), t => PolarityOf(lower, t))
  }

  lemma ContainsInMore(a: string, b: string, before: string, after: string)
    requires Contains(a, b)
    ensures Contains(before + a + after, b)
  {
    var i :| 0 <= i <= |a| && StandsAt(a, i, b);
    var whole, at := before + a + after, |before| + i;
    assert whole[at..at + |b|] == a[i..i + |b|];
    assert StandsAt(whole, at, b);
  }

  /** A directive of a text stays in whatever the text is appended to, so an appended prohibition prevails. */
  lemma MarksSurviveAppending(lower: char -> char, markers: seq<string>, before: string, content: string, after: string)
    requires Marked(lower, markers, content)
    ensures Marked(lower, markers, before + content + after)
  {
    var i :| 0 <= i < |markers| && Contains(Lowered(lower, content), Lowered(lower, markers[i]));
    ContainsInMore(Lowered(lower, content), Lowered(lower, markers[i]), Lowered(lower, before), Lowered(lower, after));
    assert Lowered(lower, before + content + after)
      == Lowered(lower, before) + Lowered(lower, content) + Lowered(lower, after);
  }

  /** Bigram similarity is symmetric, as the conflict pass needs. */
  lemma BigramDiceIsSymmetric(lower: char -> char)
    ensures SymmetricDice(TextLanguage(lower))
  {
    forall a, b ensures TextLanguage(lower).dice(a, b) == TextLanguage(lower).dice(b, a) { DiceSymmetric(a, b); }
  }
}
