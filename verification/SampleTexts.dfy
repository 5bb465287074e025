/** Three short texts and how the text comparisons in use judge them. */
module SampleTexts {
  import opened Wrappers
  import opened UpdateTracker
  import opened Directives

  /** Folding of ASCII letters; on the characters of the samples and the markers it is Go's. */
  function Lower(c: char): char {
    if 'A' <= c <= 'Z' then (c as int + 32) as char else c
  }

  function SampleLanguage(): Language {
    TextLanguage((c: char) => Lower(c))
  }

  lemma MissingCharacter(a: string, b: string, k: nat)
    requires k < |b| && b[k] !in a
    ensures !Text.Contains(a, b)
  {
    forall i | 0 <= i <= |a| ensures !Text.StandsAt(a, i, b) {
      if i + |b| <= |a| { assert a[i..i + |b|][k] == a[i + k]; }
    }
  }

  lemma ShortBigrams(x: char, y: char, z: char)
    requires x != y || y != z
    ensures Text.Bigrams([x, y, z]) == {[x, y], [y, z]} && |Text.Bigrams([x, y, z])| == 2
  {
    var s := [x, y, z];
    assert Text.BigramAt(s, 0) == [x, y] && Text.BigramAt(s, 1) == [y, z];
    assert [x, y][0] == x && [x, y][1] == y && [y, z][0] == y && [y, z][1] == z;
    assert Text.Bigrams(s) == {[x, y], [y, z]};
  }

  lemma MergedBigrams(s: string)
    requires s == "ab\nabc"
    ensures Text.Bigrams(s) == {"ab", "b\n", "\na", "bc"} && |Text.Bigrams(s)| == 4
  {
    assert Text.BigramAt(s, 0) == "ab" && Text.BigramAt(s, 1) == "b\n" && Text.BigramAt(s, 2) == "\na"
      && Text.BigramAt(s, 3) == "ab" && Text.BigramAt(s, 4) == "bc";
    assert Text.Bigrams(s) == {"ab", "b\n", "\na", "bc"};
    assert "ab"[0] != "b\n"[0] && "ab"[0] != "\na"[0] && "ab"[0] != "bc"[0] && "\na"[0] != "bc"[0] &&
      "b\n"[1] != "bc"[1] && "b\n"[0] != "\na"[0];
  }

  /** "abc" restates "ab" and is about the subject of "bcd"; so is what "ab" becomes by appending it. */
  lemma TextFacts(abc: string, bcd: string, merged: string)
    requires abc == "abc" && bcd == "bcd" && merged == "ab\nabc"
    ensures Text.Dice(abc, bcd) == 0.5 && 0.25 <= Text.Dice(bcd, merged) < 0.9
    ensures !Text.Contains(abc, bcd) && !Text.Contains(bcd, abc)
    ensures !Text.Contains(bcd, merged) && !Text.Contains(merged, bcd)
  {
    MissingCharacter(abc, bcd, 2);
    MissingCharacter(bcd, abc, 0);
    MissingCharacter(bcd, merged, 0);
    MissingCharacter(merged, bcd, 2);
    ShortBigrams('a', 'b', 'c');
    ShortBigrams('b', 'c', 'd');
    MergedBigrams(merged);
    assert "cd"[1] !in "ab\nabc";
    assert Text.Bigrams(abc) * Text.Bigrams(bcd) == {"bc"};
    assert Text.Bigrams(bcd) * Text.Bigrams(merged) == {"bc"};
  }

  // ---------------------------------------------------------------- no directives

  /** No sample character. */
  predicate Foreign(c: char) {
    c !in "abcd\n"
  }

  lemma NoMarker(lower: char -> char, markers: seq<string>, t: string)
    requires forall i :: 0 <= i < |t| ==> !Foreign(lower(t[i]))
    requires forall i :: 0 <= i < |markers| ==> |markers[i]| > 1 && Foreign(lower(markers[i][1]))
    ensures !Marked(lower, markers, t)
  {
    forall i | 0 <= i < |markers| ensures !Text.Contains(Text.Lowered(lower, t), Text.Lowered(lower, markers[i])) {
      MissingCharacter(Text.Lowered(lower, t), Text.Lowered(lower, markers[i]), 1);
    }
  }

  lemma MarkersAreForeign()
    ensures forall i :: 0 <= i < |PROHIBITIVE_MARKERS| ==>
        |PROHIBITIVE_MARKERS[i]| > 1 && Foreign(Lower(PROHIBITIVE_MARKERS[i][1]))
    ensures forall i :: 0 <= i < |AFFIRMATIVE_MARKERS| ==>
        |AFFIRMATIVE_MARKERS[i]| > 1 && Foreign(Lower(AFFIRMATIVE_MARKERS[i][1]))
  {}

  /** A text over the sample characters carries no directive. */
  lemma SamplesAreNeutral(t: string)
    requires forall i :: 0 <= i < |t| ==> t[i] in "abcd\n"
    ensures SampleLanguage().polarity(t) == None
  {
    var lower := (c: char) => Lower(c);
    MarkersAreForeign();
    NoMarker(lower, PROHIBITIVE_MARKERS, t);
    NoMarker(lower, AFFIRMATIVE_MARKERS, t);
  }

  /** How the three texts compare, as the judgement sees it. */
  ghost predicate Compares(l: Language) {
    && l.contains("abc", "ab")
    && l.dice("abc", "bcd") == l.dice("bcd", "abc") == 0.5 && !l.contains("abc", "bcd") && !l.contains("bcd", "abc")
    && 0.25 <= l.dice("bcd", "ab\nabc") < 0.9 && !l.contains("bcd", "ab\nabc") && !l.contains("ab\nabc", "bcd")
    && l.polarity("ab") == l.polarity("abc") == l.polarity("bcd") == l.polarity("ab\nabc") == None
  }

  lemma ContainsStart(a: string, b: string)
    requires |b| <= |a| && a[..|b|] == b
    ensures Text.Contains(a, b)
  {
    assert Text.StandsAt(a, 0, b);
  }

  lemma TextsCompare()
    ensures Compares(SampleLanguage())
  {
    TextFacts("abc", "bcd", "ab\nabc");
    Text.DiceSymmetric("abc", "bcd");
    ContainsStart("abc", "ab");
    SamplesAreNeutral("ab");
    SamplesAreNeutral("abc");
    SamplesAreNeutral("bcd");
    SamplesAreNeutral("ab\nabc");
  }
}
