/** Strings as the engines see them: white space, containment, character bigrams. */
module Text {
  /** White space in the sense of Go's unicode.IsSpace. */
  predicate IsSpace(c: char) {
    var n := c as int;
    || 0x09 <= n <= 0x0D || n == 0x20 || n == 0x85 || n == 0xA0 || n == 0x1680
    || 0x2000 <= n <= 0x200A || n == 0x2028 || n == 0x2029 || n == 0x202F || n == 0x205F || n == 0x3000
  }

  function WordLength(s: string): (n: nat)
    ensures n <= |s|
    ensures s != [] && !IsSpace(s[0]) ==> n > 0
    ensures forall i :: 0 <= i < n ==> !IsSpace(s[i])
  {
    if s == [] || IsSpace(s[0]) then 0 else 1 + WordLength(s[1..])
  }

  /** The words of a text joined by single spaces. */
  function OneLine(s: string): string
    decreases |s|
  {
    if s == [] then ""
    else if IsSpace(s[0]) then OneLine(s[1..])
    else
      var n := WordLength(s);
      var rest := OneLine(s[n..]);
      if rest == "" then s[..n] else s[..n] + " " + rest
  }

  /** The only white space left is the plain blank, so a text injects as one line. */
  lemma {:induction false} OneLineIsOneLine(s: string, i: nat)
    requires i < |OneLine(s)|
    ensures IsSpace(OneLine(s)[i]) ==> OneLine(s)[i] == ' '
    decreases |s|
  {
    if s != [] && IsSpace(s[0]) {
      OneLineIsOneLine(s[1..], i);
    } else if s != [] {
      var n := WordLength(s);
      if i > n { OneLineIsOneLine(s[n..], i - n - 1); }
    }
  }

  /** White space apart, nothing is lost or moved. */
  function NonSpace(s: string): string {
    if s == "" then "" else (if IsSpace(s[0]) then "" else [s[0]]) + NonSpace(s[1..])
  }

  lemma {:induction false} NonSpaceConcat(a: string, b: string)
    ensures NonSpace(a + b) == NonSpace(a) + NonSpace(b)
  {
    if a == "" {
      assert a + b == b;
    } else {
      assert (a + b)[1..] == a[1..] + b;
      NonSpaceConcat(a[1..], b);
    }
  }

  lemma {:induction false} OneLineKeepsText(s: string)
    ensures NonSpace(OneLine(s)) == NonSpace(s)
    decreases |s|
  {
    if s != "" && IsSpace(s[0]) {
      OneLineKeepsText(s[1..]);
    } else if s != "" {
      var n := WordLength(s);
      var rest := OneLine(s[n..]);
      OneLineKeepsText(s[n..]);
      NonSpaceConcat(s[..n], s[n..]);
      assert s == s[..n] + s[n..];
      AfterBlank(s[..n], rest);
    }
  }

  lemma AfterBlank(a: string, b: string)
    ensures NonSpace(a + " " + b) == NonSpace(a) + NonSpace(b)
    ensures NonSpace("") == ""
  {
    NonSpaceConcat(a + " ", b);
    NonSpaceConcat(a, " ");
    assert NonSpace(" ") == NonSpace(" "[1..]) == "";
  }

  /** The text as one line starts and ends with a word. */
  lemma {:induction false} OneLineIsSolid(s: string)
    ensures OneLine(s) != "" ==> !IsSpace(OneLine(s)[0]) && !IsSpace(OneLine(s)[|OneLine(s)| - 1])
    decreases |s|
  {
    if s != "" && IsSpace(s[0]) {
      OneLineIsSolid(s[1..]);
    } else if s != "" {
      OneLineIsSolid(s[WordLength(s)..]);
    }
  }

  // ---------------------------------------------------------------- trimming

  function Lead(s: string): (n: nat)
    ensures n <= |s| && (n < |s| ==> !IsSpace(s[n]))
    ensures forall i :: 0 <= i < n ==> IsSpace(s[i])
  {
    if s == [] || !IsSpace(s[0]) then 0 else 1 + Lead(s[1..])
  }

  function Trail(s: string): (n: nat)
    ensures n <= |s| && (n > 0 ==> !IsSpace(s[n - 1]))
    ensures forall i :: n <= i < |s| ==> IsSpace(s[i])
  {
    if s == [] || !IsSpace(s[|s| - 1]) then |s| else Trail(s[..|s| - 1])
  }

  function TrimSpace(s: string): string {
    if Lead(s) < Trail(s) then s[Lead(s)..Trail(s)] else ""
  }

  ghost predicate AllSpace(s: string) {
    forall i :: 0 <= i < |s| ==> IsSpace(s[i])
  }

  /** Trimming takes white space, and all of it, off both ends and nothing else. */
  lemma TrimMeans(s: string) returns (before: string, after: string)
    ensures s == before + TrimSpace(s) + after && AllSpace(before) && AllSpace(after)
    ensures TrimSpace(s) == "" <==> AllSpace(s)
    ensures var t := TrimSpace(s); t != "" ==> !IsSpace(t[0]) && !IsSpace(t[|t| - 1])
  {
    var l, r := Lead(s), Trail(s);
    if l < r {
      before, after := s[..l], s[r..];
    } else {
      before, after := s, "";
      forall i | 0 <= i < |s| ensures IsSpace(s[i]) {}
    }
  }

  // ---------------------------------------------------------------- containment and bigrams

  predicate StandsAt(a: string, i: nat, b: string) {
    i + |b| <= |a| && a[i..i + |b|] == b
  }

  predicate Contains(a: string, b: string) {
    exists i :: 0 <= i <= |a| && StandsAt(a, i, b)
  }

  lemma ContainsTransitive(a: string, b: string, c: string)
    requires Contains(a, b) && Contains(b, c)
    ensures Contains(a, c)
  {
    var i :| 0 <= i <= |a| && StandsAt(a, i, b);
    var j :| 0 <= j <= |b| && StandsAt(b, j, c);
    var part := a[i + j..i + j + |c|];
    forall n | 0 <= n < |c| ensures part[n] == c[n] {
      assert part[n] == a[i..i + |b|][j + n] == b[j + n] == b[j..j + |c|][n];
    }
    assert part == c;
    assert StandsAt(a, i + j, c);
  }

  lemma ContainsMiddle(before: string, a: string, after: string)
    ensures Contains(before + a + after, a)
  {
    assert StandsAt(before + a + after, |before|, a);
  }

  /** Neither end is white space, so trimming cannot touch it. */
  ghost predicate Solid(s: string) {
    s != "" && !IsSpace(s[0]) && !IsSpace(s[|s| - 1])
  }

  lemma TrimKeepsPiece(s: string, piece: string)
    requires Contains(s, piece) && Solid(piece)
    ensures Contains(TrimSpace(s), piece)
  {
    var i :| 0 <= i <= |s| && StandsAt(s, i, piece);
    var l, r, n := Lead(s), Trail(s), |piece|;
    assert s[i] == piece[0] && s[i + n - 1] == piece[n - 1];
    assert l <= i && i + n <= r;
    var t, at := s[l..r], i - l;
    forall m | 0 <= m < n ensures t[at..at + n][m] == piece[m] {
      assert t[at..at + n][m] == t[at + m] == s[i + m] == s[i..i + n][m];
    }
    assert t[at..at + n] == piece;
    assert StandsAt(TrimSpace(s), at, piece);
  }

  /** The character bigrams of a text; a single character counts as its own bigram. */
  function Bigrams(s: string): set<string> {
    if |s| == 1 then {s} else set i | 0 <= i < |s| - 1 :: BigramAt(s, i)
  }

  function BigramAt(s: string, i: nat): string
    requires i + 1 < |s|
  {
    s[i..i + 2]
  }

  function DiceOfSets(a: set<string>, b: set<string>): real {
    if |a| == 0 || |b| == 0 then 0.0 else 2.0 * |a * b| as real / (|a| + |b|) as real
  }

  /** The Dice coefficient of two texts, case-sensitive. */
  function Dice(a: string, b: string): real {
    DiceOfSets(Bigrams(a), Bigrams(b))
  }

  function Lowered(lower: char -> char, s: string): (r: string)
    ensures |r| == |s|
  {
    seq(|s|, i requires 0 <= i < |s| => lower(s[i]))
  }

  /** The Dice coefficient after folding case, as the recall side scores it. */
  function BigramOverlap(lower: char -> char, a: string, b: string): real {
    if a == "" || b == "" then 0.0 else Dice(Lowered(lower, a), Lowered(lower, b))
  }

  lemma DiceOfSetsSymmetric(a: set<string>, b: set<string>)
    ensures DiceOfSets(a, b) == DiceOfSets(b, a)
  {
    assert a * b == b * a;
  }

  lemma DiceSymmetric(a: string, b: string)
    ensures Dice(a, b) == Dice(b, a)
  {
    DiceOfSetsSymmetric(Bigrams(a), Bigrams(b));
  }

  lemma OverlapSymmetric(lower: char -> char, a: string, b: string)
    ensures BigramOverlap(lower, a, b) == BigramOverlap(lower, b, a)
  {
    DiceSymmetric(Lowered(lower, a), Lowered(lower, b));
  }

  // ---------------------------------------------------------------- numbers

  function Decimal(n: nat): string {
    if n < 10 then [('0' as int + n) as char] else Decimal(n / 10) + [('0' as int + n % 10) as char]
  }

  function IntText(n: int): string {
    if n < 0 then "-" + Decimal(-n) else Decimal(n)
  }

  lemma {:induction false} DecimalHasDigits(n: nat)
    ensures Decimal(n) != [] && forall i :: 0 <= i < |Decimal(n)| ==> '0' <= Decimal(n)[i] <= '9'
    ensures |Decimal(n)| == 1 <==> n < 10
  {
    if n >= 10 { DecimalHasDigits(n / 10); }
  }

  // ---------------------------------------------------------------- length in bytes

  /** How many bytes a character takes in UTF-8. */
  function Utf8Width(c: char): nat {
    var n := c as int;
    if n < 0x80 then 1 else if n < 0x800 then 2 else if n < 0x1_0000 then 3 else 4
  }

  /** The length of a text as Go's len counts it. */
  function ByteLength(s: string): (n: nat)
    ensures n >= |s|
  {
    if s == "" then 0 else Utf8Width(s[0]) + ByteLength(s[1..])
  }

  /** An ASCII text takes a byte for each character, a Chinese one three. */
  lemma {:induction false} BytesOfText(s: string)
    ensures (forall i :: 0 <= i < |s| ==> s[i] as int < 0x80) ==> ByteLength(s) == |s|
    ensures (forall i :: 0 <= i < |s| ==> 0x4E00 <= s[i] as int <= 0x9FFF) ==> ByteLength(s) == 3 * |s|
  {
    if s != "" {
      assert forall i :: 0 <= i < |s| - 1 ==> s[1..][i] == s[i + 1];
      BytesOfText(s[1..]);
    }
  }

  lemma {:induction false} ByteLengthConcat(a: string, b: string)
    ensures ByteLength(a + b) == ByteLength(a) + ByteLength(b)
  {
    if a == "" {
      assert a + b == b;
    } else {
      assert (a + b)[1..] == a[1..] + b;
      ByteLengthConcat(a[1..], b);
    }
  }

  /** A contained text takes fewer bytes, unless it is the whole. */
  lemma ContainedIsShorter(a: string, b: string)
    requires Contains(a, b) && a != b
    ensures ByteLength(b) < ByteLength(a)
  {
    var i :| 0 <= i <= |a| && StandsAt(a, i, b);
    var before, after := a[..i], a[i + |b|..];
    assert a == before + (b + after);
    ByteLengthConcat(before, b + after);
    ByteLengthConcat(b, after);
    assert before != "" || after != "";
  }
}
