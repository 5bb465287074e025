/**
 Whose rows an answer holds. The hot cache files answers under a text that joins the fields of the
 request; over every run an answer fits its own request, provided the text tells requests apart.
 */
module CacheAnswers {
  import opened Wrappers
  import opened HotCache

  // ---------------------------------------------------------------- numerals and fields

  lemma {:induction false} DecimalIsInjective(m: nat, n: nat)
    requires Text.Decimal(m) == Text.Decimal(n)
    ensures m == n
  {
    Text.DecimalHasDigits(m);
    Text.DecimalHasDigits(n);
    if m >= 10 {
      var s := Text.Decimal(m);
      assert s[..|s| - 1] == Text.Decimal(m / 10) && s[..|s| - 1] == Text.Decimal(n / 10);
      assert s[|s| - 1] == ('0' as int + m % 10) as char == ('0' as int + n % 10) as char;
      DecimalIsInjective(m / 10, n / 10);
    }
  }

  lemma SignShows(n: int)
    ensures Text.IntText(n) != [] && (Text.IntText(n)[0] == '-' <==> n < 0)
  {
    Text.DecimalHasDigits(if n < 0 then -n else n);
  }

  lemma IntTextIsInjective(m: int, n: int)
    requires Text.IntText(m) == Text.IntText(n)
    ensures m == n
  {
    var s := Text.IntText(m);
    SignShows(m);
    SignShows(n);
    if m < 0 {
      assert s[1..] == Text.Decimal(-m) && s[1..] == Text.Decimal(-n);
      DecimalIsInjective(-m, -n);
    } else {
      DecimalIsInjective(m, n);
    }
  }

  lemma IntTextHasNoColon(n: int)
    ensures ':' !in Text.IntText(n)
  {
    Text.DecimalHasDigits(if n < 0 then -n else n);
  }

  lemma LaterIsInField(a: string, x: string, k: int)
    requires |a| < k < |a| + 1 + |x|
    ensures (a + ":" + x)[k] in x
  {
    assert (a + ":" + x)[k] == x[k - |a| - 1];
  }

  /** A last field without a colon can be told from what comes before it. */
  lemma LastField(a: string, x: string, b: string, y: string)
    requires a + ":" + x == b + ":" + y && ':' !in x && ':' !in y
    ensures a == b && x == y
  {
    var s, t := a + ":" + x, b + ":" + y;
    assert s[|a|] == ':' && t[|b|] == ':';
    if |a| < |b| { LaterIsInField(a, x, |b|); }
    if |b| < |a| { LaterIsInField(b, y, |a|); }
    assert s[..|a|] == a && t[..|b|] == b && s[|a| + 1..] == x && t[|b| + 1..] == y;
  }

  function Flag(b: bool): string {
    if b then "true" else "false"
  }

  /** The last two fields are always told apart. */
  lemma KeyEnds(q: Request, r: Request)
    requires CacheKey(q) == CacheKey(r)
    ensures q.limit == r.limit && q.includeObsolete == r.includeObsolete
    ensures "ep:" + q.projectID + ":" + q.language + ":" + q.taskType
      == "ep:" + r.projectID + ":" + r.language + ":" + r.taskType
  {
    var x, y := "ep:" + q.projectID + ":" + q.language + ":" + q.taskType,
      "ep:" + r.projectID + ":" + r.language + ":" + r.taskType;
    IntTextHasNoColon(q.limit);
    IntTextHasNoColon(r.limit);
    LastField(x + ":" + Flag(q.includeObsolete), Text.IntText(q.limit),
              y + ":" + Flag(r.includeObsolete), Text.IntText(r.limit));
    LastField(x, Flag(q.includeObsolete), y, Flag(r.includeObsolete));
    IntTextIsInjective(q.limit, r.limit);
    assert |Flag(true)| != |Flag(false)|;
  }

  /** The fields before the last can be told apart in the key. */
  predicate Plain(q: Request) {
    ':' !in q.language && ':' !in q.taskType
  }

  /** Equal keys, equal fields: two plain requests share an entry only when they ask for the same. */
  lemma KeyDetermines(q: Request, r: Request)
    requires CacheKey(q) == CacheKey(r) && Plain(q) && Plain(r)
    ensures q.projectID == r.projectID && q.language == r.language && q.taskType == r.taskType
    ensures q.includeObsolete == r.includeObsolete && q.limit == r.limit
  {
    KeyEnds(q, r);
    LastField("ep:" + q.projectID + ":" + q.language, q.taskType, "ep:" + r.projectID + ":" + r.language, r.taskType);
    LastField("ep:" + q.projectID, q.language, "ep:" + r.projectID, r.language);
    assert ("ep:" + q.projectID)[3..] == q.projectID && ("ep:" + r.projectID)[3..] == r.projectID;
  }

  // ---------------------------------------------------------------- answers over a run

  /** The rows are those the request asks for, as they were stored, and no more than asked for. */
  ghost predicate Fits(q: Request, answer: seq<Row>) {
    && |answer| <= EffectiveLimit(q.limit)
    && forall i :: 0 <= i < |answer| ==>
      && (q.projectID != "" ==> answer[i].projectID == q.projectID)
      && (q.language != "" ==> answer[i].language == q.language)
      && (q.taskType != "" ==> answer[i].taskType == q.taskType)
      && (!q.includeObsolete ==> answer[i].obsoletedAt == None)
  }

  /** Every entry fits a plain request with its key. */
  ghost predicate Labelled(s: State) {
    forall k :: k in s.cache ==> exists q :: CacheKey(q) == k && Plain(q) && Fits(q, s.cache[k])
  }

  lemma FreshFits(table: map<int, Row>, q: Request, answer: seq<Row>)
    requires FreshAnswer(table, q, answer)
    ensures Fits(q, answer)
  {}

  lemma StepKeepsLabelled(s: State, op: Op, s': State)
    requires Labelled(s) && Next(s, op, s') && (op.Search? ==> Plain(op.req))
    ensures Labelled(s')
    ensures op.Search? ==> Fits(op.req, op.answer)
  {
    if op.Search? {
      var key := CacheKey(op.req);
      if Cacheable(op.req) && key in s.cache && op.answer == s.cache[key] {
        var q :| CacheKey(q) == key && Plain(q) && Fits(q, s.cache[key]);
        KeyDetermines(q, op.req);
      } else {
        FreshFits(s.table, op.req, op.answer);
      }
      forall k | k in s'.cache ensures exists q :: CacheKey(q) == k && Plain(q) && Fits(q, s'.cache[k]) {
        if s'.cache[k] == op.answer && k == key {
          assert CacheKey(op.req) == k;
        } else {
          assert k in s.cache && s'.cache[k] == s.cache[k];
        }
      }
    }
  }

  ghost predicate PlainSearches(ops: seq<Op>) {
    forall j :: 0 <= j < |ops| && ops[j].Search? ==> Plain(ops[j].req)
  }

  lemma {:induction false} RunIsLabelled(states: seq<State>, ops: seq<Op>, n: nat)
    requires Run(states, ops) && n <= |ops| && PlainSearches(ops)
    ensures Labelled(states[n])
    ensures forall j :: 0 <= j < n && ops[j].Search? ==> Fits(ops[j].req, ops[j].answer)
  {
    if n > 0 {
      RunIsLabelled(states, ops, n - 1);
      StepKeepsLabelled(states[n - 1], ops[n - 1], states[n]);
    }
  }

  /**
   Over every run, cached or not: each row of an answer is of the project, language and task asked
   for, was not retired when it was read unless retired ones are wanted, and the answer keeps to the
   limit. No request's language or task type may hold a colon.
   */
  lemma AnswersFitRequests(states: seq<State>, ops: seq<Op>, j: nat, i: nat)
    requires Run(states, ops) && j < |ops| && ops[j].Search? && i < |ops[j].answer|
    requires forall n :: 0 <= n < |ops| && ops[n].Search? ==> ':' !in ops[n].req.language && ':' !in ops[n].req.taskType
    ensures var q, row := ops[j].req, ops[j].answer[i];
      && (q.projectID == "" || row.projectID == q.projectID) && (q.language == "" || row.language == q.language)
      && (q.taskType == "" || row.taskType == q.taskType) && (q.includeObsolete || row.obsoletedAt == None)
      && |ops[j].answer| <= if q.limit <= 0 then 10 else q.limit
  {
    RunIsLabelled(states, ops, |ops|);
  }

  /** What is read from the table and not ranked in process comes best first, and nothing better is left out. */
  lemma FreshIsOrdered(table: map<int, Row>, q: Request, answer: seq<Row>, i: nat, row: Row)
    requires FreshAnswer(table, q, answer) && !q.embedded && q.surpriseBoost <= 0.0 && i < |answer|
    requires row in answer[i..] || (row !in answer && row.id in table && table[row.id] == row && Matches(q, row))
    ensures if q.sortByOccurredAt then answer[i].occurredAt >= row.occurredAt else answer[i].weight >= row.weight
    ensures row !in answer ==> |answer| == if q.limit <= 0 then 10 else q.limit
  {
    if row in answer[i..] {
      var n :| 0 <= n < |answer| - i && answer[i..][n] == row;
      assert answer[i + n] == row;
    }
    assert SqlOrder(q)(answer[i]) >= SqlOrder(q)(row);
  }

  /** A search that bypasses the cache also keeps the weight floor and the time window, over every run. */
  lemma UncachedKeepsBounds(states: seq<State>, ops: seq<Op>, j: nat, i: nat)
    requires Run(states, ops) && j < |ops| && ops[j].Search? && i < |ops[j].answer|
    requires var q := ops[j].req;
      q.embedded || q.occurredAfter != None || q.occurredBefore != None || q.sortByOccurredAt
    ensures var q, row := ops[j].req, ops[j].answer[i];
      && row.id in states[j].table && states[j].table[row.id] == row
      && (q.minWeight <= 0.0 || row.weight >= q.minWeight)
      && (q.occurredAfter.Some? ==> row.occurredAt >= q.occurredAfter.value)
      && (q.occurredBefore.Some? ==> row.occurredAt <= q.occurredBefore.value)
  {
    assert Next(states[j], ops[j], states[j + 1]);
  }

  // ---------------------------------------------------------------- when sharing an entry is right

  /** A value other than `other`, unless `own` is asked for. */
  function Instead(own: string, other: string): string {
    if own != "" then own else other + "x"
  }

  /** A row that `q` asks for and, as far as possible, `r` does not. */
  function Foreign(q: Request, r: Request): Row {
    Row(1, Instead(q.projectID, r.projectID), Instead(q.language, r.language), Instead(q.taskType, r.taskType),
        if q.minWeight > 0.0 then q.minWeight else 0.0, 0.0, None, 0, 0)
  }

  lemma ForeignIsFresh(q: Request, r: Request)
    requires Cacheable(q)
    ensures FreshAnswer(map[1 := Foreign(q, r)], q, [Foreign(q, r)])
  {}

  lemma InsteadDiffers(own: string, other: string)
    requires other != "" && other != own
    ensures Instead(own, other) != other
  {
    assert |other + "x"| != |other|;
  }

  ghost predicate AboveFloor(q: Request, answer: seq<Row>) {
    forall i :: 0 <= i < |answer| ==> q.minWeight <= 0.0 || answer[i].weight >= q.minWeight
  }

  /** Whatever is read for `q`, from any table, is right for `r` too. */
  ghost predicate Serves(q: Request, r: Request) {
    forall table: map<int, Row>, answer: seq<Row> :: FreshAnswer(table, q, answer) ==>
      Fits(r, answer) && AboveFloor(r, answer)
  }

  /**
   Two requests under one key: whatever was stored for `q` also answers `r` exactly when `r` leaves
   open, or repeats, the project, language and task type of `q`, and its weight floor is no higher.
   The key holds no weight floor, and a colon inside a field makes different fields look alike.
   */
  lemma SharedEntryIff(q: Request, r: Request)
    requires CacheKey(q) == CacheKey(r) && Cacheable(q) && Cacheable(r)
    ensures Serves(q, r) <==>
        && (r.projectID == "" || r.projectID == q.projectID) && (r.language == "" || r.language == q.language)
        && (r.taskType == "" || r.taskType == q.taskType) && (r.minWeight <= 0.0 || r.minWeight <= q.minWeight)
  {
    KeyEnds(q, r);
    var row := Foreign(q, r);
    ForeignIsFresh(q, r);
    if r.projectID != "" && r.projectID != q.projectID { InsteadDiffers(q.projectID, r.projectID); }
    if r.language != "" && r.language != q.language { InsteadDiffers(q.language, r.language); }
    if r.taskType != "" && r.taskType != q.taskType { InsteadDiffers(q.taskType, r.taskType); }
    assert [row][0] == row;
    if Serves(q, r) {
      assert Fits(r, [row]) && AboveFloor(r, [row]);
    }
  }

  /** Two requests for different projects under one key. */
  lemma ColonsCollide(q: Request)
    ensures var a, b := q.(projectID := "a", language := "b:c"), q.(projectID := "a:b", language := "c");
      CacheKey(a) == CacheKey(b)
  {
    assert "ep:" + "a" + ":" + "b:c" == "ep:" + "a:b" + ":" + "c";
  }

  /** A search for heavy rows right after a plain one answers with a light row. */
  lemma CachedAnswerIgnoresFloor(q: Request) returns (states: seq<State>, ops: seq<Op>)
    requires Cacheable(q) && !GoRanking(q) && q.minWeight == 0.0
    requires q.projectID == "p" && q.language == "" && q.taskType == ""
    ensures Run(states, ops) && |ops| == 3
    ensures ops[2].Search? && ops[2].req == q.(minWeight := 0.9) && |ops[2].answer| == 1
    ensures ops[2].answer[0].weight == 0.5
  {
    var row := Row(1, "p", "go", "debug", 0.5, 0.0, None, 0, 0);
    var filled := State(map[1 := row], map[]);
    var cached := State(map[1 := row], map[CacheKey(q) := [row]]);
    states := [State(map[], map[]), filled, cached, cached];
    ops := [Write(row), Search(q, [row]), Search(q.(minWeight := 0.9), [row])];
    assert FreshAnswer(filled.table, q, [row]);
    assert Next(states[0], ops[0], states[1]) && Next(states[1], ops[1], states[2]);
    assert CacheKey(q.(minWeight := 0.9)) == CacheKey(q);
    assert Next(states[2], ops[2], states[3]);
  }
}
