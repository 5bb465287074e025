/**
 The SQLite store's episodic table behind its hot cache. The cache may drop any entry at any
 time (eviction, expiry) and is not refreshed by writes, so a cached row can be stale; what
 must never happen is that it outlives the deletion of its project.
 */
module HotCache {
  import opened Wrappers
  import SortSlice
  import Text

  const DEFAULT_LIMIT := 10
  const EMBEDDING_RANK_POOL := 5000

  datatype Row = Row(
    id: int, projectID: string, language: string, taskType: string, weight: real, effFreq: real,
    obsoletedAt: Option<int>, lastAccessedAt: int, occurredAt: int)

  /** A search request; `embedded` says whether a query vector is set. */
  datatype Request = Request(
    projectID: string, language: string, taskType: string, minWeight: real, includeObsolete: bool,
    limit: int, embedded: bool, surpriseBoost: real,
    occurredAfter: Option<int>, occurredBefore: Option<int>, sortByOccurredAt: bool)

  predicate Matches(req: Request, r: Row) {
    && (req.projectID != "" ==> r.projectID == req.projectID)
    && (req.language != "" ==> r.language == req.language)
    && (req.taskType != "" ==> r.taskType == req.taskType)
    && (req.minWeight > 0.0 ==> r.weight >= req.minWeight)
    && (!req.includeObsolete ==> r.obsoletedAt.None?)
    && (req.occurredAfter.Some? ==> r.occurredAt >= req.occurredAfter.value)
    && (req.occurredBefore.Some? ==> r.occurredAt <= req.occurredBefore.value)
  }

  /** Only plain requests use the cache: no query vector and no time constraint. */
  predicate Cacheable(req: Request) {
    !req.embedded && req.occurredAfter.None? && req.occurredBefore.None? && !req.sortByOccurredAt
  }

  function CacheKey(req: Request): string {
    "ep:" + req.projectID + ":" + req.language + ":" + req.taskType + ":"
    + (if req.includeObsolete then "true" else "false") + ":"
    + Text.IntText(req.limit)
  }

  function EffectiveLimit(limit: int): (r: nat)
    ensures r > 0 && (limit > 0 ==> r == limit)
  {
    if limit <= 0 then DEFAULT_LIMIT else limit
  }

  // ---------------------------------------------------------------- the transition system

  datatype State = State(table: map<int, Row>, cache: map<string, seq<Row>>)

  datatype Op =
    | Write(row: Row)
    | Obsolete(id: int, at: int)
    | Reweigh(id: int, weight: real, effFreq: real)
    | Touch(id: int, at: int)
    | Search(req: Request, answer: seq<Row>)
    | Delete(projectID: string)

  ghost predicate Submap(small: map<string, seq<Row>>, big: map<string, seq<Row>>) {
    forall k :: k in small ==> k in big && small[k] == big[k]
  }

  predicate GoRanking(req: Request) {
    req.embedded || req.surpriseBoost > 0.0
  }

  /** The ORDER BY column: event time when asked for, else weight. */
  function SqlOrder(req: Request): Row -> real {
    (r: Row) => if req.sortByOccurredAt then r.occurredAt as real else r.weight
  }

  /** Best rows first; a match is left out only when the limit is reached by rows no worse. */
  ghost predicate Best(table: map<int, Row>, req: Request, answer: seq<Row>) {
    && SortSlice.Descending(answer, SqlOrder(req))
    && forall id :: id in table && Matches(req, table[id]) && table[id] !in answer ==>
         |answer| == EffectiveLimit(req.limit)
         && forall i :: 0 <= i < |answer| ==> SqlOrder(req)(answer[i]) >= SqlOrder(req)(table[id])
  }

  /** Rows of the table that match, none twice, no more than asked for; the best ones, if SQL ranks. */
  ghost predicate FreshAnswer(table: map<int, Row>, req: Request, answer: seq<Row>) {
    && (forall i :: 0 <= i < |answer| ==>
          answer[i].id in table && table[answer[i].id] == answer[i] && Matches(req, answer[i]))
    && (forall i, j :: 0 <= i < j < |answer| ==> answer[i].id != answer[j].id)
    && |answer| <= EffectiveLimit(req.limit)
    && (!GoRanking(req) ==> Best(table, req, answer))
  }

  function Without(table: map<int, Row>, projectID: string): map<int, Row> {
    map id | id in table && table[id].projectID != projectID :: table[id]
  }

  function Update(table: map<int, Row>, id: int, f: Row -> Row): map<int, Row> {
    if id in table then table[id := f(table[id])] else table
  }

  /** One operation; the cache may lose entries during a search. */
  ghost predicate Next(s: State, op: Op, s': State) {
    match op
    case Write(row) => s' == s.(table := s.table[row.id := row])
    case Obsolete(id, at) => s' == s.(table := Update(s.table, id, (r: Row) => r.(obsoletedAt := Some(at))))
    case Reweigh(id, w, f) => s' == s.(table := Update(s.table, id, (r: Row) => r.(weight := w, effFreq := f)))
    case Touch(id, at) => s' == s.(table := Update(s.table, id, (r: Row) => r.(lastAccessedAt := at)))
    case Delete(p) => s' == State(Without(s.table, p), map[])
    case Search(req, answer) =>
      && s'.table == s.table
      && if Cacheable(req) then
           || (CacheKey(req) in s.cache && answer == s.cache[CacheKey(req)] && Submap(s'.cache, s.cache))
           || (FreshAnswer(s.table, req, answer) && Submap(s'.cache, s.cache[CacheKey(req) := answer]))
         else FreshAnswer(s.table, req, answer) && s'.cache == s.cache
  }

  /** A run from a freshly opened store: any table, an empty cache. */
  ghost predicate Run(states: seq<State>, ops: seq<Op>) {
    && |states| == |ops| + 1
    && states[0].cache == map[]
    && (forall id :: id in states[0].table ==> states[0].table[id].id == id)
    && forall i :: 0 <= i < |ops| ==> Next(states[i], ops[i], states[i + 1])
  }

  /** Every cached row has an id that is still in the table; rows sit under their own id. */
  ghost predicate Sound(s: State) {
    && (forall k, i :: k in s.cache && 0 <= i < |s.cache[k]| ==> s.cache[k][i].id in s.table)
    && (forall id :: id in s.table ==> s.table[id].id == id)
  }

  lemma StepKeepsSound(s: State, op: Op, s': State)
    requires Sound(s) && Next(s, op, s')
    ensures Sound(s')
    ensures op.Search? ==> forall i :: 0 <= i < |op.answer| ==> op.answer[i].id in s.table
  {
  }

  /** Every run: cached rows, and the rows of every answer, have ids still in the table. */
  lemma {:induction false} RunIsSound(states: seq<State>, ops: seq<Op>, n: nat)
    requires Run(states, ops) && n <= |ops|
    ensures Sound(states[n])
    ensures forall j, i :: 0 <= j < n && ops[j].Search? && 0 <= i < |ops[j].answer| ==>
              ops[j].answer[i].id in states[j].table
  {
    if n > 0 {
      RunIsSound(states, ops, n - 1);
      StepKeepsSound(states[n - 1], ops[n - 1], states[n]);
    }
  }

  /** Project `p` has no row, neither in the table nor in a cached answer. */
  ghost predicate Gone(s: State, p: string) {
    && (forall id :: id in s.table ==> s.table[id].projectID != p)
    && (forall k, i :: k in s.cache && 0 <= i < |s.cache[k]| ==> s.cache[k][i].projectID != p)
  }

  ghost predicate Writes(op: Op, p: string) {
    op.Write? && op.row.projectID == p
  }

  lemma DeleteMakesGone(s: State, p: string, s': State)
    requires Next(s, Delete(p), s')
    ensures Gone(s', p)
  {
  }

  lemma StepKeepsGone(s: State, op: Op, s': State, p: string)
    requires Gone(s, p) && Next(s, op, s') && !Writes(op, p)
    ensures Gone(s', p)
    ensures op.Search? ==> forall i :: 0 <= i < |op.answer| ==> op.answer[i].projectID != p
  {
  }

  lemma {:induction false} StaysGone(states: seq<State>, ops: seq<Op>, p: string, d: nat, j: nat)
    requires Run(states, ops) && d < j <= |ops| && ops[d] == Delete(p)
    requires forall i :: d < i < j ==> !Writes(ops[i], p)
    ensures Gone(states[j], p)
  {
    if j == d + 1 {
      DeleteMakesGone(states[d], p, states[j]);
    } else {
      StaysGone(states, ops, p, d, j - 1);
      StepKeepsGone(states[j - 1], ops[j - 1], states[j], p);
    }
  }

  /**
   After a project is deleted, no search returns one of its rows until the project is written
   again, whatever else is written, retired, searched or deleted in between.
   */
  lemma NoAnswerAfterDelete(states: seq<State>, ops: seq<Op>, p: string, d: nat, j: nat, i: nat)
    requires Run(states, ops) && d < j < |ops| && ops[d] == Delete(p)
    requires forall k :: d < k < j ==> !Writes(ops[k], p)
    requires ops[j].Search? && i < |ops[j].answer|
    ensures ops[j].answer[i].projectID != p
  {
    StaysGone(states, ops, p, d, j);
    StepKeepsGone(states[j], ops[j], states[j + 1], p);
  }

  // ---------------------------------------------------------------- the cache object

  datatype Entry = Entry(value: seq<Row>, expires: int)

  class Cache {
    var entries: map<string, Entry>
    const ttl: int

    constructor (ttl: int)
      ensures entries == map[] && this.ttl == ttl
    {
      entries := map[];
      this.ttl := ttl;
    }

    ghost function Values(): map<string, seq<Row>>
      reads this
    {
      map k | k in entries :: entries[k].value
    }

    /** An expired entry is removed and is a miss. */
    method Get(key: string, now: int) returns (r: Option<seq<Row>>)
      modifies this
      ensures r.Some? <==> key in old(entries) && !(ttl > 0 && now > old(entries)[key].expires)
      ensures r.Some? ==> r.value == old(entries)[key].value && entries == old(entries)
      ensures r.None? ==> entries == old(entries) - {key}
    {
      if key !in entries {
        assert entries - {key} == entries;
        return None;
      }
      if ttl > 0 && now > entries[key].expires {
        entries := entries - {key};
        return None;
      }
      return Some(entries[key].value);
    }

    /** Adds or replaces `key`; the eviction policy then drops any set of other entries. */
    method Set(key: string, value: seq<Row>, now: int, evicted: set<string>)
      modifies this
      ensures entries == old(entries)[key := Entry(value, if ttl > 0 then now + ttl else 0)] - (evicted - {key})
    {
      entries := entries[key := Entry(value, if ttl > 0 then now + ttl else 0)] - (evicted - {key});
    }

    method Clear()
      modifies this
      ensures entries == map[]
    {
      entries := map[];
    }
  }

  /** What the surroundings decide: ranking, time and the eviction policy. */
  datatype Outside = Outside(score: (Request, Row) -> real, keep: (Request, Row) -> bool, now: int,
                             evicted: set<string>)

  // ---------------------------------------------------------------- the store object

  class Store {
    var table: map<int, Row>
    const hotCache: Cache

    constructor (ttl: int)
      ensures table == map[] && fresh(hotCache) && hotCache.entries == map[]
    {
      table := map[];
      hotCache := new Cache(ttl);
    }

    ghost function View(): State
      reads this, hotCache
    {
      State(table, hotCache.Values())
    }

    method WriteEpisodic(row: Row)
      modifies this
      ensures Next(old(View()), Write(row), View())
    {
      table := table[row.id := row];
    }

    method MarkObsolete(id: int, at: int)
      modifies this
      ensures Next(old(View()), Obsolete(id, at), View())
    {
      if id in table {
        table := table[id := table[id].(obsoletedAt := Some(at))];
      }
    }

    method UpdateEpisodicWeight(id: int, weight: real, effFreq: real)
      modifies this
      ensures Next(old(View()), Reweigh(id, weight, effFreq), View())
    {
      if id in table {
        table := table[id := table[id].(weight := weight, effFreq := effFreq)];
      }
    }

    method TouchEpisodic(id: int, at: int)
      modifies this
      ensures Next(old(View()), Touch(id, at), View())
    {
      if id in table {
        table := table[id := table[id].(lastAccessedAt := at)];
      }
    }

    method DeleteEpisodicByProject(projectID: string) returns (n: nat)
      modifies this, hotCache
      ensures Next(old(View()), Delete(projectID), View())
      ensures n == |set id | id in old(table) && old(table)[id].projectID == projectID|
    {
      var doomed := set id | id in table && table[id].projectID == projectID;
      n := |doomed|;
      table := table - doomed;
      assert table == Without(old(table), projectID);
      hotCache.Clear();
    }

    /** The query: matching rows in SQL order, re-ranked in process when asked for. */
    method Query(req: Request, outside: Outside) returns (results: seq<Row>)
      requires forall id :: id in table ==> table[id].id == id
      ensures FreshAnswer(table, req, results)
    {
      var limit := EffectiveLimit(req.limit);
      var rows := MatchingRows(table, req);
      var pool := if GoRanking(req) then EMBEDDING_RANK_POOL else limit;
      var candidates := SortAndCut(table, req, rows, SqlOrder(req), pool);
      if !GoRanking(req) {
        return candidates;
      }
      KeptStaysSelected(table, req, outside, candidates);
      results := SortAndCut(table, req, Kept(req, outside, candidates), (r: Row) => outside.score(req, r), limit);
      if req.sortByOccurredAt {
        results := SortAndCut(table, req, results, (r: Row) => r.occurredAt as real, limit);
      }
    }

    method SearchEpisodic(req: Request, outside: Outside) returns (results: seq<Row>)
      requires forall id :: id in table ==> table[id].id == id
      modifies hotCache
      ensures table == old(table)
      ensures Next(old(View()), Search(req, results), View())
    {
      var cacheable := Cacheable(req);
      if cacheable {
        var cached := hotCache.Get(CacheKey(req), outside.now);
        if cached.Some? {
          return cached.value;
        }
      }
      results := Query(req, outside);
      if cacheable {
        hotCache.Set(CacheKey(req), results, outside.now, outside.evicted);
      }
    }
  }

  /** Matching table rows, none twice. */
  ghost predicate Selected(table: map<int, Row>, req: Request, rows: seq<Row>) {
    && (forall i :: 0 <= i < |rows| ==> rows[i].id in table && table[rows[i].id] == rows[i] && Matches(req, rows[i]))
    && (forall i, j :: 0 <= i < j < |rows| ==> rows[i].id != rows[j].id)
  }

  /** The first `limit` rows in descending key order. */
  method SortAndCut(table: map<int, Row>, req: Request, rows: seq<Row>, key: Row -> real, limit: nat)
    returns (r: seq<Row>)
    requires Selected(table, req, rows)
    ensures Selected(table, req, r)
    ensures SortSlice.Descending(r, key)
    ensures |r| == if limit < |rows| then limit else |rows|
    ensures forall x :: x in rows && x !in r ==> |r| == limit && forall i :: 0 <= i < |r| ==> key(r[i]) >= key(x)
  {
    var sorted := SortSlice.Sort(rows, key);
    PermutationStaysSelected(table, req, rows, sorted);
    assert |sorted| == |multiset(sorted)| == |multiset(rows)| == |rows|;
    r := sorted[..if limit < |sorted| then limit else |sorted|];
    forall x | x in rows && x !in r
      ensures |r| == limit && forall i :: 0 <= i < |r| ==> key(r[i]) >= key(x)
    {
      assert x in multiset(sorted);
      var j :| 0 <= j < |sorted| && sorted[j] == x;
      assert j >= |r| by { assert forall k :: 0 <= k < |r| ==> r[k] == sorted[k]; }
    }
  }

  /** The rows the WHERE clause selects, in any order. */
  method MatchingRows(table: map<int, Row>, req: Request) returns (rows: seq<Row>)
    requires forall id :: id in table ==> table[id].id == id
    ensures Selected(table, req, rows)
    ensures forall id :: id in table && Matches(req, table[id]) ==> table[id] in rows
  {
    rows := [];
    var keys := table.Keys;
    while keys != {}
      invariant keys <= table.Keys
      invariant Selected(table, req, rows) && forall i :: 0 <= i < |rows| ==> rows[i].id !in keys
      invariant forall id :: id in table && id !in keys && Matches(req, table[id]) ==> table[id] in rows
      decreases keys
    {
      var id := AnyOf(keys);
      keys := keys - {id};
      if Matches(req, table[id]) {
        rows := rows + [table[id]];
      }
    }
  }

  function Kept(req: Request, outside: Outside, rows: seq<Row>): seq<Row> {
    if rows == [] then [] else
    Kept(req, outside, rows[..|rows| - 1]) + if outside.keep(req, rows[|rows| - 1]) then [rows[|rows| - 1]] else []
  }

  lemma {:induction false} KeptStaysSelected(table: map<int, Row>, req: Request, outside: Outside, rows: seq<Row>)
    requires Selected(table, req, rows)
    ensures Selected(table, req, Kept(req, outside, rows))
    ensures forall r :: r in Kept(req, outside, rows) ==> r in rows
  {
    if rows != [] {
      var n := |rows| - 1;
      KeptStaysSelected(table, req, outside, rows[..n]);
      var kept := Kept(req, outside, rows[..n]);
      forall i | 0 <= i < |kept| ensures kept[i].id != rows[n].id {
        assert kept[i] in rows[..n];
      }
    }
  }

  lemma PermutationStaysSelected(table: map<int, Row>, req: Request, rows: seq<Row>, perm: seq<Row>)
    requires Selected(table, req, rows) && multiset(perm) == multiset(rows)
    ensures Selected(table, req, perm)
  {
    SortSlice.PermutedDistinct(rows, perm);
    forall i | 0 <= i < |perm| ensures perm[i] in rows {
      assert perm[i] in perm;
    }
  }
}
