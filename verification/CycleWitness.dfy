/**
 A run of three writes and one signal, given on a retired memory, that closes a cycle: the memory
 appended to is older than the one it retires.
 */
module CycleWitness {
  import opened Wrappers
  import opened MemoryStore
  import opened UpdateTracker
  import opened WritePipeline
  import opened SupersededGraph
  import opened WriteRuns
  import opened Vectors
  import opened SampleTexts

  // ---------------------------------------------------------------- the run

  /** A user-confirmed event. */
  function Told(text: string, at: int): Event {
    Event(text, true, false, false, 0, at)
  }

  const HERE := Place("p", "en", "", "feature")

  const NEAR: Vector := [1.0, 0.0]
  const FAR: Vector := [0.0, 1.0]

  /** The embedder takes "ab" and "abc" to one vector and "bcd" to an orthogonal one. */
  ghost predicate Setup(cfg: Config) {
    && cfg.gate.Some? && cfg.separation == Some(0.85) && cfg.decay.Some? && cfg.skipLink && cfg.tracker.None? &&
      cfg.surprise.None?
    && cfg.embed("bcd") == Some(FAR) && cfg.embed("ab") == Some(NEAR) && cfg.embed("abc") == Some(NEAR)
    && cfg.cosine(NEAR, NEAR) == 1.0 && cfg.cosine(NEAR, FAR) == 0.0
    && cfg.decay.value(20).1 >= 0.0
  }

  lemma UnitVectors(cosine: Cosine)
    requires OnUnitVectors(cosine)
    ensures cosine(NEAR, NEAR) == 1.0 && cosine(NEAR, FAR) == 0.0
  {
    DotOfTwo(1.0, 0.0, 1.0, 0.0);
    DotOfTwo(0.0, 1.0, 0.0, 1.0);
    DotOfTwo(1.0, 0.0, 0.0, 1.0);
  }

  /** A pipeline whose embedder tells "bcd" from the other texts. */
  function Plain(cosine: Cosine, decay: int -> (real, real)): Config {
    Config(Some(Gate(2, 2, (a, b) => false)), Some(0.85), Some(decay),
           t => Some(if t == "bcd" then FAR else NEAR), None, true, None,
           SampleLanguage(), cosine, (a, b) => None)
  }

  /** What is stored at time 20 of a fresh event. */
  function Fresh(cfg: Config, id: int, text: string, vector: seq<real>, at: int): Memory
    requires cfg.decay.Some?
  {
    Memory(id, "p", "en", "feature", text, 3, cfg.decay.value(20).1, cfg.decay.value(20).0, 20, None, None, "", vector,
      false, 0.0, at)
  }

  lemma FirstWrite(cfg: Config, s: State)
    requires Setup(cfg) && s == State(EMPTY_VIEW, None, map[])
    ensures var op := WriteOp(Told("bcd", 5), HERE, Choice(20, 1, [], [], []));
      Legal(cfg, s, op) && After(cfg, s, op) == State(View(map[1 := Fresh(cfg, 1, "bcd", FAR, 5)], []), None, map[])
  {
  }

  lemma SecondWrite(cfg: Config, s: State, first: Memory)
    requires Setup(cfg) && first == Fresh(cfg, 1, "bcd", FAR, 5) && s == State(View(map[1 := first], []), None, map[])
    ensures var op := WriteOp(Told("ab", 3), HERE, Choice(20, 2, [first], [], []));
      Legal(cfg, s, op) && After(cfg, s, op)
        == State(View(map[1 := first, 2 := Fresh(cfg, 2, "ab", NEAR, 3)], []), None, map[])
  {
    var c := Choice(20, 2, [first], [], []);
    var newer := Newcomer(Told("ab", 3), HERE, 20);
    assert !Covers(cfg.language, DEFAULT_TRACKER, newer, first);
    assert Detected(cfg.language, DEFAULT_TRACKER, newer, [first]) == [];
    assert ValidAnswer(cfg.cosine, s.view.mems, CandidateQuery("p", NEAR), [first]);
    assert !MergeCandidate(cfg, NEAR, HERE, [], first);
    assert MergeTarget(cfg, NEAR, HERE, [], [first][1..]) == None;
  }

  /** The older memory after the event of time 10 was appended to it. */
  function Appended(cfg: Config): Memory
    requires cfg.decay.Some?
  {
    Fresh(cfg, 2, "ab\nabc", NEAR, 3).(weight := 1.0, lastAccessed := Some(20))
  }

  lemma ThirdIsJudged(cfg: Config, l: Language, first: Memory, second: Memory)
    requires cfg.decay.Some? && Compares(l) && first == Fresh(cfg, 1, "bcd", FAR, 5) &&
        second == Fresh(cfg, 2, "ab", NEAR, 3)
    ensures Detected(l, DEFAULT_TRACKER, Newcomer(Told("abc", 10), HERE, 20), [second, first])
      == [PairOf(l, Newcomer(Told("abc", 10), HERE, 20), first)]
  {
    var newer := Newcomer(Told("abc", 10), HERE, 20);
    assert !Covers(l, DEFAULT_TRACKER, newer, second);
    assert Covers(l, DEFAULT_TRACKER, newer, first);
    assert [second, first][..1] == [second] && [second][..0] == [];
    assert Detected(l, DEFAULT_TRACKER, newer, [second]) == [];
  }

  lemma SignalIsJudged(cfg: Config, l: Language, first: Memory)
    requires cfg.decay.Some? && Compares(l) && first == Fresh(cfg, 1, "bcd", FAR, 5).(obsoletedAt := Some(20))
    ensures Detected(l, DEFAULT_TRACKER, StatementOf(first), [Appended(cfg)])
        == [PairOf(l, StatementOf(first), Appended(cfg))]
  {
    assert Covers(l, DEFAULT_TRACKER, StatementOf(first), Appended(cfg));
    assert Detected(l, DEFAULT_TRACKER, StatementOf(first), [Appended(cfg)][..0]) == [];
  }

  lemma ThirdIsCarried(cfg: Config, v: View, first: Memory, second: Memory)
    requires Setup(cfg) && first == Fresh(cfg, 1, "bcd", FAR, 5) && second == Fresh(cfg, 2, "ab", NEAR, 3)
    requires v == View(map[1 := first, 2 := second], [])
    ensures Merged(cfg, Told("abc", 10), Prepared(UserConfirmed, 0.0), NEAR, 20, second) == Appended(cfg)
    ensures Carried(cfg, v, Appended(cfg), [1], 20)
      == View(map[1 := first.(obsoletedAt := Some(20)), 2 := Appended(cfg)], [Edge(2, 1, Superseded)])
  {
    assert SupersededEdges(2, [1]) == [Edge(2, 1, Superseded)];
    assert Retired(Put(v, Appended(cfg)), 2, [1], 20).edges == [Edge(2, 1, Superseded)];
    assert BoostedWeight(Appended(cfg).weight, 1.5) == 1.0;
    assert Carried(cfg, v, Appended(cfg), [1], 20).mems
      == map[1 := first.(obsoletedAt := Some(20)), 2 := Appended(cfg)];
  }

  lemma ThirdIsLegal(cfg: Config, v: View, first: Memory, second: Memory, c: Choice)
    requires Setup(cfg) && Compares(cfg.language)
    requires first == Fresh(cfg, 1, "bcd", FAR, 5) && second == Fresh(cfg, 2, "ab", NEAR, 3)
    requires v == View(map[1 := first, 2 := second], []) && c == Choice(20, 3, [second, first], [], [])
    ensures ValidAnswer(cfg.cosine, v.mems, CandidateQuery("p", NEAR), c.found)
    ensures OldIDs(Judged(cfg, Told("abc", 10), HERE, c)) == [1]
    ensures MergeTarget(cfg, NEAR, HERE, [1], c.found) == Some(second)
  {
    ThirdIsJudged(cfg, cfg.language, first, second);
  }

  lemma ThirdWrite(cfg: Config, s: State, first: Memory, second: Memory)
    requires Setup(cfg) && Compares(cfg.language)
    requires first == Fresh(cfg, 1, "bcd", FAR, 5) && second == Fresh(cfg, 2, "ab", NEAR, 3)
    requires s == State(View(map[1 := first, 2 := second], []), None, map[])
    ensures var op := WriteOp(Told("abc", 10), HERE, Choice(20, 3, [second, first], [], []));
      Legal(cfg, s, op) && After(cfg, s, op)
        == State(View(map[1 := first.(obsoletedAt := Some(20)), 2 := Appended(cfg)], [Edge(2, 1, Superseded)]), None,
          map[])
  {
    var c := Choice(20, 3, [second, first], [], []);
    ThirdIsLegal(cfg, s.view, first, second, c);
    ThirdIsCarried(cfg, s.view, first, second);
  }

  lemma LastSignal(cfg: Config, s: State, first: Memory)
    requires Setup(cfg) && Compares(cfg.language) && first == Fresh(cfg, 1, "bcd", FAR, 5).(obsoletedAt := Some(20))
    requires s == State(View(map[1 := first, 2 := Appended(cfg)], [Edge(2, 1, Superseded)]), None, map[])
    ensures var op := SignalOp(1, 1.5, [Appended(cfg)], 30);
      Legal(cfg, s, op) &&
      var v := After(cfg, s, op).view;
      Link(v, 2, 1) && Link(v, 1, 2) && v.mems.Keys == {1, 2} && !v.mems[1].Active() && !v.mems[2].Active()
  {
    SignalIsJudged(cfg, cfg.language, first);
    assert OldIDs(Found(cfg.language, s.view, 1, [Appended(cfg)])) == [2];
    assert ValidAnswer(cfg.cosine, s.view.mems, PeerQuery("p"), [Appended(cfg)]);
    assert SupersededEdges(1, [2]) == [Edge(1, 2, Superseded)];
  }

  lemma StepRun(cfg: Config, s: State, ops: seq<Op>, op: Op, t: State)
    requires LegalRun(cfg, s, ops) && Legal(cfg, Run(cfg, s, ops), op) && After(cfg, Run(cfg, s, ops), op) == t
    ensures LegalRun(cfg, s, ops + [op]) && Run(cfg, s, ops + [op]) == t
  {
    assert (ops + [op])[..|ops|] == ops;
  }

  lemma TwoWrites(cfg: Config, s: State, first: Memory, second: Memory) returns (ops: seq<Op>)
    requires Setup(cfg) && s == State(EMPTY_VIEW, None, map[])
    requires first == Fresh(cfg, 1, "bcd", FAR, 5) && second == Fresh(cfg, 2, "ab", NEAR, 3)
    ensures LegalRun(cfg, s, ops) && Run(cfg, s, ops) == State(View(map[1 := first, 2 := second], []), None, map[])
  {
    FirstWrite(cfg, s);
    StepRun(cfg, s, [], WriteOp(Told("bcd", 5), HERE, Choice(20, 1, [], [], [])),
      State(View(map[1 := first], []), None, map[]));
    ops := [] + [WriteOp(Told("bcd", 5), HERE, Choice(20, 1, [], [], []))];
    var t := State(View(map[1 := first], []), None, map[]);
    SecondWrite(cfg, t, first);
    StepRun(cfg, s, ops, WriteOp(Told("ab", 3), HERE, Choice(20, 2, [first], [], [])),
      State(View(map[1 := first, 2 := second], []), None, map[]));
    ops := ops + [WriteOp(Told("ab", 3), HERE, Choice(20, 2, [first], [], []))];
  }

  lemma ThreeWrites(cfg: Config, s: State) returns (ops: seq<Op>)
    requires Setup(cfg) && Compares(cfg.language) && s == State(EMPTY_VIEW, None, map[])
    ensures LegalRun(cfg, s, ops)
    ensures Run(cfg, s, ops)
      == State(View(map[1 := Fresh(cfg, 1, "bcd", FAR, 5).(obsoletedAt := Some(20)), 2 := Appended(cfg)],
        [Edge(2, 1, Superseded)]), None, map[])
  {
    var first, second := Fresh(cfg, 1, "bcd", FAR, 5), Fresh(cfg, 2, "ab", NEAR, 3);
    ops := TwoWrites(cfg, s, first, second);
    ThirdWrite(cfg, Run(cfg, s, ops), first, second);
    var op := WriteOp(Told("abc", 10), HERE, Choice(20, 3, [second, first], [], []));
    StepRun(cfg, s, ops, op, After(cfg, Run(cfg, s, ops), op));
    ops := ops + [op];
  }

  lemma ChainOfTwoLinks(v: View)
    requires Link(v, 1, 2) && Link(v, 2, 1)
    ensures !Acyclic(v)
  {
    assert Chain(v, [1, 2, 1]);
  }

  lemma FourSteps(cfg: Config, s: State) returns (ops: seq<Op>)
    requires Setup(cfg) && Compares(cfg.language) && s == State(EMPTY_VIEW, None, map[])
    ensures LegalRun(cfg, s, ops) && !Acyclic(Run(cfg, s, ops).view)
    ensures forall id :: id in Run(cfg, s, ops).view.mems ==> !Run(cfg, s, ops).view.mems[id].Active()
  {
    ops := ThreeWrites(cfg, s);
    var t, op := Run(cfg, s, ops), SignalOp(1, 1.5, [Appended(cfg)], 30);
    LastSignal(cfg, t, Fresh(cfg, 1, "bcd", FAR, 5).(obsoletedAt := Some(20)));
    StepRun(cfg, s, ops, op, After(cfg, t, op));
    ChainOfTwoLinks(After(cfg, t, op).view);
    ops := ops + [op];
  }

  /**
   Signals on retired memories are not safe: after three ordinary writes the older memory has
   retired the newer one, and a signal on the latter closes the cycle and leaves no active memory.
   The text comparisons are those in use; the cosine is any that is right on unit vectors.
   */
  lemma SignalOnRetiredClosesCycle(cosine: Cosine, decay: int -> (real, real))
    returns (cfg: Config, s: State, ops: seq<Op>)
    requires OnUnitVectors(cosine) && decay(20).1 >= 0.0
    ensures s == State(EMPTY_VIEW, None, map[]) && cfg == Plain(cosine, decay)
    ensures LegalRun(cfg, s, ops) && !Acyclic(Run(cfg, s, ops).view)
    ensures forall id :: id in Run(cfg, s, ops).view.mems ==> !Run(cfg, s, ops).view.mems[id].Active()
  {
    cfg := Plain(cosine, decay);
    s := State(EMPTY_VIEW, None, map[]);
    UnitVectors(cosine);
    TextsCompare();
    ops := FourSteps(cfg, s);
  }
}
