/**
 Batch ingest: embed all messages of a request at once, then write them in order. It leaves the
 same store, working memory and counts as writing them one at a time.
 */
module BenchIngest {
  import opened Wrappers
  import opened SortSlice
  import opened MemoryStore
  import opened WritePipeline
  import opened WriteRuns
  import Text
  import BatchPool
  import BatchPoolRuns

  datatype Message = Message(content: string, chatTime: string)

  datatype BatchAnswer = NotSupported | BatchFailed | Vectors(vectors: seq<seq<real>>)

  /** The server's options and the calls it makes: time parsing, event derivation, batch embedding. */
  datatype Server = Server(
    maxMessages: nat, language: string, taskType: string, gateOff: bool, derive: string -> Event,
    parseTime: string -> Option<int>, formatDate: int -> string, batch: seq<string> -> BatchAnswer)
  {
    function EventFor(content: string, chatTime: string): Event {
      var at := parseTime(chatTime);
      var text := if at.Some? then "[" + formatDate(at.value) + "] " + content else content;
      var event := if gateOff then Event(text, true, false, false, 0, 0) else derive(text);
      if at.Some? then event.(occurredAt := at.value) else event
    }

    function PlaceFor(user: string): Place {
      Place(user, language, "", taskType)
    }
  }

  /** What a message asks to be written: nothing when it is blank. */
  type Intake = Message -> Option<Event>

  function TakeFrom(srv: Server): Intake {
    (m: Message) =>
      var content := Text.TrimSpace(m.content);
      if content == "" then None else Some(srv.EventFor(content, m.chatTime))
  }

  /**
   What a message asks for: nothing if and only if it is white space throughout; else its trimmed
   text, with its date in front and as event time when it has one that can be read, taken as
   confirmed when the gate is off.
   */
  lemma IntakeMeans(srv: Server, user: string, m: Message)
    ensures TakeFrom(srv)(m) == None <==> Text.AllSpace(m.content)
    ensures TakeFrom(srv)(m) != None ==>
      var event, content, at := TakeFrom(srv)(m).value, Text.TrimSpace(m.content), srv.parseTime(m.chatTime);
      var text := if at == None then content else "[" + srv.formatDate(at.value) + "] " + content;
      if srv.gateOff then event == Event(text, true, false, false, 0, if at == None then 0 else at.value)
      else event == srv.derive(text).(occurredAt := if at == None then srv.derive(text).occurredAt else at.value)
    ensures srv.PlaceFor(user) == Place(user, srv.language, "", srv.taskType)
  {
    var before, after := Text.TrimMeans(m.content);
  }

  /** Positions of the messages that are written, in request order. */
  function Kept(take: Intake, messages: seq<Message>): (kept: seq<nat>)
    ensures |kept| <= |messages|
  {
    if messages == [] then [] else
    var n := |messages| - 1;
    Kept(take, messages[..n]) + if take(messages[n]).Some? then [n] else []
  }

  function Events(take: Intake, messages: seq<Message>): (events: seq<Event>)
    ensures |events| == |Kept(take, messages)|
  {
    if messages == [] then [] else
    var n := |messages| - 1;
    Events(take, messages[..n]) + if take(messages[n]).Some? then [take(messages[n]).value] else []
  }

  /** The k-th event is that of the k-th message with content. */
  lemma {:induction false} KeptMessageHasItsEvent(take: Intake, messages: seq<Message>, k: nat)
    requires k < |Kept(take, messages)|
    ensures var i := Kept(take, messages)[k]; i < |messages| && take(messages[i]) == Some(Events(take, messages)[k])
    ensures k > 0 ==> Kept(take, messages)[k - 1] < Kept(take, messages)[k]
  {
    var n := |messages| - 1;
    if k < |Kept(take, messages[..n])| {
      KeptMessageHasItsEvent(take, messages[..n], k);
    } else if k > 0 {
      KeptMessageHasItsEvent(take, messages[..n], k - 1);
    }
  }

  /** Exactly the messages with content are kept. */
  lemma {:induction false} ContentIsKept(take: Intake, messages: seq<Message>, i: nat)
    requires i < |messages|
    ensures i in Kept(take, messages) <==> take(messages[i]).Some?
  {
    var n := |messages| - 1;
    if i < n {
      ContentIsKept(take, messages[..n], i);
    } else if n in Kept(take, messages[..n]) {
      var k :| 0 <= k < |Kept(take, messages[..n])| && Kept(take, messages[..n])[k] == n;
      KeptMessageHasItsEvent(take, messages[..n], k);
    }
  }

  /** Positions of blank messages, counted on the request itself. */
  function Blanks(take: Intake, messages: seq<Message>): set<nat> {
    set i: nat | i < |messages| && take(messages[i]).None?
  }

  lemma {:induction false} KeptAscends(take: Intake, messages: seq<Message>, j: nat, k: nat)
    requires j < k < |Kept(take, messages)|
    ensures Kept(take, messages)[j] < Kept(take, messages)[k]
  {
    KeptMessageHasItsEvent(take, messages, k);
    if j < k - 1 { KeptAscends(take, messages, j, k - 1); }
  }

  /** A message is either blank or kept, once. */
  lemma {:induction false} KeptOrBlank(take: Intake, messages: seq<Message>)
    ensures |Kept(take, messages)| + |Blanks(take, messages)| == |messages|
  {
    if messages == [] {
      assert Blanks(take, messages) == {};
    } else {
      var n := |messages| - 1;
      KeptOrBlank(take, messages[..n]);
      assert Blanks(take, messages) == Blanks(take, messages[..n]) + if take(messages[n]).None? then {n} else {};
    }
  }

  // ---------------------------------------------------------------- one at a time

  /** What writing events one after another leaves: it stops at the first failure. */
  datatype Progress = Progress(state: State, results: seq<WriteResult>, failed: bool)
  {
    function Then(o: Outcome): Progress {
      if o.result.Success? then Progress(o.state, results + [o.result.value], false)
        else Progress(o.state, results, true)
    }
  }

  /** One `Write` per event, in order. */
  function OneByOne(cfg: Config, s: State, events: seq<Event>, place: Place, cs: seq<Choice>): Progress
    requires |cs| == |events|
  {
    if events == [] then Progress(s, [], false) else
    var n := |events| - 1;
    var before := OneByOne(cfg, s, events[..n], place, cs[..n]);
    if before.failed then before else before.Then(Write(cfg, before.state, events[n], place, cs[n]))
  }

  /** The same with all embeddings at hand. */
  function WithVectors(cfg: Config, s: State, events: seq<Event>, vectors: seq<seq<real>>, place: Place,
                       cs: seq<Choice>): Progress
    requires |cs| == |events| == |vectors|
  {
    if events == [] then Progress(s, [], false) else
    var n := |events| - 1;
    var before := WithVectors(cfg, s, events[..n], vectors[..n], place, cs[..n]);
    if before.failed then before else before.Then(WriteEmbedded(cfg, before.state, events[n], vectors[n], place, cs[n]))
  }

  /** The vectors are what the embedder gives for each summary alone, and none is empty. */
  ghost predicate Agrees(cfg: Config, texts: seq<string>, vectors: seq<seq<real>>) {
    |vectors| == |texts| && forall i :: 0 <= i < |texts| ==> cfg.embed(texts[i]) == Some(vectors[i]) && vectors[i] != []
  }

  function Summaries(events: seq<Event>): (texts: seq<string>)
    ensures |texts| == |events| && forall i :: 0 <= i < |events| ==> texts[i] == events[i].summary
  {
    seq(|events|, i requires 0 <= i < |events| => events[i].summary)
  }

  /** The refinement: for the same choices, batched writes are the sequential writes. */
  lemma {:induction false} BatchedIsSequential(cfg: Config, s: State, events: seq<Event>, vectors: seq<seq<real>>,
                                               place: Place, cs: seq<Choice>)
    requires |cs| == |events| && Agrees(cfg, Summaries(events), vectors)
    ensures WithVectors(cfg, s, events, vectors, place, cs) == OneByOne(cfg, s, events, place, cs)
  {
    if events != [] {
      var n := |events| - 1;
      var texts := Summaries(events);
      assert Summaries(events[..n]) == texts[..n];
      assert texts[n] == events[n].summary;
      BatchedIsSequential(cfg, s, events[..n], vectors[..n], place, cs[..n]);
      PrecomputedEmbeddingAgrees(cfg, OneByOne(cfg, s, events[..n], place, cs[..n]).state, events[n], vectors[n], place,
        cs[n]);
    }
  }

  /**
   The worker pool answers such vectors: in every interleaving that ends without a misbehaving call
   or a cancelled caller, slot i holds what the embedder gives for text i.
   */
  lemma PoolAnswersAgree(cfg: Config, job: BatchPool.Job, actions: seq<BatchPool.Action>, vectors: seq<seq<real>>)
    requires BatchPool.ValidJob(job) && BatchPool.Run(job, actions).Some?
    requires var end := BatchPool.Run(job, actions).value;
      BatchPoolRuns.AllExited(end) && !end.callerCancelled && !end.badCall
      && |vectors| == |end.out| && forall i :: 0 <= i < |vectors| ==> end.out[i] == Some(vectors[i])
    requires forall t :: cfg.embed(t) == Some(job.embed(t)) && job.embed(t) != []
    ensures Agrees(cfg, job.texts, vectors)
  {
    BatchPoolRuns.PoolAnswer(job, actions);
  }

  /** Every choice was open to the pipeline at the point it was made. */
  ghost predicate LegalIngest(cfg: Config, s: State, events: seq<Event>, place: Place, cs: seq<Choice>)
    requires |cs| == |events|
  {
    events == [] || (
      var n := |events| - 1;
      var before := OneByOne(cfg, s, events[..n], place, cs[..n]);
      && LegalIngest(cfg, s, events[..n], place, cs[..n])
      && (!before.failed ==> LegalWrite(cfg, before.state, events[n], cfg.embed(events[n].summary), place, cs[n])))
  }

  lemma IngestOneMore(cfg: Config, s: State, events: seq<Event>, event: Event, place: Place, cs: seq<Choice>, c: Choice)
    requires |cs| == |events| && LegalIngest(cfg, s, events, place, cs)
    ensures var before := OneByOne(cfg, s, events, place, cs);
      && OneByOne(cfg, s, events + [event], place, cs + [c])
         == (if before.failed then before else before.Then(Write(cfg, before.state, event, place, c)))
      && (LegalIngest(cfg, s, events + [event], place, cs + [c]) <==>
            before.failed || LegalWrite(cfg, before.state, event, cfg.embed(event.summary), place, c))
  {
    assert (events + [event])[..|events|] == events && (cs + [c])[..|cs|] == cs;
  }

  /** Nothing is written after a failure, whatever choices were still open. */
  lemma {:induction false} NothingAfterFailure(cfg: Config, s: State, events: seq<Event>, place: Place, cs: seq<Choice>,
                                               i: nat)
    requires |cs| == |events| && i <= |events|
    requires LegalIngest(cfg, s, events[..i], place, cs[..i]) && OneByOne(cfg, s, events[..i], place, cs[..i]).failed
    ensures LegalIngest(cfg, s, events, place, cs) &&
        OneByOne(cfg, s, events, place, cs) == OneByOne(cfg, s, events[..i], place, cs[..i])
  {
    if i == |events| {
      assert events[..i] == events && cs[..i] == cs;
    } else {
      var n := |events| - 1;
      var front, choices := events[..n], cs[..n];
      assert front[..i] == events[..i] && choices[..i] == cs[..i];
      NothingAfterFailure(cfg, s, front, place, choices, i);
      assert OneByOne(cfg, s, front, place, choices).failed;
    }
  }

  /** With the gate off every message with content is stored, provided its text can be embedded. */
  lemma {:induction false} GateOffStoresAll(cfg: Config, s: State, events: seq<Event>, place: Place, cs: seq<Choice>)
    requires |cs| == |events| && cfg.gate.Some? && cfg.separation.Some? && cfg.decay.Some?
    requires forall i :: 0 <= i < |events| ==> events[i].userConfirmed && cfg.embed(events[i].summary).Some?
    ensures var p := OneByOne(cfg, s, events, place, cs);
      !p.failed && |p.results| == |events| && forall i :: 0 <= i < |events| ==>
        p.results[i].persisted && p.results[i].reason == UserConfirmed
  {
    if events != [] { GateOffStoresAll(cfg, s, events[..|events| - 1], place, cs[..|events| - 1]); }
  }

  // ---------------------------------------------------------------- accounting

  function CountPersisted(results: seq<WriteResult>): nat {
    if results == [] then 0 else
    CountPersisted(results[..|results| - 1]) + if results[|results| - 1].persisted then 1 else 0
  }

  function CountGated(results: seq<WriteResult>, reason: Reason): nat {
    if results == [] then 0 else
    var r := results[|results| - 1];
    CountGated(results[..|results| - 1], reason) + if !r.persisted && r.reason == reason then 1 else 0
  }

  ghost function Positions(results: seq<WriteResult>, counts: WriteResult -> bool): set<nat> {
    set i: nat | i < |results| && counts(results[i])
  }

  /** The figures count positions: those persisted, and those not persisted for a reason. */
  lemma {:induction false} FiguresCount(results: seq<WriteResult>, reason: Reason)
    ensures CountPersisted(results) == |Positions(results, (r: WriteResult) => r.persisted)|
    ensures CountGated(results, reason)
        == |Positions(results, (r: WriteResult) => !r.persisted && r.reason == reason)|
  {
    if results != [] {
      var n := |results| - 1;
      FiguresCount(results[..n], reason);
      PositionsNext(results, (r: WriteResult) => r.persisted);
      PositionsNext(results, (r: WriteResult) => !r.persisted && r.reason == reason);
    }
  }

  lemma PositionsNext(results: seq<WriteResult>, counts: WriteResult -> bool)
    requires results != []
    ensures var n := |results| - 1;
      |Positions(results, counts)| == |Positions(results[..n], counts)| + if counts(results[n]) then 1 else 0
  {
    var n := |results| - 1;
    assert Positions(results, counts) == Positions(results[..n], counts) + if counts(results[n]) then {n} else {};
  }

  type Reasons = map<Reason, nat>

  function Of(reasons: Reasons, reason: Reason): nat {
    if reason in reasons then reasons[reason] else 0
  }

  function Plus(reasons: Reasons, reason: Reason): Reasons {
    reasons[reason := Of(reasons, reason) + 1]
  }

  ghost predicate Accounted(reasons: Reasons, empty: nat, results: seq<WriteResult>) {
    forall q :: Of(reasons, q) == CountGated(results, q) + if q == EmptyMessage then empty else 0
  }

  function Total(reasons: Reasons): nat {
    Of(reasons, UserConfirmed) + Of(reasons, CrossCyclePersistence) + Of(reasons, PredictionError)
    + Of(reasons, SubsequentReference) + Of(reasons, BelowThreshold) + Of(reasons, EmptyMessage)
  }

  lemma {:induction false} GatedAddUp(results: seq<WriteResult>)
    ensures CountGated(results, UserConfirmed) + CountGated(results, CrossCyclePersistence)
        + CountGated(results, PredictionError)
      + CountGated(results, SubsequentReference) + CountGated(results, BelowThreshold)
        + CountGated(results, EmptyMessage)
      + CountPersisted(results) == |results|
  {
    if results != [] {
      GatedAddUp(results[..|results| - 1]);
      match results[|results| - 1].reason
      case UserConfirmed =>
      case CrossCyclePersistence =>
      case PredictionError =>
      case SubsequentReference =>
      case BelowThreshold =>
      case EmptyMessage =>
    }
  }

  datatype AddError = NoError | EmbeddingFailed | WriteFailed

  datatype AddResponse = AddResponse(persisted: nat, skipped: nat, reasons: Reasons, error: AddError, failedIndex: nat)

  /** The reply belonging to the writes made. */
  ghost predicate Reports(r: AddResponse, take: Intake, messages: seq<Message>, p: Progress) {
    && r.persisted == CountPersisted(p.results)
    && r.persisted + r.skipped == |Blanks(take, messages)| + |p.results|
    && Accounted(r.reasons, |Blanks(take, messages)|, p.results)
    && r.error == (if p.failed then WriteFailed else NoError)
    && r.failedIndex == if p.failed && |p.results| < |Kept(take, messages)| then Kept(take, messages)[|p.results|]
      else 0
  }

  /** Every message is counted once, and every skipped one under its reason. */
  lemma CountsCoverTheRequest(r: AddResponse, take: Intake, messages: seq<Message>, p: Progress)
    requires Reports(r, take, messages, p)
    requires !p.failed ==> |p.results| == |Kept(take, messages)|
    ensures Total(r.reasons) == r.skipped
    ensures !p.failed ==> r.persisted + r.skipped == |messages|
    ensures p.failed && |p.results| < |Kept(take, messages)| ==> r.persisted + r.skipped < |messages|
  {
    KeptOrBlank(take, messages);
    GatedAddUp(p.results);
  }

  /**
   After a failed write the reported index is that of the message that failed, and every message
   with content before it was written: a client that resumes there repeats none and skips none.
   */
  lemma FailedIndexResumes(r: AddResponse, take: Intake, messages: seq<Message>, p: Progress, i: nat)
    requires Reports(r, take, messages, p) && p.failed && |p.results| < |Kept(take, messages)|
    ensures r.failedIndex < |messages| && take(messages[r.failedIndex]) == Some(Events(take, messages)[|p.results|])
    ensures i < |messages| && take(messages[i]).Some? ==>
      (i < r.failedIndex <==> i in Kept(take, messages)[..|p.results|])
  {
    var kept, k := Kept(take, messages), |p.results|;
    KeptMessageHasItsEvent(take, messages, k);
    if i < |messages| && take(messages[i]).Some? {
      ContentIsKept(take, messages, i);
      var j :| 0 <= j < |kept| && kept[j] == i;
      if j < k {
        KeptAscends(take, messages, j, k);
        assert kept[..k][j] == i;
      } else {
        if k < j { KeptAscends(take, messages, k, j); }
        forall h | 0 <= h < k ensures kept[h] != i { KeptAscends(take, messages, h, j); }
      }
    }
  }

  // ---------------------------------------------------------------- the handler

  /** Count the blank messages, and collect the events of the others. */
  method BuildEvents(take: Intake, messages: seq<Message>)
    returns (events: seq<Event>, indexes: seq<nat>, skipped: nat, reasons: Reasons)
    ensures events == Events(take, messages) && indexes == Kept(take, messages)
    ensures skipped == |messages| - |indexes|
    ensures Accounted(reasons, skipped, [])
  {
    events, indexes, skipped, reasons := [], [], 0, map[];
    for i := 0 to |messages|
      invariant events == Events(take, messages[..i]) && indexes == Kept(take, messages[..i])
      invariant skipped == i - |indexes|
      invariant Accounted(reasons, skipped, [])
    {
      assert messages[..i + 1][..i] == messages[..i];
      var event := take(messages[i]);
      if event.None? {
        skipped := skipped + 1;
        reasons := Plus(reasons, EmptyMessage);
        continue;
      }
      events := events + [event.value];
      indexes := indexes + [i];
    }
    assert messages[..|messages|] == messages;
  }

  /** A supply of identifiers no stored memory carries. */
  ghost predicate Supply(ids: seq<int>, mems: map<int, Memory>) {
    Distinct(ids) && forall k :: 0 <= k < |ids| ==> ids[k] != NIL_ID && ids[k] !in mems
  }

  /** The store part of the dependencies is as the pipeline expects it. */
  ghost predicate Ready(deps: Deps)
    reads deps.store
  {
    deps.store != null && Keyed(deps.store.episodics) && deps.store.cosine == deps.config.cosine
  }

  /** A write adds at most its fresh identifier. */
  lemma WriteAddsItsIdOnly(cfg: Config, s: State, event: Event, place: Place, c: Choice)
    requires Keyed(s.view.mems) && LegalWrite(cfg, s, event, cfg.embed(event.summary), place, c)
    ensures Keyed(Write(cfg, s, event, place, c).state.view.mems)
    ensures forall k :: k in Write(cfg, s, event, place, c).state.view.mems ==> k in s.view.mems || k == c.id
  {
    var op := WriteOp(event, place, c);
    StepRecords(cfg, s, op);
    AfterCases(cfg, s, op);
    if Accepts(cfg, s, op) {
      var p, embedding := Prepare(cfg, s, event, place.project).value, cfg.embed(event.summary).value;
      AppendedIsNotCovered(cfg, s, event, p, embedding, place, c);
    }
  }

  /** One message through the shared pipeline, with its vector when there is one. */
  method WriteOne(deps: Deps, event: Event, embeddings: Option<seq<seq<real>>>, k: nat, place: Place, now: int, id: int)
    returns (r: Result<WriteResult, WriteError>, ghost c: Choice)
    requires Ready(deps) && id !in deps.store.episodics && id != NIL_ID
    requires embeddings.Some? ==>
      k < |embeddings.value| && embeddings.value[k] != [] &&
        deps.config.embed(event.summary) == Some(embeddings.value[k])
    modifies deps.store, deps.workingMem
    ensures Ready(deps) && c.now == now && c.id == id
    ensures forall j :: j in deps.store.episodics ==> j in old(deps.store.episodics) || j == id
    ensures Outcome(StateOf(deps), r) == Write(deps.config, old(StateOf(deps)), event, place, c)
    ensures LegalWrite(deps.config, old(StateOf(deps)), event, deps.config.embed(event.summary), place, c)
  {
    ghost var s := StateOf(deps);
    if embeddings.Some? {
      r, c := WriteMemoryWithEmbedding(deps, event, embeddings.value[k], place, now, id);
      PrecomputedEmbeddingAgrees(deps.config, s, event, embeddings.value[k], place, c);
    } else {
      r, c := WriteMemory(deps, event, place, now, id);
    }
    WriteAddsItsIdOnly(deps.config, s, event, place, c);
  }

  /** The ledger of the second phase after writing `events`. */
  ghost predicate Ledger(cfg: Config, s: State, events: seq<Event>, place: Place, cs: seq<Choice>, now: State,
                         persisted: nat, skipped: nat, reasons: Reasons, empty: nat)
    requires |cs| == |events|
  {
    var p := OneByOne(cfg, s, events, place, cs);
    && LegalIngest(cfg, s, events, place, cs) && p.state == now
    && persisted == CountPersisted(p.results) && persisted + skipped == empty + |p.results|
    && Accounted(reasons, empty, p.results)
    && (if p.failed then |p.results| < |events| else |p.results| == |events|)
  }

  /** What one more result adds to the figures. */
  lemma CountOneMore(results: seq<WriteResult>, r: WriteResult)
    ensures CountPersisted(results + [r]) == CountPersisted(results) + if r.persisted then 1 else 0
    ensures forall q ::
      CountGated(results + [r], q) == CountGated(results, q) + if !r.persisted && r.reason == q then 1 else 0
  {
    assert (results + [r])[..|results|] == results;
  }

  /** The figures after one more result. */
  lemma FiguresAdd(results: seq<WriteResult>, r: WriteResult, persisted: nat, skipped: nat, reasons: Reasons,
                   empty: nat)
    requires persisted == CountPersisted(results) && persisted + skipped == empty + |results| &&
        Accounted(reasons, empty, results)
    ensures var more := results + [r];
      if r.persisted
      then
        && persisted + 1 == CountPersisted(more) && persisted + 1 + skipped == empty + |more|
        && Accounted(reasons, empty, more)
      else
        && persisted == CountPersisted(more) && persisted + skipped + 1 == empty + |more|
        && Accounted(Plus(reasons, r.reason), empty, more)
  {
    CountOneMore(results, r);
  }

  /** The progress after one more write that went through. */
  lemma ProgressAdds(cfg: Config, s: State, events: seq<Event>, more: seq<Event>, place: Place, cs: seq<Choice>,
                     c: Choice, now: State, r: WriteResult)
    requires |cs| == |events| && |more| == |events| + 1 && more[..|events|] == events &&
        LegalIngest(cfg, s, events, place, cs)
    requires var before := OneByOne(cfg, s, events, place, cs);
      && !before.failed && LegalWrite(cfg, before.state, more[|events|], cfg.embed(more[|events|].summary), place, c)
      && Write(cfg, before.state, more[|events|], place, c) == Outcome(now, Success(r))
    ensures LegalIngest(cfg, s, more, place, cs + [c])
    ensures OneByOne(cfg, s, more, place, cs + [c])
        == Progress(now, OneByOne(cfg, s, events, place, cs).results + [r], false)
  {
    var n, all := |more| - 1, cs + [c];
    assert more[..n] == events && all[..n] == cs && all[n] == c;
  }

  /** A write that went through: extend the ledger by its result. */
  lemma LedgerAdds(cfg: Config, s: State, events: seq<Event>, more: seq<Event>, place: Place, cs: seq<Choice>,
                   c: Choice, now: State, r: WriteResult,
                   persisted: nat, skipped: nat, reasons: Reasons, empty: nat)
    requires |cs| == |events| && |more| == |events| + 1 && more[..|events|] == events
    requires var before := OneByOne(cfg, s, events, place, cs);
      && !before.failed && Ledger(cfg, s, events, place, cs, before.state, persisted, skipped, reasons, empty)
      && LegalWrite(cfg, before.state, more[|events|], cfg.embed(more[|events|].summary), place, c)
      && Write(cfg, before.state, more[|events|], place, c) == Outcome(now, Success(r))
    ensures !OneByOne(cfg, s, more, place, cs + [c]).failed
    ensures if r.persisted then Ledger(cfg, s, more, place, cs + [c], now, persisted + 1, skipped, reasons, empty)
            else Ledger(cfg, s, more, place, cs + [c], now, persisted, skipped + 1, Plus(reasons, r.reason), empty)
  {
    ProgressAdds(cfg, s, events, more, place, cs, c, now, r);
    FiguresAdd(OneByOne(cfg, s, events, place, cs).results, r, persisted, skipped, reasons, empty);
  }

  /** After a failed write nothing more happens. */
  lemma FailureIsFinal(cfg: Config, s: State, events: seq<Event>, i: nat, place: Place, cs: seq<Choice>, c: Choice,
                       pad: seq<Choice>)
    requires i < |events| && |cs| == i && |pad| == |events| - i - 1 && LegalIngest(cfg, s, events[..i], place, cs)
    requires var before := OneByOne(cfg, s, events[..i], place, cs);
      && !before.failed && LegalWrite(cfg, before.state, events[i], cfg.embed(events[i].summary), place, c)
      && Write(cfg, before.state, events[i], place, c).result.Failure?
    ensures LegalIngest(cfg, s, events, place, cs + [c] + pad)
    ensures var before := OneByOne(cfg, s, events[..i], place, cs);
      OneByOne(cfg, s, events, place, cs + [c] + pad)
        == Progress(Write(cfg, before.state, events[i], place, c).state, before.results, true)
  {
    var all := cs + [c] + pad;
    IngestOneMore(cfg, s, events[..i], events[i], place, cs, c);
    assert events[..i] + [events[i]] == events[..i + 1] && all[..i + 1] == cs + [c];
    NothingAfterFailure(cfg, s, events, place, all, i + 1);
  }

  /** A write that failed: the ledger is closed over the whole request. */
  lemma LedgerCloses(cfg: Config, s: State, events: seq<Event>, i: nat, place: Place, cs: seq<Choice>, c: Choice,
                     now: State,
                     pad: seq<Choice>, persisted: nat, skipped: nat, reasons: Reasons, empty: nat)
    requires i < |events| && |cs| == i && |pad| == |events| - i - 1 && !OneByOne(cfg, s, events[..i], place, cs).failed
    requires Ledger(cfg, s, events[..i], place, cs, OneByOne(cfg, s, events[..i], place, cs).state, persisted, skipped,
        reasons, empty)
    requires LegalWrite(cfg, OneByOne(cfg, s, events[..i], place, cs).state, events[i], cfg.embed(events[i].summary),
        place, c)
    requires Write(cfg, OneByOne(cfg, s, events[..i], place, cs).state, events[i], place, c).state == now
    requires Write(cfg, OneByOne(cfg, s, events[..i], place, cs).state, events[i], place, c).result.Failure?
    ensures Ledger(cfg, s, events, place, cs + [c] + pad, now, persisted, skipped, reasons, empty)
    ensures var p := OneByOne(cfg, s, events, place, cs + [c] + pad); p.failed && |p.results| == i
  {
    FailureIsFinal(cfg, s, events, i, place, cs, c, pad);
  }

  datatype Figures = Figures(persisted: nat, skipped: nat, reasons: Reasons)
  {
    /** Book one result; a failure leaves the figures as they are. */
    function Adding(r: Result<WriteResult, WriteError>): Figures {
      if r.Failure? then this
      else if r.value.persisted then this.(persisted := persisted + 1)
      else this.(skipped := skipped + 1, reasons := Plus(reasons, r.value.reason))
    }
  }

  /** The ledger after `i` writes that went through, or after a failure at `i`. */
  ghost predicate Booked(cfg: Config, s: State, events: seq<Event>, i: nat, place: Place, cs: seq<Choice>, now: State,
                         f: Figures, empty: nat, failed: bool)
    requires i <= |events|
  {
    var part := if failed then events else events[..i];
    && |cs| == |part| && Ledger(cfg, s, part, place, cs, now, f.persisted, f.skipped, f.reasons, empty)
    && OneByOne(cfg, s, part, place, cs).failed == failed && |OneByOne(cfg, s, part, place, cs).results| == i
  }

  lemma BookFailure(cfg: Config, s: State, events: seq<Event>, i: nat, place: Place, before: seq<Choice>, was: State,
                    f: Figures, empty: nat,
                    c: Choice, pad: seq<Choice>, o: Outcome)
    requires i < |events| && |pad| == |events| - i - 1 && Booked(cfg, s, events, i, place, before, was, f, empty, false)
    requires LegalWrite(cfg, was, events[i], cfg.embed(events[i].summary), place, c)
    requires Write(cfg, was, events[i], place, c) == o && o.result.Failure?
    ensures Booked(cfg, s, events, i, place, before + [c] + pad, o.state, f, empty, true)
  {
    LedgerCloses(cfg, s, events, i, place, before, c, o.state, pad, f.persisted, f.skipped, f.reasons, empty);
  }

  lemma BookSuccess(cfg: Config, s: State, events: seq<Event>, i: nat, place: Place, before: seq<Choice>, was: State,
                    f: Figures, empty: nat,
                    c: Choice, o: Outcome)
    requires i < |events| && Booked(cfg, s, events, i, place, before, was, f, empty, false)
    requires LegalWrite(cfg, was, events[i], cfg.embed(events[i].summary), place, c)
    requires Write(cfg, was, events[i], place, c) == o && o.result.Success?
    ensures Booked(cfg, s, events, i + 1, place, before + [c], o.state, f.Adding(o.result), empty, false)
  {
    var more := events[..i + 1];
    assert more[..i] == events[..i] && more[i] == events[i];
    LedgerAdds(cfg, s, events[..i], more, place, before, c, o.state, o.result.value, f.persisted, f.skipped, f.reasons,
      empty);
  }

  /** Write event `i` and book its result. */
  method WriteNext(deps: Deps, events: seq<Event>, i: nat, embeddings: Option<seq<seq<real>>>, place: Place, now: int,
                   id: int,
                   figures: Figures, ghost empty: nat, ghost s: State, ghost before: seq<Choice>,
                     ghost pad: seq<Choice>)
    returns (f: Figures, failed: bool, ghost cs: seq<Choice>)
    requires |pad| == |events| - i - 1
    requires Ready(deps) && id !in deps.store.episodics && id != NIL_ID && i < |events|
    requires embeddings.Some? ==> Agrees(deps.config, Summaries(events), embeddings.value)
    requires Booked(deps.config, s, events, i, place, before, StateOf(deps), figures, empty, false)
    modifies deps.store, deps.workingMem
    ensures Ready(deps)
    ensures forall k :: k in deps.store.episodics ==> k in old(deps.store.episodics) || k == id
    ensures Booked(deps.config, s, events, if failed then i else i + 1, place, cs, StateOf(deps), f, empty, failed)
    ensures |cs| > |before| && cs[|before|].now == now && cs[|before|].id == id
    ensures cs == before + [cs[|before|]] + if failed then pad else []
  {
    assert Summaries(events)[i] == events[i].summary;
    ghost var was := StateOf(deps);
    ghost var c;
    var r;
    r, c := WriteOne(deps, events[i], embeddings, i, place, now, id);
    f, failed := figures.Adding(r), r.Failure?;
    if failed {
      BookFailure(deps.config, s, events, i, place, before, was, figures, empty, c, pad, Outcome(StateOf(deps), r));
      cs := before + [c] + pad;
    } else {
      BookSuccess(deps.config, s, events, i, place, before, was, figures, empty, c, Outcome(StateOf(deps), r));
      cs := before + [c];
    }
  }

  /** The choices are made at the given instants and with the given identifiers. */
  ghost predicate Given(cs: seq<Choice>, clock: seq<int>, ids: seq<int>) {
    |cs| <= |clock| && |cs| <= |ids| && forall k :: 0 <= k < |cs| ==> cs[k].now == clock[k] && cs[k].id == ids[k]
  }

  /** What would have been chosen for all events, had their searches found nothing. */
  ghost function Unmade(clock: seq<int>, ids: seq<int>, n: nat): (cs: seq<Choice>)
    requires n <= |clock| && n <= |ids|
    ensures |cs| == n && Given(cs, clock, ids)
  {
    seq(n, j requires 0 <= j < n => Choice(clock[j], ids[j], [], [], []))
  }

  lemma GivenNext(before: seq<Choice>, c: Choice, all: seq<Choice>, clock: seq<int>, ids: seq<int>)
    requires Given(before, clock, ids) && |before| < |all| && Given(all, clock, ids)
    requires c.now == clock[|before|] && c.id == ids[|before|]
    ensures Given(before + [c], clock, ids) && Given(before + [c] + all[|before| + 1..], clock, ids)
  {
    var n := |before|;
    var cs := before + [c] + all[n + 1..];
    forall k | 0 <= k < |cs| ensures cs[k].now == clock[k] && cs[k].id == ids[k] {
      assert k > n ==> cs[k] == all[k];
    }
  }

  /** Phase 2: sequential writes in request order, up to the first failure. */
  method WriteAll(deps: Deps, events: seq<Event>, embeddings: Option<seq<seq<real>>>, place: Place, clock: seq<int>,
                  ids: seq<int>,
                  empty: nat, blank: Reasons)
    returns (f: Figures, failed: Option<nat>, ghost cs: seq<Choice>)
    requires Ready(deps) && |clock| >= |events| && |ids| >= |events| && Supply(ids, deps.store.episodics)
    requires embeddings.Some? ==> Agrees(deps.config, Summaries(events), embeddings.value)
    requires Accounted(blank, empty, [])
    modifies deps.store, deps.workingMem
    ensures Ready(deps) && |cs| == |events| && Given(cs, clock, ids)
    ensures Ledger(deps.config, old(StateOf(deps)), events, place, cs, StateOf(deps), f.persisted, f.skipped, f.reasons,
        empty)
    ensures var p := OneByOne(deps.config, old(StateOf(deps)), events, place, cs);
      failed == if p.failed then Some(|p.results|) else None
  {
    f, failed, cs := Figures(0, empty, blank), None, [];
    ghost var cfg, s, unmade := deps.config, StateOf(deps), Unmade(clock, ids, |events|);
    var i := 0;
    while i < |events|
      invariant i <= |events| && Ready(deps)
      invariant forall k :: i <= k < |ids| ==> ids[k] !in deps.store.episodics
      invariant Given(cs, clock, ids)
      invariant Booked(cfg, s, events, i, place, cs, StateOf(deps), f, empty, false)
    {
      var stop;
      ghost var before := cs;
      f, stop, cs := WriteNext(deps, events, i, embeddings, place, clock[i], ids[i], f, empty, s, cs, unmade[i + 1..]);
      GivenNext(before, cs[i], unmade, clock, ids);
      if stop { return f, Some(i), cs; }
      i := i + 1;
    }
    assert events[..i] == events;
  }

  datatype AddResult = BadRequest | Response(response: AddResponse)

  /** The batch embedder agrees with the single one whenever it answers with vectors. */
  ghost predicate FaithfulBatch(srv: Server, cfg: Config) {
    forall texts :: srv.batch(texts).Vectors? ==> Agrees(cfg, texts, srv.batch(texts).vectors)
  }

  predicate Refused(srv: Server, user: string, messages: seq<Message>) {
    Text.TrimSpace(user) == "" || messages == [] || |messages| > srv.maxMessages
  }

  /**
   Whether the batch embedder answers or the messages are embedded one by one, an accepted request
   leaves what writing its messages with content in order leaves, and reports exactly that; a
   failing batch call leaves everything as it was.
   */
  method HandleAdd(srv: Server, deps: Deps, user: string, messages: seq<Message>, clock: seq<int>, ids: seq<int>)
    returns (r: AddResult, ghost cs: seq<Choice>)
    requires Ready(deps) && FaithfulBatch(srv, deps.config)
    requires |clock| >= |messages| && |ids| >= |messages| && Supply(ids, deps.store.episodics)
    modifies deps.store, deps.workingMem
    ensures r.BadRequest? <==> Refused(srv, user, messages)
    ensures var events := Events(TakeFrom(srv), messages);
      if r.BadRequest? || srv.batch(Summaries(events)).BatchFailed? then
        && StateOf(deps) == old(StateOf(deps))
        && (r.Response? ==> r.response == AddResponse(0, 0, map[], EmbeddingFailed, 0))
      else
        && |cs| == |events| && Given(cs, clock, ids)
        && LegalIngest(deps.config, old(StateOf(deps)), events, srv.PlaceFor(user), cs)
        && var p := OneByOne(deps.config, old(StateOf(deps)), events, srv.PlaceFor(user), cs);
        && StateOf(deps) == p.state && Reports(r.response, TakeFrom(srv), messages, p)
        && (if p.failed then |p.results| < |events| else |p.results| == |events|)
  {
    cs := [];
    if Text.TrimSpace(user) == "" || |messages| == 0 || |messages| > srv.maxMessages {
      return BadRequest, cs;
    }
    var events, indexes, empty, blank := BuildEvents(TakeFrom(srv), messages);
    KeptOrBlank(TakeFrom(srv), messages);
    var batch := srv.batch(Summaries(events));
    if batch.BatchFailed? {
      return Response(AddResponse(0, 0, map[], EmbeddingFailed, 0)), cs;
    }
    var embeddings := if batch.Vectors? then Some(batch.vectors) else None;
    var f, failed;
    f, failed, cs := WriteAll(deps, events, embeddings, srv.PlaceFor(user), clock, ids, empty, blank);
    r := Response(AddResponse(f.persisted, f.skipped, f.reasons, if failed.Some? then WriteFailed else NoError,
                              if failed.Some? then indexes[failed.value] else 0));
  }
}
