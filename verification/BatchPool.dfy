/**
 The concurrent batch embedder: one feeder goroutine, a buffered channel of chunks, a pool of
 workers, a first error guarded by a lock and one output slice shared by all workers.

 The pool is a transition system. An `Action` says which goroutine moves next and what an
 outside call answers; `Apply` is the effect of one atomic step. A run is any sequence of
 enabled actions, so a statement about every run covers every interleaving.
 */
module BatchPool {
  import opened Wrappers
  import opened Vectors
  import opened Chunking

  const MAX_WORKERS := 64
  const DEFAULT_WORKERS := 32

  datatype Error = CallFailed(message: string) | WrongLength(got: nat, want: nat)

  /** What the caller may ask for; zero or less means "use the default". */
  datatype Options = Options(workers: int, batchSize: int)

  datatype Limits = Limits(workers: nat, batchSize: nat)

  function NewBatchEmbedder(opts: Options): (r: Limits)
    ensures 1 <= r.workers <= MAX_WORKERS && 1 <= r.batchSize <= BATCH_LIMIT
    ensures opts.workers <= 0 ==> r.workers == DEFAULT_WORKERS
    ensures 1 <= opts.workers <= MAX_WORKERS ==> r.workers == opts.workers
    ensures opts.workers > MAX_WORKERS ==> r.workers == MAX_WORKERS
    ensures 1 <= opts.batchSize <= BATCH_LIMIT ==> r.batchSize == opts.batchSize
    ensures opts.batchSize <= 0 || opts.batchSize > BATCH_LIMIT ==> r.batchSize == BATCH_LIMIT
  {
    var w := if opts.workers <= 0 then DEFAULT_WORKERS else opts.workers;
    var b := if opts.batchSize <= 0 then BATCH_LIMIT else opts.batchSize;
    Limits(if w > MAX_WORKERS then MAX_WORKERS else w, if b > BATCH_LIMIT then BATCH_LIMIT else b)
  }

  /**
   One call of EmbedBatch: the input, the values computed before the goroutines start, and
   the vector that a right answer holds for each text.
   */
  datatype Job = Job(texts: seq<string>, batchSize: nat, chunks: nat, workers: nat, embed: string -> Vector)

  ghost predicate ValidJob(c: Job) {
    |c.texts| > 0 && c.batchSize > 0 && c.workers > 0 && c.chunks == ChunksFor(|c.texts|, c.batchSize)
  }

  /** The preamble of EmbedBatch: the channel capacity and the number of workers. */
  function Plan(texts: seq<string>, limits: Limits, embed: string -> Vector): (c: Job)
    requires |texts| > 0 && limits.workers > 0 && limits.batchSize > 0
    ensures ValidJob(c) && c.texts == texts && c.embed == embed && c.batchSize == limits.batchSize
    ensures c.workers == Min(limits.workers, c.chunks) > 0
  {
    var chunks := (|texts| + limits.batchSize - 1) / limits.batchSize;
    CeilingCountsChunks(|texts|, limits.batchSize);
    Job(texts, limits.batchSize, chunks, if limits.workers < chunks then limits.workers else chunks, embed)
  }

  datatype Chunk = Chunk(start: nat, end: nat)

  datatype Worker =
    | Ranging                                             // waiting for the channel
    | Calling(job: Chunk)                                 // inside the provider call
    | Copying(job: Chunk, vecs: seq<Vector>, done: nat)   // copying into the shared slice
    | Recording(err: Error)                               // about to take the lock
    | Cancelling                                          // about to cancel the context
    | Exited

  datatype Feeder = Feeding(start: nat) | Closed

  /**
   `feeder` to `cancelled` are the variables of the Go function. The rest is history: how many
   chunks and slots were sent, where the last received chunk ended, which worker wrote which slot, which
   errors reached the lock, and whether a call misbehaved or the caller cancelled.
   */
  datatype State = State(
    feeder: Feeder, queue: seq<Chunk>, workers: seq<Worker>,
    out: seq<Option<Vector>>, firstErr: Option<Error>, cancelled: bool,
    sent: nat, fed: nat, front: nat, writes: seq<(nat, nat)>, recorded: seq<Error>,
    badCall: bool, callerCancelled: bool)

  datatype Action =
    | Send | FinishFeeding | StopFeeding | CallerCancel
    | Receive(w: nat) | Leave(w: nat) | Return(w: nat, answer: Result<seq<Vector>, Error>)
    | CopySlot(w: nat) | CopyDone(w: nat) | Record(w: nat) | Cancel(w: nat)

  function Min(a: nat, b: nat): nat { if a < b then a else b }

  function Init(c: Job): (s: State)
    requires ValidJob(c)
  {
    State(Feeding(0), [], seq(c.workers, _ => Ranging), seq(|c.texts|, _ => None), None, false,
          0, 0, 0, [], [], false, false)
  }

  /** A right-length answer holds the embedding of each text of the chunk. */
  ghost predicate Honest(c: Job, j: Chunk, vecs: seq<Vector>)
    requires j.start <= j.end <= |c.texts|
  {
    |vecs| == j.end - j.start ==> forall k :: 0 <= k < |vecs| ==> vecs[k] == c.embed(c.texts[j.start + k])
  }

  ghost predicate Enabled(c: Job, s: State, a: Action)
    requires ValidJob(c)
  {
    match a
    case Send => s.feeder.Feeding? && s.feeder.start < |c.texts| && |s.queue| < c.chunks
    case FinishFeeding => s.feeder.Feeding? && s.feeder.start >= |c.texts|
    case StopFeeding => s.feeder.Feeding? && s.feeder.start < |c.texts| && s.cancelled
    case CallerCancel => !s.callerCancelled
    case Receive(w) => w < |s.workers| && s.workers[w].Ranging? && s.queue != []
    case Leave(w) => w < |s.workers| && s.workers[w].Ranging? && s.queue == [] && s.feeder.Closed?
    case Return(w, answer) =>
      && w < |s.workers| && s.workers[w].Calling?
      && var j := s.workers[w].job;
      && j.start <= j.end <= |c.texts|
      && (answer.Success? ==> Honest(c, j, answer.value))
    case CopySlot(w) =>
      && w < |s.workers| && s.workers[w].Copying?
      && s.workers[w].done < |s.workers[w].vecs|
      && s.workers[w].job.start + s.workers[w].done < |s.out|
    case CopyDone(w) =>
      && w < |s.workers| && s.workers[w].Copying?
      && s.workers[w].done == |s.workers[w].vecs|
    case Record(w) => w < |s.workers| && s.workers[w].Recording?
    case Cancel(w) => w < |s.workers| && s.workers[w].Cancelling?
  }

  ghost function Apply(c: Job, s: State, a: Action): State
    requires ValidJob(c) && Enabled(c, s, a)
  {
    match a
    case Send =>
      var j := Chunk(s.feeder.start, Min(s.feeder.start + c.batchSize, |c.texts|));
      s.(queue := s.queue + [j], feeder := Feeding(s.feeder.start + c.batchSize), sent := s.sent + 1, fed := j.end)
    case FinishFeeding => s.(feeder := Closed)
    case StopFeeding => s.(feeder := Closed)
    case CallerCancel => s.(cancelled := true, callerCancelled := true)
    case Receive(w) =>
      s.(queue := s.queue[1..], workers := s.workers[w := Calling(s.queue[0])], front := s.queue[0].end)
    case Leave(w) => s.(workers := s.workers[w := Exited])
    case Return(w, answer) =>
      var j := s.workers[w].job;
      (match answer
       case Failure(e) => s.(workers := s.workers[w := Recording(e)], badCall := true)
       case Success(vecs) =>
         if |vecs| != j.end - j.start then
           s.(workers := s.workers[w := Recording(WrongLength(|vecs|, j.end - j.start))], badCall := true)
         else
           s.(workers := s.workers[w := Copying(j, vecs, 0)]))
    case CopySlot(w) =>
      var Copying(j, vecs, done) := s.workers[w];
      s.(out := s.out[j.start + done := Some(vecs[done])],
         workers := s.workers[w := Copying(j, vecs, done + 1)],
         writes := s.writes + [(w, j.start + done)])
    case CopyDone(w) => s.(workers := s.workers[w := Ranging])
    case Record(w) =>
      var e := s.workers[w].err;
      s.(firstErr := if s.firstErr.None? then Some(e) else s.firstErr,
         workers := s.workers[w := Cancelling], recorded := s.recorded + [e])
    case Cancel(w) => s.(cancelled := true, workers := s.workers[w := Exited])
  }

  /** The state after a run, or None when some action of the run was not enabled. */
  ghost function Run(c: Job, actions: seq<Action>): Option<State>
    requires ValidJob(c)
  {
    if actions == [] then Some(Init(c)) else
    var last := |actions| - 1;
    match Run(c, actions[..last])
    case None => None
    case Some(s) => if Enabled(c, s, actions[last]) then Some(Apply(c, s, actions[last])) else None
  }

  // ---------------------------------------------------------------- the invariant

  /** The slots a worker will still write: [Lo, Hi). */
  ghost function Lo(w: Worker): nat {
    match w
    case Calling(j) => j.start
    case Copying(j, _, done) => j.start + done
    case _ => 0
  }

  ghost function Hi(w: Worker): nat {
    match w
    case Calling(j) => j.end
    case Copying(j, _, _) => j.end
    case _ => 0
  }

  /** The queued chunks tile the slots from `lo` to `hi`. */
  ghost predicate Tiles(queue: seq<Chunk>, lo: nat, hi: nat) {
    if queue == [] then lo == hi
    else queue[0].start == lo && lo < queue[0].end <= hi && Tiles(queue[1..], queue[0].end, hi)
  }

  ghost predicate Feeds(c: Job, s: State)
    requires ValidJob(c)
  {
    && s.front <= s.fed <= |c.texts|
    && |s.queue| <= s.sent
    && s.sent + ChunksFor(|c.texts| - s.fed, c.batchSize) == c.chunks
    && (s.feeder.Feeding? ==> s.fed == Min(s.feeder.start, |c.texts|))
    && (s.feeder.Closed? ==> s.fed == |c.texts| || s.cancelled)
    && Tiles(s.queue, s.front, s.fed)
  }

  ghost predicate WorkerOk(c: Job, s: State, w: Worker)
    requires ValidJob(c)
  {
    match w
    case Calling(j) => j.start < j.end <= s.front && j.end <= |c.texts|
    case Copying(j, vecs, done) =>
      && j.start < j.end <= s.front && j.end <= |c.texts|
      && |vecs| == j.end - j.start && done <= |vecs|
      && Honest(c, j, vecs)
    case Recording(_) => s.badCall
    case Cancelling => s.recorded != []
    case Exited => s.recorded != [] || (s.feeder.Closed? && s.queue == [])
    case Ranging => true
  }

  /** Worker `w` still has to write slot `i`. */
  ghost predicate Owes(ws: seq<Worker>, w: int, i: int) {
    0 <= w < |ws| && Lo(ws[w]) <= i < Hi(ws[w])
  }

  lemma OwesAfter(ws: seq<Worker>, ws': seq<Worker>, k: nat)
    requires k < |ws| == |ws'| && ws' == ws[k := ws'[k]]
    ensures forall i, v :: Owes(ws', v, i) == if v == k then Lo(ws'[k]) <= i < Hi(ws'[k]) else Owes(ws, v, i)
  {
  }

  /** No slot is owed by two workers, and an owed slot is still empty. */
  ghost predicate Exclusive(s: State) {
    && (forall i, v, w :: Owes(s.workers, v, i) && Owes(s.workers, w, i) ==> v == w)
    && (forall i, w :: Owes(s.workers, w, i) && i < |s.out| ==> s.out[i].None?)
  }

  ghost predicate Troubled(s: State) {
    s.recorded != [] || exists w :: 0 <= w < |s.workers| && s.workers[w].Recording?
  }

  /** A slot below the front is written, owed by a worker, or lost to a failed call. */
  ghost predicate Covered(c: Job, s: State)
    requires |s.out| == |c.texts|
  {
    && (forall i {:trigger s.out[i]} :: 0 <= i < s.front && i < |s.out|
          ==> s.out[i].Some? || Troubled(s) || exists w :: Owes(s.workers, w, i))
    && (forall i :: s.front <= i < |s.out| ==> s.out[i].None?)
    && (forall i :: 0 <= i < |s.out| && s.out[i].Some? ==> s.out[i].value == c.embed(c.texts[i]))
  }

  /** The write log names every filled slot and no slot twice. */
  ghost predicate WrittenOnce(s: State) {
    && (forall k :: 0 <= k < |s.writes| ==> s.writes[k].1 < |s.out| && s.out[s.writes[k].1].Some?)
    && (forall k, m :: 0 <= k < m < |s.writes| ==> s.writes[k].1 != s.writes[m].1)
  }

  ghost predicate ErrorsOk(s: State) {
    && s.firstErr == (if s.recorded == [] then None else Some(s.recorded[0]))
    && (s.cancelled ==> s.callerCancelled || s.recorded != [])
    && (s.recorded != [] ==> s.badCall)
    && (s.badCall ==> Troubled(s))
  }

  ghost predicate Inv(c: Job, s: State)
    requires ValidJob(c)
  {
    && |s.out| == |c.texts| && |s.workers| == c.workers
    && Feeds(c, s)
    && (forall w :: 0 <= w < |s.workers| ==> WorkerOk(c, s, s.workers[w]))
    && Exclusive(s)
    && Covered(c, s)
    && WrittenOnce(s)
    && ErrorsOk(s)
  }

  lemma TilesSnoc(queue: seq<Chunk>, lo: nat, hi: nat, j: Chunk)
    requires Tiles(queue, lo, hi) && lo <= hi && j.start == hi && hi < j.end
    ensures Tiles(queue + [j], lo, j.end)
  {
    if queue == [] {
      assert (queue + [j])[1..] == [];
    } else {
      TilesSnoc(queue[1..], queue[0].end, hi, j);
      assert (queue + [j])[1..] == queue[1..] + [j];
    }
  }

  lemma SendKeepsInv(c: Job, s: State)
    requires ValidJob(c) && Inv(c, s) && Enabled(c, s, Send)
    ensures Inv(c, Apply(c, s, Send))
  {
    var s' := Apply(c, s, Send);
    TilesSnoc(s.queue, s.front, s.fed, s'.queue[|s.queue|]);
  }

  lemma FeederKeepsInv(c: Job, s: State, a: Action)
    requires ValidJob(c) && Inv(c, s) && Enabled(c, s, a)
    requires a.FinishFeeding? || a.StopFeeding? || a.CallerCancel?
    ensures Inv(c, Apply(c, s, a))
  {
  }

  /** A received chunk lies beyond everything owed so far. */
  lemma ReceiveKeepsExclusive(c: Job, s: State, w: nat)
    requires ValidJob(c) && Inv(c, s) && Enabled(c, s, Receive(w))
    ensures Exclusive(Apply(c, s, Receive(w)))
  {
    var s' := Apply(c, s, Receive(w));
    OwesAfter(s.workers, s'.workers, w);
    forall i, v | Owes(s.workers, v, i) ensures i < s.front { assert WorkerOk(c, s, s.workers[v]); }
  }

  lemma ReceiveKeepsCovered(c: Job, s: State, w: nat)
    requires ValidJob(c) && Inv(c, s) && Enabled(c, s, Receive(w))
    ensures Covered(c, Apply(c, s, Receive(w)))
  {
    var s' := Apply(c, s, Receive(w));
    TroubledSame(s, s', w);
    OwesAfter(s.workers, s'.workers, w);
    forall i {:trigger s'.out[i]} | 0 <= i < s'.front && i < |s'.out|
      ensures s'.out[i].Some? || Troubled(s') || exists v :: Owes(s'.workers, v, i)
    {
      if i >= s.front {
        assert Owes(s'.workers, w, i);
      } else if !s.out[i].Some? && !Troubled(s) {
        var v :| Owes(s.workers, v, i);
        assert Owes(s'.workers, v, i);
      }
    }
  }

  lemma ReceiveKeepsInv(c: Job, s: State, w: nat)
    requires ValidJob(c) && Inv(c, s) && Enabled(c, s, Receive(w))
    ensures Inv(c, Apply(c, s, Receive(w)))
  {
    TroubledSame(s, Apply(c, s, Receive(w)), w);
    ReceiveKeepsExclusive(c, s, w);
    ReceiveKeepsCovered(c, s, w);
  }

  /** Changing a worker that is not recording leaves the trouble flag up. */
  lemma TroubledStays(s: State, s': State, w: nat)
    requires w < |s.workers| && |s'.workers| == |s.workers| && s'.recorded == s.recorded
    requires !s.workers[w].Recording?
    requires forall v :: 0 <= v < |s.workers| && v != w ==> s'.workers[v] == s.workers[v]
    requires Troubled(s)
    ensures Troubled(s')
  {
    if s.recorded == [] {
      var v :| 0 <= v < |s.workers| && s.workers[v].Recording?;
      assert s'.workers[v].Recording?;
    }
  }

  lemma TroubledSame(s: State, s': State, w: nat)
    requires w < |s.workers| && |s'.workers| == |s.workers| && s'.recorded == s.recorded
    requires !s.workers[w].Recording?
    requires forall v :: 0 <= v < |s.workers| && v != w ==> s'.workers[v] == s.workers[v]
    ensures Troubled(s) ==> Troubled(s')
  {
    if Troubled(s) { TroubledStays(s, s', w); }
  }

  /** Worker `k` owes less than before, and every changed slot is one it no longer owes. */
  ghost predicate Progressed(s: State, s': State, k: nat) {
    && k < |s.workers| == |s'.workers| && s'.workers == s.workers[k := s'.workers[k]]
    && |s'.out| == |s.out|
    && (Lo(s'.workers[k]) < Hi(s'.workers[k]) ==>
          Lo(s.workers[k]) <= Lo(s'.workers[k]) && Hi(s'.workers[k]) <= Hi(s.workers[k]))
    && (forall i :: 0 <= i < |s.out| && s'.out[i] != s.out[i]
          ==> Owes(s.workers, k, i) && !Owes(s'.workers, k, i))
  }

  lemma ProgressKeepsExclusive(s: State, s': State, k: nat)
    requires Exclusive(s) && Progressed(s, s', k)
    ensures Exclusive(s')
  {
    forall i, v | Owes(s'.workers, v, i)
      ensures Owes(s.workers, v, i) && (i < |s'.out| ==> s'.out[i] == s.out[i])
    {
      assert Owes(s.workers, v, i);
    }
  }

  /** A slot that is still owed stays owed, unless worker `k` wrote it or failed. */
  lemma ProgressKeepsCovered(c: Job, s: State, s': State, k: nat)
    requires |s.out| == |c.texts| && Covered(c, s) && Progressed(s, s', k)
    requires s'.front == s.front && s'.recorded == s.recorded && !s.workers[k].Recording?
    requires forall i :: 0 <= i < |s.out| && s'.out[i] != s.out[i]
               ==> i < s.front && s'.out[i] == Some(c.embed(c.texts[i]))
    requires forall i :: Owes(s.workers, k, i) && i < |s.out|
               ==> s'.out[i].Some? || Owes(s'.workers, k, i) || s'.workers[k].Recording?
    ensures Covered(c, s')
  {
    TroubledSame(s, s', k);
    forall i {:trigger s'.out[i]} | 0 <= i < s'.front && i < |s'.out|
      ensures s'.out[i].Some? || Troubled(s') || exists v :: Owes(s'.workers, v, i)
    {
      if s'.out[i].None? && !Troubled(s') {
        var v :| Owes(s.workers, v, i);
        assert Owes(s'.workers, v, i);
      }
    }
  }

  /** When only worker `k` changed, the other workers stay as they must be. */
  lemma WorkersStayOk(c: Job, s: State, s': State, k: nat)
    requires ValidJob(c) && k < |s.workers| == |s'.workers| && s'.workers == s.workers[k := s'.workers[k]]
    requires forall w :: 0 <= w < |s.workers| ==> WorkerOk(c, s, s.workers[w])
    requires s'.front == s.front && s'.feeder == s.feeder && s'.queue == s.queue
    requires s'.recorded == s.recorded && (s.badCall ==> s'.badCall)
    requires WorkerOk(c, s', s'.workers[k])
    ensures forall w :: 0 <= w < |s'.workers| ==> WorkerOk(c, s', s'.workers[w])
  {
    forall w | 0 <= w < |s'.workers| ensures WorkerOk(c, s', s'.workers[w]) {
      assert WorkerOk(c, s, s.workers[w]);
    }
  }

  /** A step of worker `k` that touches only its own state, its own slots and the history. */
  lemma WorkerStepKeepsInv(c: Job, s: State, s': State, k: nat)
    requires ValidJob(c) && Inv(c, s) && Progressed(s, s', k)
    requires s' == s.(workers := s'.workers, out := s'.out, writes := s'.writes, badCall := s'.badCall)
    requires WorkerOk(c, s', s'.workers[k]) && !s.workers[k].Recording?
    requires s'.badCall == (s.badCall || s'.workers[k].Recording?)
    requires forall i :: 0 <= i < |s.out| && s'.out[i] != s.out[i]
               ==> i < s.front && s'.out[i] == Some(c.embed(c.texts[i]))
    requires forall i :: Owes(s.workers, k, i) && i < |s.out|
               ==> s'.out[i].Some? || Owes(s'.workers, k, i) || s'.workers[k].Recording?
    requires WrittenOnce(s')
    ensures Inv(c, s')
  {
    WorkersStayOk(c, s, s', k);
    ProgressKeepsExclusive(s, s', k);
    ProgressKeepsCovered(c, s, s', k);
    TroubledSame(s, s', k);
    if s'.workers[k].Recording? { assert Troubled(s'); }
  }

  /** Leave and CopyDone change one worker and no slot. */
  lemma QuietKeepsInv(c: Job, s: State, a: Action)
    requires ValidJob(c) && Inv(c, s) && Enabled(c, s, a)
    requires a.Leave? || a.CopyDone?
    ensures Inv(c, Apply(c, s, a))
  {
    assert WorkerOk(c, s, s.workers[a.w]);
    WorkerStepKeepsInv(c, s, Apply(c, s, a), a.w);
  }

  lemma ReturnKeepsInv(c: Job, s: State, w: nat, answer: Result<seq<Vector>, Error>)
    requires ValidJob(c) && Inv(c, s) && Enabled(c, s, Return(w, answer))
    ensures Inv(c, Apply(c, s, Return(w, answer)))
  {
    assert WorkerOk(c, s, s.workers[w]);
    WorkerStepKeepsInv(c, s, Apply(c, s, Return(w, answer)), w);
  }

  lemma CopyWritesOnce(s: State, s': State, w: nat, slot: nat)
    requires WrittenOnce(s) && slot < |s.out| == |s'.out| && s.out[slot].None?
    requires s'.out[slot].Some? && (forall i :: 0 <= i < |s.out| && i != slot ==> s'.out[i] == s.out[i])
    requires s'.writes == s.writes + [(w, slot)]
    ensures WrittenOnce(s')
  {}

  lemma CopyKeepsInv(c: Job, s: State, w: nat)
    requires ValidJob(c) && Inv(c, s) && Enabled(c, s, CopySlot(w))
    ensures Inv(c, Apply(c, s, CopySlot(w)))
  {
    assert WorkerOk(c, s, s.workers[w]);
    var slot := s.workers[w].job.start + s.workers[w].done;
    assert Owes(s.workers, w, slot) && s.out[slot].None?;
    CopyWritesOnce(s, Apply(c, s, CopySlot(w)), w, slot);
    WorkerStepKeepsInv(c, s, Apply(c, s, CopySlot(w)), w);
  }
}
