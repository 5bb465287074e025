/**
 What the caller of the worker pool sees, and that the pool always finishes: statements about
 every run of the transition system, hence about every interleaving.
 */
module BatchPoolRuns {
  import opened Wrappers
  import opened Vectors
  import opened BatchPool

  // ---------------------------------------------------------------- every run keeps the invariant

  lemma ErrorKeepsInv(c: Job, s: State, a: Action)
    requires ValidJob(c) && Inv(c, s) && Enabled(c, s, a)
    requires a.Record? || a.Cancel?
    ensures Inv(c, Apply(c, s, a))
  {
    var s' := Apply(c, s, a);
    OwesAfter(s.workers, s'.workers, a.w);
    assert s'.recorded != [];
  }

  lemma StepKeepsInv(c: Job, s: State, a: Action)
    requires ValidJob(c) && Inv(c, s) && Enabled(c, s, a)
    ensures Inv(c, Apply(c, s, a))
  {
    match a
    case Send => SendKeepsInv(c, s);
    case Receive(w) => ReceiveKeepsInv(c, s, w);
    case CopySlot(w) => CopyKeepsInv(c, s, w);
    case Record(_) => ErrorKeepsInv(c, s, a);
    case Cancel(_) => ErrorKeepsInv(c, s, a);
    case FinishFeeding => FeederKeepsInv(c, s, a);
    case StopFeeding => FeederKeepsInv(c, s, a);
    case CallerCancel => FeederKeepsInv(c, s, a);
    case Leave(_) => QuietKeepsInv(c, s, a);
    case Return(w, answer) => ReturnKeepsInv(c, s, w, answer);
    case CopyDone(_) => QuietKeepsInv(c, s, a);
  }

  lemma {:induction false} RunKeepsInv(c: Job, actions: seq<Action>)
    requires ValidJob(c) && Run(c, actions).Some?
    ensures Inv(c, Run(c, actions).value)
  {
    if actions != [] {
      var last := |actions| - 1;
      RunKeepsInv(c, actions[..last]);
      StepKeepsInv(c, Run(c, actions[..last]).value, actions[last]);
    }
  }

  // ---------------------------------------------------------------- what the caller sees

  ghost predicate AllExited(s: State) {
    forall w :: 0 <= w < |s.workers| ==> s.workers[w].Exited?
  }

  /** What the function returns once the wait group is released. */
  ghost function Answer(s: State): Result<seq<Option<Vector>>, Error> {
    if s.firstErr.Some? then Failure(s.firstErr.value) else Success(s.out)
  }

  /**
   Every interleaving, whatever the caller does: a misbehaving call makes the answer the first
   error that reached the lock, and otherwise exactly the slots of the chunks that were sent are
   filled, each with the embedding of its text.
   */
  lemma AnswerOfEveryRun(c: Job, actions: seq<Action>)
    requires ValidJob(c) && Run(c, actions).Some? && AllExited(Run(c, actions).value)
    ensures var s := Run(c, actions).value;
      && s.fed <= |s.out| == |c.texts|
      && if s.badCall then s.recorded != [] && Answer(s) == Failure(s.recorded[0])
         else
           && Answer(s) == Success(s.out)
           && forall i :: 0 <= i < |s.out| ==> s.out[i] == if i < s.fed then Some(c.embed(c.texts[i])) else None
  {
    RunKeepsInv(c, actions);
    var s := Run(c, actions).value;
    assert s.workers[0].Exited?;
    if !s.badCall {
      assert s.front == s.fed;
      forall i | 0 <= i < |s.out| ensures s.out[i] == if i < s.fed then Some(c.embed(c.texts[i])) else None {
        assert forall w :: w < |s.workers| ==> !Owes(s.workers, w, i);
      }
    }
  }

  /** The answer has no hole exactly when every chunk was sent. */
  lemma CompleteExactlyWhenAllSent(c: Job, actions: seq<Action>)
    requires ValidJob(c) && Run(c, actions).Some? && AllExited(Run(c, actions).value) && !Run(c, actions).value.badCall
    ensures var s := Run(c, actions).value;
      (forall i :: 0 <= i < |s.out| ==> s.out[i].Some?) <==> s.fed == |c.texts|
  {
    AnswerOfEveryRun(c, actions);
    var s := Run(c, actions).value;
    if s.fed < |c.texts| { assert s.out[s.fed].None?; }
  }

  /**
   When the workers are done and the caller did not cancel, the pool answers with the embedding
   of text i in slot i, unless some call misbehaved. Then it answers with the first error that
   reached the lock.
   */
  lemma PoolAnswer(c: Job, actions: seq<Action>)
    requires ValidJob(c) && Run(c, actions).Some?
    requires AllExited(Run(c, actions).value) && !Run(c, actions).value.callerCancelled
    ensures var s := Run(c, actions).value;
      if s.badCall then s.recorded != [] && Answer(s) == Failure(s.recorded[0])
      else Answer(s) == Success(s.out) && |s.out| == |c.texts|
           && forall i :: 0 <= i < |s.out| ==> s.out[i] == Some(c.embed(c.texts[i]))
  {
    RunKeepsInv(c, actions);
    AnswerOfEveryRun(c, actions);
    assert Run(c, actions).value.workers[0].Exited?;
  }

  /** Every interleaving: no two writes, by one worker or by two, ever hit the same slot. */
  lemma NoSlotWrittenTwice(c: Job, actions: seq<Action>, k: nat, m: nat)
    requires ValidJob(c) && Run(c, actions).Some?
    requires k < m < |Run(c, actions).value.writes|
    ensures Run(c, actions).value.writes[k].1 != Run(c, actions).value.writes[m].1
  {
    RunKeepsInv(c, actions);
  }

  /** The feeder never finds the channel full, whatever the workers did. */
  lemma FeederNeverBlocks(c: Job, actions: seq<Action>)
    requires ValidJob(c) && Run(c, actions).Some?
    ensures var s := Run(c, actions).value;
      && s.sent <= c.chunks
      && (s.feeder.Feeding? ==> Enabled(c, s, Send) || Enabled(c, s, FinishFeeding))
  {
    RunKeepsInv(c, actions);
    var s := Run(c, actions).value;
  }

  // ---------------------------------------------------------------- termination

  ghost function Span(j: Chunk): nat {
    if j.start <= j.end then j.end - j.start else 0
  }

  ghost function Work(w: Worker): nat {
    match w
    case Exited => 0
    case Cancelling => 1
    case Recording(_) => 2
    case Ranging => 1
    case Calling(j) => Span(j) + 3
    case Copying(_, vecs, done) => if done <= |vecs| then |vecs| - done + 2 else 2
  }

  ghost function TotalWork(ws: seq<Worker>): nat {
    if ws == [] then 0 else Work(ws[0]) + TotalWork(ws[1..])
  }

  ghost function QueuedWork(queue: seq<Chunk>): nat {
    if queue == [] then 0 else Span(queue[0]) + 3 + QueuedWork(queue[1..])
  }

  lemma {:induction false} TotalWorkUpdate(ws: seq<Worker>, k: nat, w: Worker)
    requires k < |ws|
    ensures TotalWork(ws[k := w]) + Work(ws[k]) == TotalWork(ws) + Work(w)
  {
    if k == 0 {
      assert ws[k := w][1..] == ws[1..];
    } else {
      assert ws[k := w][1..] == ws[1..][k - 1 := w];
      TotalWorkUpdate(ws[1..], k - 1, w);
    }
  }

  lemma {:induction false} QueuedWorkSnoc(queue: seq<Chunk>, j: Chunk)
    ensures QueuedWork(queue + [j]) == QueuedWork(queue) + Span(j) + 3
  {
    if queue == [] {
      assert (queue + [j])[1..] == [];
    } else {
      assert (queue + [j])[1..] == queue[1..] + [j];
      QueuedWorkSnoc(queue[1..], j);
    }
  }

  /** Bounds how many more steps any continuation of `s` can take. */
  ghost function Measure(c: Job, s: State): nat
    requires s.fed <= |c.texts|
  {
    5 * (|c.texts| - s.fed) + QueuedWork(s.queue) + TotalWork(s.workers)
    + (if s.feeder.Feeding? then 1 else 0) + (if s.callerCancelled then 0 else 1)
  }

  ghost predicate IsFeederAction(a: Action) {
    a.Send? || a.FinishFeeding? || a.StopFeeding? || a.CallerCancel?
  }

  lemma FeederStepDecreases(c: Job, s: State, a: Action)
    requires ValidJob(c) && Inv(c, s) && Enabled(c, s, a) && IsFeederAction(a)
    ensures Apply(c, s, a).fed <= |c.texts| && Measure(c, Apply(c, s, a)) < Measure(c, s)
  {
    if a.Send? { QueuedWorkSnoc(s.queue, Apply(c, s, a).queue[|s.queue|]); }
  }

  /** A step of one worker does some of its work, or takes a chunk out of the queue. */
  lemma WorkGoesDown(c: Job, s: State, a: Action)
    requires ValidJob(c) && Enabled(c, s, a) && !IsFeederAction(a) && WorkerOk(c, s, s.workers[a.w])
    ensures var s' := Apply(c, s, a);
      Work(s'.workers[a.w]) + QueuedWork(s'.queue) < Work(s.workers[a.w]) + QueuedWork(s.queue)
  {}

  lemma WorkerStepDecreases(c: Job, s: State, a: Action)
    requires ValidJob(c) && s.fed <= |c.texts| && Enabled(c, s, a) && !IsFeederAction(a) &&
        WorkerOk(c, s, s.workers[a.w])
    ensures Apply(c, s, a).fed <= |c.texts| && Measure(c, Apply(c, s, a)) < Measure(c, s)
  {
    var s' := Apply(c, s, a);
    WorkGoesDown(c, s, a);
    assert s'.workers == s.workers[a.w := s'.workers[a.w]];
    TotalWorkUpdate(s.workers, a.w, s'.workers[a.w]);
  }

  lemma StepDecreases(c: Job, s: State, a: Action)
    requires ValidJob(c) && Inv(c, s) && Enabled(c, s, a)
    ensures Apply(c, s, a).fed <= |c.texts| && Measure(c, Apply(c, s, a)) < Measure(c, s)
  {
    if IsFeederAction(a) { FeederStepDecreases(c, s, a); } else { WorkerStepDecreases(c, s, a); }
  }

  /** No run is longer than the initial measure: the pool cannot loop or wait for ever. */
  lemma {:induction false} RunIsBounded(c: Job, actions: seq<Action>)
    requires ValidJob(c) && Run(c, actions).Some?
    ensures Inv(c, Run(c, actions).value)
    ensures |actions| + Measure(c, Run(c, actions).value) <= Measure(c, Init(c))
  {
    if actions != [] {
      var last := |actions| - 1;
      RunIsBounded(c, actions[..last]);
      StepKeepsInv(c, Run(c, actions[..last]).value, actions[last]);
      StepDecreases(c, Run(c, actions[..last]).value, actions[last]);
    }
  }

  /**
   No deadlock: unless the feeder has closed the channel and every worker has exited, some
   goroutine can move, without any help from the caller's context. With RunIsBounded, every
   run that is continued long enough ends with all workers exited.
   */
  lemma NoDeadlock(c: Job, actions: seq<Action>)
    requires ValidJob(c) && Run(c, actions).Some?
    ensures var s := Run(c, actions).value;
      (AllExited(s) && s.feeder.Closed?) || exists a: Action :: !a.CallerCancel? && Enabled(c, s, a)
  {
    RunKeepsInv(c, actions);
    var s := Run(c, actions).value;
    if s.feeder.Feeding? {
      FeederNeverBlocks(c, actions);
    } else if w: nat :| w < |s.workers| && !s.workers[w].Exited? {
      assert WorkerOk(c, s, s.workers[w]);
      var a := match s.workers[w]
        case Ranging => if s.queue == [] then Leave(w) else Receive(w)
        case Calling(_) => Return(w, Failure(CallFailed("any")))
        case Copying(_, vecs, done) => if done < |vecs| then CopySlot(w) else CopyDone(w)
        case Recording(_) => Record(w)
        case _ => Cancel(w);
      assert Enabled(c, s, a);
    }
  }

  // ---------------------------------------------------------------- a cancelled caller

  /** The first `n` workers leave, one after the other. */
  ghost function Departures(n: nat): seq<Action> {
    if n == 0 then [] else Departures(n - 1) + [Leave(n - 1)]
  }

  /** The caller cancels at once, the feeder gives up before the first chunk, and workers leave. */
  ghost function CancelledRun(n: nat): seq<Action> {
    [CallerCancel, StopFeeding] + Departures(n)
  }

  lemma RunOneMore(c: Job, actions: seq<Action>, s: State, a: Action)
    requires ValidJob(c) && Run(c, actions) == Some(s) && Enabled(c, s, a)
    ensures Run(c, actions + [a]) == Some(Apply(c, s, a))
  {
    assert (actions + [a])[..|actions|] == actions;
  }

  /** The state after a cancelled run in which `n` workers have left. */
  ghost function Deserted(c: Job, n: nat): State
    requires ValidJob(c)
  {
    Init(c).(cancelled := true, callerCancelled := true, feeder := Closed,
             workers := seq(c.workers, w => if w < n then Exited else Ranging))
  }

  lemma FeederGivesUp(c: Job)
    requires ValidJob(c)
    ensures Run(c, CancelledRun(0)) == Some(Deserted(c, 0))
  {
    assert Run(c, []) == Some(Init(c));
    RunOneMore(c, [], Init(c), CallerCancel);
    RunOneMore(c, [] + [CallerCancel], Apply(c, Init(c), CallerCancel), StopFeeding);
    assert CancelledRun(0) == [] + [CallerCancel] + [StopFeeding];
    assert Init(c).workers == Deserted(c, 0).workers;
  }

  lemma WorkerLeaves(c: Job, n: nat)
    requires ValidJob(c) && n < c.workers
    ensures Enabled(c, Deserted(c, n), Leave(n)) && Apply(c, Deserted(c, n), Leave(n)) == Deserted(c, n + 1)
  {
    assert Deserted(c, n).workers[n := Exited] == Deserted(c, n + 1).workers;
  }

  lemma OneMoreLeaves(n: nat)
    requires n > 0
    ensures CancelledRun(n) == CancelledRun(n - 1) + [Leave(n - 1)]
  {
    assert [CallerCancel, StopFeeding] + (Departures(n - 1) + [Leave(n - 1)])
      == [CallerCancel, StopFeeding] + Departures(n - 1) + [Leave(n - 1)];
  }

  lemma {:induction false} WorkersLeave(c: Job, n: nat)
    requires ValidJob(c) && n <= c.workers
    ensures Run(c, CancelledRun(n)) == Some(Deserted(c, n))
  {
    if n == 0 {
      FeederGivesUp(c);
    } else {
      WorkersLeave(c, n - 1);
      WorkerLeaves(c, n - 1);
      RunOneMore(c, CancelledRun(n - 1), Deserted(c, n - 1), Leave(n - 1));
      OneMoreLeaves(n);
    }
  }

  /**
   The premise on the caller's context is needed for every job: there is a run in which only the
   caller cancels, no call misbehaves, and the pool answers without an error and without a vector.
   */
  lemma CallerCancelLeavesAHole(c: Job) returns (actions: seq<Action>)
    requires ValidJob(c)
    ensures Run(c, actions).Some? && AllExited(Run(c, actions).value) && !Run(c, actions).value.badCall
    ensures Answer(Run(c, actions).value) == Success(seq(|c.texts|, _ => None))
  {
    actions := CancelledRun(c.workers);
    WorkersLeave(c, c.workers);
  }
}
