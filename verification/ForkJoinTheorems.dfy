/** What parallelFor and parallelForAsync promise, for every state of every run. */
module ForkJoinTheorems {
  import opened Basics
  import opened ForkJoin
  import opened ForkJoinInvariants

  lemma BatchOf(run: seq<State>, i: nat, b: nat)
    requires IsRun(run) && i < |run| && b < |run[i].batches|
    ensures Inv(run[i]) && BatchOk(run[i], b) && IndicesOk(run[i], b)
  {
    RunInv(run, i);
  }

  // ---- Every index once ----

  lemma {:induction false} UptoOccurrences(n: nat, i: nat)
    ensures Occurrences(Upto(n), i) == One(i < n)
  {
    if n > 0 {
      UptoOccurrences(n - 1, i);
      UptoNext(n - 1);
      assert Upto(n)[..n - 1] == Upto(n - 1);
    }
  }

  /** However many threads drain a batch: every index below the count is handed out at most once, no other index
      is, and no call ends that has not begun; the counters stay within their bounds. */
  lemma IndicesHandedOutOnce(run: seq<State>, i: nat, b: nat, index: nat)
    requires IsRun(run) && i < |run| && b < |run[i].batches|
    ensures var x := run[i].batches[b];
      && Occurrences(x.work.started, index) == One(index < x.work.next && index < x.nature.count)
      && Occurrences(x.work.ended, index) <= Occurrences(x.work.started, index)
      && x.work.completed <= |x.work.ended| <= |x.work.started| == Min(x.work.next, x.nature.count)
      && x.drainers.left <= x.drainers.led + x.drainers.joined
      && x.drainers.led + x.drainers.joined <= run[i].workers + 1
      && x.drainers.led + x.drainers.joined <= (if x.nature.count == 0 then 1 else x.nature.count)
      && x.work.next <= x.nature.count + x.drainers.led + x.drainers.joined
  {
    BatchOf(run, i, b);
    var s := run[i];
    UptoOccurrences(Handed(s.batches[b]), index);
    assert Occurrences(s.batches[b].work.ended, index) + Total(Holding(b, index), s.threads) ==
      One(index < Handed(s.batches[b]));
  }

  /** No thread is inside fn for index `index` of batch b. */
  ghost predicate NotRunning(s: State, b: nat, index: nat) {
    forall t, p :: 0 <= t < |s.threads| && 0 <= p < |s.threads[t]| && s.threads[t][p].batch == b ==>
      s.threads[t][p].at != Run(index)
  }

  /** Every call of the batch has returned or thrown. */
  ghost predicate AllEnded(s: State, b: nat)
    requires b < |s.batches|
  {
    forall index: nat :: index < s.batches[b].nature.count ==>
      Occurrences(s.batches[b].work.ended, index) == 1 && NotRunning(s, b, index)
  }

  lemma NobodyHolds(s: State, b: nat, index: nat)
    requires Total(InFn(b), s.threads) == 0
    ensures Total(Holding(b, index), s.threads) == 0 && NotRunning(s, b, index)
  {
    if Total(Holding(b, index), s.threads) > 0 {
      var t, p := Heavy(Holding(b, index), s.threads);
      TotalWeighs(InFn(b), s.threads, t, p);
    }
    forall t, p | 0 <= t < |s.threads| && 0 <= p < |s.threads[t]| && s.threads[t][p].batch == b
      ensures s.threads[t][p].at != Run(index)
    {
      TotalWeighs(InFn(b), s.threads, t, p);
    }
  }

  lemma CompletedMeansEnded(s: State, b: nat)
    requires b < |s.batches| && BatchOk(s, b) && IndicesOk(s, b)
    requires !s.batches[b].nature.kind.Inline? && s.batches[b].work.completed == s.batches[b].nature.count
    ensures AllEnded(s, b) && |s.batches[b].work.ended| == s.batches[b].nature.count
  {
    var x := s.batches[b];
    forall index: nat | index < x.nature.count
      ensures Occurrences(x.work.ended, index) == 1 && NotRunning(s, b, index)
    {
      NobodyHolds(s, b, index);
      assert Occurrences(x.work.ended, index) + Total(Holding(b, index), s.threads) == One(index < Handed(x));
    }
  }

  /** onAllCompleted runs at most once, and only after every call of fn has returned or thrown. */
  lemma FiresOnceAfterAll(run: seq<State>, i: nat, b: nat)
    requires IsRun(run) && i < |run| && b < |run[i].batches|
    ensures run[i].batches[b].finish.fired <= 1
    ensures run[i].batches[b].finish.fired == 1 ==> AllEnded(run[i], b)
  {
    BatchOf(run, i, b);
    if run[i].batches[b].finish.fired > 0 && run[i].batches[b].nature.count > 0 {
      CompletedMeansEnded(run[i], b);
    }
  }

  // ---- What comes after ----

  ghost predicate BatchGrows(x: Batch, x': Batch) {
    x.work.started <= x'.work.started && SameNature(x, x') && x'.finish.fired >= x.finish.fired
  }

  lemma BatchStepGrows(x: Batch, f: Frame, workers: nat, spurious: bool, x': Batch, f': Option<Frame>)
    requires BatchStep(x, f, workers, spurious) == Some((x', f'))
    ensures BatchGrows(x, x')
  {
  }

  lemma OneStepGrows(s: State, t: nat, spurious: bool, s': State, b: nat)
    requires Next(s, Step(t, spurious)) == Some(s') && b < |s.batches|
    ensures |s.batches| == |s'.batches| && BatchGrows(s.batches[b], s'.batches[b])
  {
    var f := Top(s.threads[t]);
    var (x', f') := BatchStep(s.batches[f.batch], f, s.workers, spurious).value;
    BatchStepGrows(s.batches[f.batch], f, s.workers, spurious, x', f');
    assert s'.batches == s.batches[f.batch := x'];
  }

  /** A call makes a new batch; a helper that is taken or destroyed is only counted. */
  lemma OtherEventsGrow(s: State, e: Event, s': State, b: nat)
    requires Next(s, e) == Some(s') && !e.Step? && b < |s.batches|
    ensures |s.batches| <= |s'.batches| && BatchGrows(s.batches[b], s'.batches[b])
  {
    match e {
      case Call(t, count, kind) =>
        assert s'.batches[b] == s.batches[b];
      case TakeHelper(w, c) =>
        assert s'.batches[b] == s.batches[b] || b == c;
      case LoseHelper(c) =>
        assert s'.batches[b] == s.batches[b] || b == c;
    }
  }

  lemma LogsGrow(s: State, s': State, b: nat)
    requires IsStep(s, s') && b < |s.batches|
    ensures |s.batches| <= |s'.batches| && BatchGrows(s.batches[b], s'.batches[b])
  {
    var e :| Next(s, e) == Some(s');
    if e.Step? {
      OneStepGrows(s, e.thread, e.spurious, s', b);
    } else {
      OtherEventsGrow(s, e, s', b);
    }
  }

  lemma {:induction false} FiredStays(run: seq<State>, i: nat, j: nat, b: nat)
    requires IsRun(run) && i <= j < |run| && b < |run[i].batches|
    ensures b < |run[j].batches| && BatchGrows(run[i].batches[b], run[j].batches[b])
  {
    if i < j {
      FiredStays(run, i, j - 1, b);
      assert StepAt(run, j);
      LogsGrow(run[j - 1], run[j], b);
    }
  }

  /** Once onAllCompleted has begun, fn is never called again: what it refers to may be destroyed, although helpers
      may still come to the dispenser. */
  lemma NoCallAfterFired(run: seq<State>, i: nat, j: nat, b: nat)
    requires IsRun(run) && i <= j < |run| && b < |run[i].batches| && run[i].batches[b].finish.fired > 0
    ensures b < |run[j].batches| && AllEnded(run[j], b)
    ensures run[j].batches[b].work.started == run[i].batches[b].work.started
  {
    FiredStays(run, i, j, b);
    BatchOf(run, i, b);
    BatchOf(run, j, b);
    FiresOnceAfterAll(run, j, b);
    if run[i].batches[b].nature.count > 0 {
      assert |run[i].batches[b].work.started| == run[i].batches[b].nature.count;
    }
  }

  /** The topmost code of thread t is a parallelFor that it has called itself, with a count of two or more. */
  predicate InParallelFor(s: State, t: nat) {
    && t < |s.threads| && s.threads[t] != [] && Top(s.threads[t]).initiator
    && Top(s.threads[t]).batch < |s.batches| && s.batches[Top(s.threads[t]).batch].nature.kind.Sync?
  }

  /** parallelFor with a count of two or more returns, from wherever it is, only when every call of fn has returned or
      thrown. */
  lemma ParallelForReturns(run: seq<State>, i: nat, t: nat)
    requires IsRun(run) && 0 < i < |run| && InParallelFor(run[i - 1], t) && t < |run[i].threads|
    requires run[i].threads[t] == Below(run[i - 1].threads[t])
    ensures var b := Top(run[i - 1].threads[t]).batch; b < |run[i].batches| && AllEnded(run[i], b)
  {
    var s, s' := run[i - 1], run[i];
    var b := Top(s.threads[t]).batch;
    RunInv(run, i - 1);
    assert ThreadOk(s, t) && FramesOk(s, t, |s.threads[t]| - 1);
    assert StepAt(run, i);
    ReturnsWhenDone(s, s', t);
    BatchOf(run, i - 1, b);
    NoCallAfterFired(run, i - 1, i, b);
  }

  lemma ReturnsWhenDone(s: State, s': State, t: nat)
    requires IsStep(s, s') && t < |s.threads| && t < |s'.threads| && s.threads[t] != []
    requires InParallelFor(s, t) && !Top(s.threads[t]).at.Finale? && !Top(s.threads[t]).at.Direct?
    requires s'.threads[t] == Below(s.threads[t])
    ensures s.batches[Top(s.threads[t]).batch].finish.done
  {
    var e :| Next(s, e) == Some(s');
    assert |s'.threads[t]| == |s.threads[t]| - 1;
  }

  /** No wakeup is lost: a caller that is blocked and not notified waits for a batch that is not done. */
  lemma SleeperIsNotForgotten(run: seq<State>, i: nat, b: nat)
    requires IsRun(run) && i < |run| && b < |run[i].batches| && run[i].batches[b].finish.blocked
    ensures !run[i].batches[b].finish.done && run[i].batches[b].finish.fired == 0
  {
    BatchOf(run, i, b);
  }

  /** The onAllCompleted of a parallelForAsync runs on a worker that took a helper, at the bottom of its stack:
      never inside the call that started the batch. */
  lemma AsyncEndsOnWorker(run: seq<State>, i: nat, t: nat, p: nat)
    requires IsRun(run) && i < |run| && t < |run[i].threads| && p < |run[i].threads[t]|
    requires run[i].threads[t][p].at.Finale?
    ensures t < run[i].workers && p == 0 && !run[i].threads[t][p].initiator
  {
    RunInv(run, i);
    assert ThreadOk(run[i], t) && FramesOk(run[i], t, p);
  }

  // ---- Nothing is left undone ----

  ghost predicate NobodyWorksOn(s: State, b: nat) {
    forall t, p :: 0 <= t < |s.threads| && 0 <= p < |s.threads[t]| ==> s.threads[t][p].batch != b
  }

  /** No initiator is enqueueing helpers of the batch. */
  ghost predicate NobodyLaunches(s: State, b: nat) {
    forall t, p :: 0 <= t < |s.threads| && 0 <= p < |s.threads[t]| && s.threads[t][p].batch == b ==>
      !s.threads[t][p].at.Launch?
  }

  /** The helpers of a batch that have been enqueued: those that are queued, were destroyed, or have begun. */
  function Enqueued(x: Batch): nat {
    x.drainers.helpers + x.drainers.lost + x.drainers.joined
  }

  lemma {:induction false} NoneToQueue(b: nat, helpers: nat, stack: Stack)
    requires forall p :: 0 <= p < |stack| && stack[p].batch == b ==> !stack[p].at.Launch?
    ensures StackSum(ToQueue(b, helpers), stack) == 0
  {
    if stack != [] {
      NoneToQueue(b, helpers, Below(stack));
    }
  }

  /** The helpers of a batch, once its initiator has enqueued them: for a parallelFor one per further index, for a
      parallelForAsync one per index, or one if there is none, and never more than there are workers. */
  lemma HelpersEnqueued(run: seq<State>, i: nat, b: nat)
    requires IsRun(run) && i < |run| && b < |run[i].batches| && NobodyLaunches(run[i], b)
    ensures var x, workers := run[i].batches[b], run[i].workers;
      match x.nature.kind
      case Sync => Enqueued(x) == if x.nature.count - 1 <= workers then x.nature.count - 1 else workers
      case Async =>
        Enqueued(x) == if x.nature.count == 0 then 1 else if x.nature.count <= workers then x.nature.count else workers
      case Inline => Enqueued(x) == 0
  {
    var s, x := run[i], run[i].batches[b];
    BatchOf(run, i, b);
    var helpers := HelperCount(x.nature.kind, x.nature.count, s.workers);
    forall t | 0 <= t < |s.threads| ensures StackSum(ToQueue(b, helpers), s.threads[t]) == 0 {
      NoneToQueue(b, helpers, s.threads[t]);
    }
    TotalZero(ToQueue(b, helpers), s.threads);
  }

  lemma NoFrames(m: Measure, s: State)
    requires NobodyWorksOn(s, m.batch)
    ensures Total(m, s.threads) == 0
  {
    forall t | 0 <= t < |s.threads| ensures StackSum(m, s.threads[t]) == 0 {
      StackZero(m, s.threads[t]);
    }
    TotalZero(m, s.threads);
  }

  /** When nobody works on a batch any more and no helper of it is queued, every index has been run once and
      onAllCompleted has run once, unless every helper of a parallelForAsync was destroyed before it began. */
  lemma NothingLeftUndone(run: seq<State>, i: nat, b: nat)
    requires IsRun(run) && i < |run| && b < |run[i].batches| && run[i].workers > 0
    requires NobodyWorksOn(run[i], b) && run[i].batches[b].drainers.helpers == 0
    ensures var x := run[i].batches[b];
      || (AllEnded(run[i], b) && x.finish.fired == One(!x.nature.kind.Inline?))
      || (x.nature.kind.Async? && x.drainers.joined == 0 && x.drainers.lost > 0 && x.drainers.lost ==
          if x.nature.count == 0 then 1 else if x.nature.count <= run[i].workers then x.nature.count
          else run[i].workers)
  {
    var s, x := run[i], run[i].batches[b];
    BatchOf(run, i, b);
    NoFrames(InFn(b), s);
    NoFrames(Counting(b), s);
    NoFrames(Firing(b), s);
    NoFrames(Draining(b), s);
    NoFrames(ToQueue(b, HelperCount(x.nature.kind, x.nature.count, s.workers)), s);
    NoFrames(Launching(b), s);
    forall index: nat | index < x.nature.count && x.work.next >= x.nature.count
      ensures Occurrences(x.work.ended, index) == 1 && NotRunning(s, b, index)
    {
      NobodyHolds(s, b, index);
      assert Occurrences(x.work.ended, index) + Total(Holding(b, index), s.threads) == One(index < Handed(x));
    }
  }

  // ---- No deadlock ----

  /** The thread is blocked on `allDone` and has not been notified. */
  predicate IsBlocked(s: State, t: nat) {
    && t < |s.threads| && s.threads[t] != [] && Top(s.threads[t]).at.Blocked?
    && Top(s.threads[t]).batch < |s.batches| && s.batches[Top(s.threads[t]).batch].finish.blocked
  }

  /** Batch c is b, or was started by code that runs for a batch within b. */
  predicate Within(batches: seq<Batch>, c: nat, b: nat)
    decreases c
  {
    c == b || (c < |batches| && batches[c].nature.parent.Some? && batches[c].nature.parent.value < c &&
               Within(batches, batches[c].nature.parent.value, b))
  }

  /** The thread is executing an index of batch b, or its completion. */
  ghost predicate Executes(s: State, t: nat, b: nat) {
    t < |s.threads| && exists p :: 0 <= p < |s.threads[t]| && ExecutesAt(s.threads[t][p], b)
  }

  predicate ExecutesAt(f: Frame, b: nat) {
    f.batch == b && (f.at.Run? || f.at.Ended? || f.at.Fire? || f.at.Finale?)
  }

  lemma {:induction false} WithinTrans(batches: seq<Batch>, d: nat, c: nat, b: nat)
    requires Within(batches, d, c) && Within(batches, c, b)
    ensures Within(batches, d, b)
  {
    if d != c {
      WithinTrans(batches, batches[d].nature.parent.value, c, b);
    }
  }

  /** The frames of one thread are nested. */
  lemma {:induction false} StackNests(s: State, t: nat, p: nat, q: nat)
    requires Inv(s) && t < |s.threads| && p <= q < |s.threads[t]|
    ensures s.threads[t][p].batch <= s.threads[t][q].batch < |s.batches|
    ensures p < q ==> s.threads[t][p].batch < s.threads[t][q].batch
    ensures Within(s.batches, s.threads[t][q].batch, s.threads[t][p].batch)
  {
    assert ThreadOk(s, t) && FramesOk(s, t, q);
    if p < q {
      StackNests(s, t, p, q - 1);
      assert FramesOk(s, t, q - 1);
      assert BatchOk(s, s.threads[t][q].batch);
      assert Within(s.batches, s.threads[t][q].batch, s.threads[t][q - 1].batch);
      WithinTrans(s.batches, s.threads[t][q].batch, s.threads[t][q - 1].batch, s.threads[t][p].batch);
    }
  }

  /** A batch that somebody waits for, and that is not done, is being executed by some thread. */
  lemma SomebodyExecutes(s: State, b: nat, t: nat) returns (u: nat, p: nat)
    requires Inv(s) && t < |s.threads| && IsBlocked(s, t) && Top(s.threads[t]).batch == b
    ensures u < |s.threads| && p < |s.threads[u]| && ExecutesAt(s.threads[u][p], b)
  {
    var x, top := s.batches[b], |s.threads[t]| - 1;
    assert BatchOk(s, b) && ThreadOk(s, t) && FramesOk(s, t, top);
    TotalWeighs(Waiting(b), s.threads, t, top);
    if x.work.completed == x.nature.count {
      u, p := Heavy(Firing(b), s.threads);
    } else if Total(Counting(b), s.threads) > 0 {
      u, p := Heavy(Counting(b), s.threads);
    } else {
      u, p := Heavy(InFn(b), s.threads);
      assert ThreadOk(s, u) && FramesOk(s, u, p);
    }
  }

  /** Nested parallelFor calls cannot deadlock: whenever a caller is blocked on its batch, some thread that is not
      blocked is executing an index of that batch or of a batch nested in it. */
  lemma {:induction false} BlockedHasWorker(s: State, t: nat) returns (u: nat, c: nat)
    requires Inv(s) && IsBlocked(s, t)
    ensures c < |s.batches| && Within(s.batches, c, Top(s.threads[t]).batch)
    ensures Executes(s, u, c) && !IsBlocked(s, u)
    decreases |s.batches| - Top(s.threads[t]).batch
  {
    var b, p;
    b := Top(s.threads[t]).batch;
    u, p := SomebodyExecutes(s, b, t);
    c := b;
    if IsBlocked(s, u) {
      var d := Top(s.threads[u]).batch;
      StackNests(s, u, p, |s.threads[u]| - 1);
      u, c := BlockedHasWorker(s, u);
      WithinTrans(s.batches, c, d, b);
    }
  }

  lemma NestedCallsCannotDeadlock(run: seq<State>, i: nat, t: nat)
    requires IsRun(run) && i < |run| && IsBlocked(run[i], t)
    ensures exists u, c ::
      Within(run[i].batches, c, Top(run[i].threads[t]).batch) && Executes(run[i], u, c) && !IsBlocked(run[i], u)
  {
    RunInv(run, i);
    var u, c := BlockedHasWorker(run[i], t);
  }

  predicate CanStep(s: State, t: nat) {
    Next(s, Step(t, false)).Some?
  }

  /** A thread that is in the middle of something and is not blocked can make a step. */
  lemma UnblockedCanStep(s: State, t: nat)
    requires Inv(s) && t < |s.threads| && s.threads[t] != [] && !IsBlocked(s, t)
    ensures CanStep(s, t)
  {
    assert ThreadOk(s, t) && FramesOk(s, t, |s.threads[t]| - 1);
  }

  /** As long as any thread is in the middle of something, some thread can make a step, without help from any
      queued helper. */
  lemma NeverStuck(run: seq<State>, i: nat, t: nat)
    requires IsRun(run) && i < |run| && t < |run[i].threads| && run[i].threads[t] != []
    ensures exists u :: CanStep(run[i], u)
  {
    RunInv(run, i);
    if IsBlocked(run[i], t) {
      var u, c := BlockedHasWorker(run[i], t);
      UnblockedCanStep(run[i], u);
    } else {
      UnblockedCanStep(run[i], t);
    }
  }
}
