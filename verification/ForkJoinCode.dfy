/**
 parallelFor and drainIndices of threading/cthreadpool.h as code over shared words, run by one thread while others
 move. Every method that touches the words is one step of the machine of module ForkJoin; `history` records the
 states and `Valid` says that they are a run of it. What the user's function does is a plan: the parallelFor calls
 that each of its calls makes, to any depth.
 */
module ForkJoinCode {
  import opened Basics
  import opened ForkJoin
  import opened ForkJoinInvariants
  import opened ForkJoinTheorems

  datatype Plan = Plan(calls: seq<Nested>)

  /** A call of parallelFor or of parallelForAsync; the plan of the latter is for the workers. */
  datatype Nested = Nested(count: nat, plan: Plan, isAsync: bool)

  /** How deep the calls of a plan nest. */
  function Depth(plan: Plan): nat {
    1 + DepthOfAll(plan.calls)
  }

  function DepthOfAll(calls: seq<Nested>): nat {
    if calls == [] then 0 else Max(NestedDepth(calls[0]), DepthOfAll(calls[1..]))
  }

  function NestedDepth(call: Nested): nat {
    Depth(call.plan)
  }

  function Max(a: nat, b: nat): nat {
    if a < b then b else a
  }

  lemma {:induction false} NestedIsLess(calls: seq<Nested>, i: nat)
    requires i < |calls|
    ensures Depth(calls[i].plan) <= DepthOfAll(calls)
  {
    if i > 0 {
      NestedIsLess(calls[1..], i - 1);
    }
  }

  lemma RunGrows(run: seq<State>, e: Event, s: State)
    requires IsRun(run) && Next(run[|run| - 1], e) == Some(s)
    ensures IsRun(run + [s])
  {
    var run' := run + [s];
    forall i | 0 < i < |run'| ensures StepAt(run', i) {
      if i < |run| {
        assert StepAt(run, i);
      } else {
        assert IsStep(run[|run| - 1], s);
      }
    }
  }

  /** Batches keep their nature, and dispensers and the numbers of helpers enqueued only move on. */
  ghost predicate Grown(a: seq<Batch>, b: seq<Batch>) {
    |a| <= |b| && forall i :: 0 <= i < |a| ==>
      SameNature(a[i], b[i]) && a[i].work.next <= b[i].work.next && Enqueued(a[i]) <= Enqueued(b[i])
  }

  lemma BatchStepMovesOn(x: Batch, f: Frame, workers: nat, spurious: bool, x': Batch, f': Option<Frame>)
    requires BatchStep(x, f, workers, spurious) == Some((x', f'))
    ensures SameNature(x, x') && x.work.next <= x'.work.next && Enqueued(x) <= Enqueued(x')
  {
  }

  lemma StepGrows(s: State, e: Event, s': State)
    requires Next(s, e) == Some(s')
    ensures Grown(s.batches, s'.batches) && |s'.threads| == |s.threads| && s'.workers == s.workers
  {
    if e.Step? {
      var f := Top(s.threads[e.thread]);
      var (x', f') := BatchStep(s.batches[f.batch], f, s.workers, e.spurious).value;
      BatchStepMovesOn(s.batches[f.batch], f, s.workers, e.spurious, x', f');
    }
  }

  /** The event is a step of thread t, or puts a frame on its stack. */
  predicate Concerns(e: Event, t: nat) {
    match e
    case Step(u, _) => u == t
    case Call(u, _, _) => u == t
    case TakeHelper(u, _) => u == t
    case LoseHelper(_) => false
  }

  /** No thread but t has a frame of batch b, and t has none below its topmost one. */
  ghost predicate Alone(s: State, t: nat, b: nat) {
    && (forall u, p :: 0 <= u < |s.threads| && u != t && 0 <= p < |s.threads[u]| ==> s.threads[u][p].batch != b)
    && t < |s.threads| && s.threads[t] != [] && forall p :: 0 <= p < |s.threads[t]| - 1 ==> s.threads[t][p].batch != b
  }

  /** A batch that only its initiator has worked on is done when the initiator comes to wait for it. */
  lemma AloneIsDone(s: State, t: nat, b: nat)
    requires Inv(s) && b < |s.batches| && Alone(s, t, b) && Top(s.threads[t]) == Frame(b, true, Check)
    ensures s.batches[b].finish.done
  {
    var top := |s.threads[t]| - 1;
    assert BatchOk(s, b) && ThreadOk(s, t) && FramesOk(s, t, top);
    TotalWeighs(Waiting(b), s.threads, t, top);
    NoneAtWork(s, t, b, InFn(b));
    NoneAtWork(s, t, b, Counting(b));
    NoneAtWork(s, t, b, Firing(b));
  }

  /** All frames belong to batches before b. */
  ghost predicate Older(threads: seq<Stack>, b: nat) {
    forall u, p :: 0 <= u < |threads| && 0 <= p < |threads[u]| ==> threads[u][p].batch < b
  }

  lemma FramesAreOld(s: State)
    requires Inv(s)
    ensures Older(s.threads, |s.batches|)
  {
    forall u, p | 0 <= u < |s.threads| && 0 <= p < |s.threads[u]| ensures s.threads[u][p].batch < |s.batches| {
      assert ThreadOk(s, u) && FramesOk(s, u, p);
    }
  }

  /** A batch that is new has no frame anywhere, and gets none on stacks that stay as they are. */
  lemma NewIsAlone(threads: seq<Stack>, s: State, t: nat, b: nat)
    requires Older(threads, b) && |s.threads| == |threads| && t < |threads|
    requires s.threads[t] == threads[t] + [Frame(b, true, Check)]
    requires forall u :: 0 <= u < |threads| && u != t ==> s.threads[u] == threads[u]
    ensures Alone(s, t, b)
  {
  }

  lemma NoneAtWork(s: State, t: nat, b: nat, m: Measure)
    requires Alone(s, t, b) && Top(s.threads[t]) == Frame(b, true, Check)
    requires m == InFn(b) || m == Counting(b) || m == Firing(b)
    ensures Total(m, s.threads) == 0
  {
    if Total(m, s.threads) > 0 {
      var u, p := Heavy(m, s.threads);
    }
  }

  // ---- What the functions do ----

  /** What the code of a thread has done, the last of it outermost, each with the depth of the stack of the code that
      did it: fn or a completion is begun, or one of them calls parallelFor or parallelForAsync. */
  datatype Log = Nothing | Begun(before: Log, depth: nat) | Logged(before: Log, depth: nat, call: Nested)

  /** The calls that code at one depth of the stack has made. */
  function MadeAt(log: Log, depth: nat): seq<Nested> {
    match log
    case Nothing => []
    case Begun(before, _) => MadeAt(before, depth)
    case Logged(before, d, call) => MadeAt(before, depth) + if d == depth then [call] else []
  }

  /** How often fn or a completion was begun at one depth of the stack. */
  function BegunAt(log: Log, depth: nat): nat {
    match log
    case Nothing => 0
    case Begun(before, d) => BegunAt(before, depth) + if d == depth then 1 else 0
    case Logged(before, _, _) => BegunAt(before, depth)
  }

  /** Code below this depth has done nothing. */
  ghost predicate BelowKept(a: Log, b: Log, depth: nat) {
    forall d: nat :: d < depth ==> MadeAt(b, d) == MadeAt(a, d) && BegunAt(b, d) == BegunAt(a, d)
  }

  /** At this depth fn and completions were begun so often, and have made these calls, in this order; and code below it
      has done nothing. */
  ghost predicate Made(a: Log, b: Log, depth: nat, n: nat, calls: seq<Nested>) {
    && BelowKept(a, b, depth) && MadeAt(b, depth) == MadeAt(a, depth) + calls
    && BegunAt(b, depth) == BegunAt(a, depth) + n
  }

  lemma MadeThen(a: Log, b: Log, c: Log, depth: nat, m: nat, x: seq<Nested>, n: nat, y: seq<Nested>)
    requires Made(a, b, depth, m, x) && Made(b, c, depth, n, y)
    ensures Made(a, c, depth, m + n, x + y)
  {
    assert MadeAt(a, depth) + x + y == MadeAt(a, depth) + (x + y);
  }

  lemma BegunThen(a: Log, b: Log, depth: nat, n: nat, calls: seq<Nested>)
    requires Made(Begun(a, depth), b, depth, n, calls)
    ensures Made(a, b, depth, n + 1, calls)
  {
  }

  lemma OneMoreCall(a: Log, b: Log, c: Log, depth: nat, calls: seq<Nested>, i: nat)
    requires i < |calls| && Made(a, b, depth, 0, calls[..i]) && Made(b, c, depth, 0, [calls[i]])
    ensures Made(a, c, depth, 0, calls[..i + 1])
  {
    MadeThen(a, b, c, depth, 0, calls[..i], 0, [calls[i]]);
    assert calls[..i + 1] == calls[..i] + [calls[i]];
  }

  lemma OneMoreIndex(a: Log, b: Log, c: Log, depth: nat, ran: Ran, last: bool, plan: Plan, finale: Plan)
    requires Made(a, b, depth, Times(ran), CallsOf(ran, plan, finale))
    requires Made(Begun(b, depth), c, depth, if last then 1 else 0, CallsOfIndex(plan, finale, last))
    ensures Made(a, c, depth, Times(Index(ran, last)), CallsOf(Index(ran, last), plan, finale))
  {
    BegunThen(b, c, depth, if last then 1 else 0, CallsOfIndex(plan, finale, last));
    MadeThen(a, b, c, depth, Times(ran), CallsOf(ran, plan, finale), if last then 2 else 1,
             CallsOfIndex(plan, finale, last));
  }

  /** What a drain has run: fn for some indices, each perhaps followed by the completion. */
  datatype Ran = NoIndex | Index(before: Ran, last: bool)

  /** The calls that make up a run of fn, with the completion behind it if the index is the last. */
  function CallsOfIndex(plan: Plan, finale: Plan, last: bool): seq<Nested> {
    plan.calls + if last then finale.calls else []
  }

  function CallsOf(ran: Ran, plan: Plan, finale: Plan): seq<Nested> {
    match ran
    case NoIndex => []
    case Index(before, last) => CallsOf(before, plan, finale) + CallsOfIndex(plan, finale, last)
  }

  /** How often fn and the completion were begun. */
  function Times(ran: Ran): nat {
    match ran
    case NoIndex => 0
    case Index(before, last) => Times(before) + if last then 2 else 1
  }

  class ForkJoinPool {
    const workers: nat
    var batches: seq<Batch>
    var threads: seq<Stack>
    var schedule: seq<seq<Event>>
    ghost var history: seq<State>
    ghost var log: Log

    function Now(): State
      reads this
    {
      State(workers, batches, threads)
    }

    ghost predicate Valid()
      reads this
    {
      IsRun(history) && history[|history| - 1] == Now()
    }

    /** One step that concerns thread t. */
    twostate predicate Stepped(t: nat, e: Event)
      reads this
    {
      && Valid() && Next(old(Now()), e) == Some(Now()) && Concerns(e, t)
      && history == old(history) + [Now()] && schedule == old(schedule)
    }

    /** Any number of steps: dispensers move on, and while nobody else moves, the other stacks stay as they are. */
    twostate predicate Lasted(t: nat)
      reads this
    {
      && Valid() && old(history) <= history && Grown(old(batches), batches) && |threads| == old(|threads|)
      && |schedule| <= old(|schedule|)
      && (old(schedule) == [] ==> forall u :: 0 <= u < |threads| && u != t ==> threads[u] == old(threads[u]))
    }

    /** The schedule has run out while thread t is blocked on allDone and has not been notified. */
    predicate GivenUp(t: nat)
      reads this
    {
      && schedule == [] && t < |threads| && threads[t] != [] && Top(threads[t]).at.Blocked?
      && Top(threads[t]).batch < |batches| && batches[Top(threads[t]).batch].finish.blocked
    }

    constructor (workers: nat, threads: nat, schedule: seq<seq<Event>>)
      ensures Valid() && Now() == Initial(workers, threads) && this.schedule == schedule
    {
      this.workers, batches, this.threads, this.schedule := workers, [], seq(threads, _ => []), schedule;
      history, log := [Initial(workers, threads)], Nothing;
    }

    ghost method Record(e: Event, before: State)
      requires IsRun(history) && history[|history| - 1] == before && Next(before, e) == Some(Now())
      modifies this`history
      ensures Valid() && history == old(history) + [Now()]
    {
      RunGrows(history, e, Now());
      history := history + [Now()];
    }

    /** The other threads run. */
    method Others(t: nat)
      requires Valid() && t < |threads|
      modifies this
      ensures Lasted(t) && threads[t] == old(threads[t]) && log == old(log)
      ensures schedule == if old(schedule) == [] then [] else old(schedule)[1..]
    {
      if schedule == [] {
        return;
      }
      var events := schedule[0];
      schedule := schedule[1..];
      for i := 0 to |events|
        invariant Lasted(t) && threads[t] == old(threads[t]) && log == old(log) && schedule == old(schedule)[1..]
      {
        if !Concerns(events[i], t) {
          Happen(t, events[i]);
        }
      }
    }

    method Happen(t: nat, e: Event)
      requires Valid() && t < |threads| && !Concerns(e, t)
      modifies this
      ensures Valid() && old(history) <= history && Grown(old(batches), batches) && |threads| == old(|threads|)
      ensures threads[t] == old(threads[t]) && schedule == old(schedule) && log == old(log)
    {
      var next := Next(Now(), e);
      if next.Some? {
        StepGrows(Now(), e, next.value);
        RunGrows(history, e, next.value);
        batches, threads := next.value.batches, next.value.threads;
        history := history + [Now()];
      }
    }

    /** The topmost frame of t and its batch change. */
    ghost predicate At(t: nat, below: Stack, b: nat, initiator: bool, at: At)
      reads this
    {
      t < |threads| && b < |batches| && threads[t] == below + [Frame(b, initiator, at)]
    }

    /** `nextIndex.fetch_add(1)`, and the call of fn or the end of the drain. */
    method FetchIndex(t: nat, ghost below: Stack, b: nat, initiator: bool) returns (index: nat)
      requires Valid() && At(t, below, b, initiator, Fetch)
      modifies this
      ensures Stepped(t, Step(t, false)) && Lasted(t)
      ensures log == if index < batches[b].nature.count then Begun(old(log), |below| + 1) else old(log)
      ensures index == old(batches[b]).work.next && batches[b].work.next == index + 1
      ensures threads[t] == below + if index < batches[b].nature.count then [Frame(b, initiator, Run(index))]
                                    else if initiator then [Frame(b, true, Check)] else []
    {
      ghost var before := Now();
      var x := batches[b];
      index := x.work.next;
      if index >= x.nature.count {
        var d := x.drainers;
        batches := batches[b := x.(work := x.work.(next := index + 1), drainers := d.(left := d.left + 1))];
        threads := threads[t := Below(threads[t]) + if initiator then [Frame(b, true, Check)] else []];
      } else {
        batches := batches[b := x.(work := x.work.(next := index + 1, started := x.work.started + [index]))];
        threads := threads[t := Below(threads[t]) + [Frame(b, initiator, Run(index))]];
        log := Begun(log, |threads[t]|);
      }
      StepGrows(before, Step(t, false), Now());
      Record(Step(t, false), before);
    }

    /** fn(index) returns, or throws, which is contained. */
    method EndCall(t: nat, ghost below: Stack, b: nat, initiator: bool, index: nat)
      requires Valid() && At(t, below, b, initiator, Run(index))
      modifies this
      ensures Stepped(t, Step(t, false)) && Lasted(t) && log == old(log)
      ensures threads[t] == below + [Frame(b, initiator, Ended(index))]
    {
      ghost var before := Now();
      var x := batches[b];
      batches := batches[b := x.(work := x.work.(ended := x.work.ended + [index]))];
      threads := threads[t := Below(threads[t]) + [Frame(b, initiator, Ended(index))]];
      StepGrows(before, Step(t, false), Now());
      Record(Step(t, false), before);
    }

    /** `completedCount.fetch_add(1) + 1 == count`. */
    method CountCompleted(t: nat, ghost below: Stack, b: nat, initiator: bool, ghost index: nat) returns (last: bool)
      requires Valid() && At(t, below, b, initiator, Ended(index))
      modifies this
      ensures Stepped(t, Step(t, false)) && Lasted(t) && log == old(log)
      ensures threads[t] == below + [Frame(b, initiator, if last then Fire else Fetch)]
    {
      ghost var before := Now();
      var x := batches[b];
      last := x.work.completed + 1 == x.nature.count;
      batches := batches[b := x.(work := x.work.(completed := x.work.completed + 1))];
      threads := threads[t := Below(threads[t]) + [Frame(b, initiator, if last then Fire else Fetch)]];
      StepGrows(before, Step(t, false), Now());
      Record(Step(t, false), before);
    }

    /** The onAllCompleted of parallelFor: under the mutex, `done` is set and the caller notified. */
    method SetDone(t: nat, ghost below: Stack, b: nat, initiator: bool)
      requires Valid() && At(t, below, b, initiator, Fire) && !batches[b].nature.kind.Async?
      modifies this
      ensures Stepped(t, Step(t, false)) && Lasted(t) && log == old(log)
      ensures threads[t] == below + [Frame(b, initiator, Fetch)] && batches[b].finish.done
    {
      ghost var before := Now();
      var x := batches[b];
      batches := batches[b := x.(finish := Finish(x.finish.fired + 1, true, false))];
      threads := threads[t := Below(threads[t]) + [Frame(b, initiator, Fetch)]];
      StepGrows(before, Step(t, false), Now());
      Record(Step(t, false), before);
    }

    /** The call of parallelFor with a count of two or more: the batch exists, and nobody has worked on it. */
    method NewSyncBatch(t: nat, count: nat) returns (b: nat)
      requires Valid() && t < |threads| && InUserCode(threads[t]) && count >= 2
      modifies this
      ensures Stepped(t, Call(t, count, Sync)) && Lasted(t) && log == old(log)
      ensures b == old(|batches|) == |batches| - 1 && At(t, old(threads[t]), b, true, Launch(0))
      ensures batches[b].nature.count == count && batches[b].nature.kind.Sync? && batches[b].work.next == 0
    {
      ghost var before := Now();
      b := |batches|;
      var parent := if threads[t] == [] then None else Some(Top(threads[t]).batch);
      batches := batches + [NewBatch(count, Sync, parent)];
      threads := threads[t := threads[t] + [Frame(b, true, Launch(0))]];
      StepGrows(before, Call(t, count, Sync), Now());
      Record(Call(t, count, Sync), before);
    }

    /** The call of parallelFor with a count of one, which calls fn. */
    method CallDirectly(t: nat, ghost count: nat) returns (b: nat)
      requires Valid() && t < |threads| && InUserCode(threads[t]) && count == 1
      modifies this
      ensures Stepped(t, Call(t, count, Sync)) && Lasted(t) && log == Begun(old(log), |threads[t]|)
      ensures b == old(|batches|) == |batches| - 1 && At(t, old(threads[t]), b, true, Direct)
      ensures batches[b].nature.count == 1
    {
      ghost var before := Now();
      b := |batches|;
      var parent := if threads[t] == [] then None else Some(Top(threads[t]).batch);
      batches := batches + [NewBatch(1, Inline, parent)];
      threads := threads[t := threads[t] + [Frame(b, true, Direct)]];
      log := Begun(log, |threads[t]|);
      StepGrows(before, Call(t, count, Sync), Now());
      Record(Call(t, count, Sync), before);
    }

    /** The direct call returns. */
    method EndDirectCall(t: nat, ghost below: Stack, b: nat)
      requires Valid() && At(t, below, b, true, Direct)
      modifies this
      ensures Stepped(t, Step(t, false)) && Lasted(t) && log == old(log)
      ensures threads[t] == below && b < |batches| && 0 in batches[b].work.ended
    {
      ghost var before := Now();
      var x := batches[b];
      batches := batches[b := x.(work := x.work.(ended := x.work.ended + [0]))];
      threads := threads[t := Below(threads[t]) + []];
      StepGrows(before, Step(t, false), Now());
      Record(Step(t, false), before);
    }

    /** One helper is enqueued. */
    method EnqueueHelper(t: nat, ghost below: Stack, b: nat, dispatched: nat)
      requires Valid() && At(t, below, b, true, Launch(dispatched)) &&
        dispatched < HelperCount(batches[b].nature.kind, batches[b].nature.count, workers)
      modifies this
      ensures Stepped(t, Step(t, false)) && Lasted(t) && log == old(log)
      ensures threads[t] == below + [Frame(b, true, Launch(dispatched + 1))]
      ensures b < |batches| && Enqueued(batches[b]) == Enqueued(old(batches[b])) + 1
    {
      ghost var before := Now();
      var x := batches[b];
      batches := batches[b := x.(drainers := x.drainers.(helpers := x.drainers.helpers + 1))];
      threads := threads[t := Below(threads[t]) + [Frame(b, true, Launch(dispatched + 1))]];
      StepGrows(before, Step(t, false), Now());
      Record(Step(t, false), before);
    }

    /** All helpers are enqueued; the caller takes part. */
    method BeginDrain(t: nat, ghost below: Stack, b: nat, ghost dispatched: nat)
      requires Valid() && At(t, below, b, true, Launch(dispatched)) && batches[b].nature.kind.Sync? &&
        dispatched >= HelperCount(batches[b].nature.kind, batches[b].nature.count, workers)
      modifies this
      ensures Stepped(t, Step(t, false)) && Lasted(t) && log == old(log)
      ensures threads[t] == below + [Frame(b, true, Fetch)]
    {
      ghost var before := Now();
      var x := batches[b];
      batches := batches[b := x.(drainers := x.drainers.(led := x.drainers.led + 1))];
      threads := threads[t := Below(threads[t]) + [Frame(b, true, Fetch)]];
      StepGrows(before, Step(t, false), Now());
      Record(Step(t, false), before);
    }

    /** The predicate of the wait, and the return or the block, under the mutex. */
    method CheckDone(t: nat, ghost below: Stack, b: nat) returns (over: bool)
      requires Valid() && At(t, below, b, true, Check)
      modifies this
      ensures Stepped(t, Step(t, false)) && Lasted(t) && log == old(log)
      ensures over == old(batches[b]).finish.done && b < |batches| && batches[b].finish.done == over
      ensures batches[b].nature == old(batches[b]).nature
      ensures if over then threads[t] == below
              else threads[t] == below + [Frame(b, true, Blocked)] && batches[b].finish.blocked
    {
      ghost var before := Now();
      var x := batches[b];
      over := x.finish.done;
      if over {
        batches := batches[b := x];
        threads := threads[t := Below(threads[t]) + []];
      } else {
        batches := batches[b := x.(finish := x.finish.(blocked := true))];
        threads := threads[t := Below(threads[t]) + [Frame(b, true, Blocked)]];
      }
      StepGrows(before, Step(t, false), Now());
      Record(Step(t, false), before);
    }

    /** The caller has been notified. */
    method WakeUp(t: nat, ghost below: Stack, b: nat)
      requires Valid() && At(t, below, b, true, Blocked) && !batches[b].finish.blocked
      modifies this
      ensures Stepped(t, Step(t, false)) && Lasted(t) && log == old(log)
      ensures threads[t] == below + [Frame(b, true, Check)]
    {
      ghost var before := Now();
      batches := batches[b := batches[b].(finish := batches[b].finish.(blocked := false))];
      threads := threads[t := Below(threads[t]) + [Frame(b, true, Check)]];
      StepGrows(before, Step(t, false), Now());
      Record(Step(t, false), before);
    }

    /** The onAllCompleted of parallelForAsync is called. */
    method BeginFinale(t: nat, ghost below: Stack, b: nat, initiator: bool)
      requires Valid() && At(t, below, b, initiator, Fire) && batches[b].nature.kind.Async?
      modifies this
      ensures Stepped(t, Step(t, false)) && Lasted(t) && log == Begun(old(log), |below| + 1)
      ensures threads[t] == below + [Frame(b, initiator, Finale)] && batches[b].nature == old(batches[b]).nature
    {
      ghost var before := Now();
      var x := batches[b];
      batches := batches[b := x.(finish := x.finish.(fired := x.finish.fired + 1))];
      threads := threads[t := Below(threads[t]) + [Frame(b, initiator, Finale)]];
      log := Begun(log, |threads[t]|);
      StepGrows(before, Step(t, false), Now());
      Record(Step(t, false), before);
    }

    /** The onAllCompleted of parallelForAsync returns. */
    method EndFinale(t: nat, ghost below: Stack, b: nat, initiator: bool)
      requires Valid() && At(t, below, b, initiator, Finale)
      modifies this
      ensures Stepped(t, Step(t, false)) && Lasted(t) && log == old(log)
      ensures batches == old(batches) && b < |batches|
      ensures threads[t] == below + Finished(batches[b].nature.count, b, initiator)
    {
      ghost var before := Now();
      batches := batches[b := batches[b]];
      threads := threads[t := Below(threads[t]) + Finished(batches[b].nature.count, b, initiator)];
      StepGrows(before, Step(t, false), Now());
      Record(Step(t, false), before);
    }

    /** The call of parallelForAsync: the batch exists, and nobody has worked on it. */
    method NewAsyncBatch(t: nat, count: nat) returns (b: nat)
      requires Valid() && t < |threads| && InUserCode(threads[t])
      modifies this
      ensures Stepped(t, Call(t, count, Async)) && Lasted(t) && log == old(log)
      ensures b == old(|batches|) == |batches| - 1 && At(t, old(threads[t]), b, true, Launch(0))
      ensures batches[b].nature.count == count && batches[b].nature.kind.Async?
    {
      ghost var before := Now();
      b := |batches|;
      var parent := if threads[t] == [] then None else Some(Top(threads[t]).batch);
      batches := batches + [NewBatch(count, Async, parent)];
      threads := threads[t := threads[t] + [Frame(b, true, Launch(0))]];
      StepGrows(before, Call(t, count, Async), Now());
      Record(Call(t, count, Async), before);
    }

    /** All helpers of a parallelForAsync are enqueued, and the call returns. */
    method EndDispatch(t: nat, ghost below: Stack, b: nat, ghost dispatched: nat)
      requires Valid() && At(t, below, b, true, Launch(dispatched)) && batches[b].nature.kind.Async? &&
        dispatched >= HelperCount(batches[b].nature.kind, batches[b].nature.count, workers)
      modifies this
      ensures Stepped(t, Step(t, false)) && Lasted(t) && log == old(log)
      ensures threads[t] == below && batches == old(batches)
    {
      ghost var before := Now();
      batches := batches[b := batches[b]];
      threads := threads[t := Below(threads[t]) + []];
      StepGrows(before, Step(t, false), Now());
      Record(Step(t, false), before);
    }

    // ---- drainIndices ----

    /** Where a thread stands when it has found the dispenser exhausted. */
    static function Drained(b: nat, initiator: bool): Stack {
      if initiator then [Frame(b, true, Check)] else []
    }

    /** drainIndices, for as long as the schedule lasts: it takes indices until there are none left, and for each of
        them runs the function; behind the last one it may run the completion. */
    method DrainIndices(t: nat, ghost below: Stack, b: nat, initiator: bool, plan: Plan, finale: Plan)
      returns (finished: bool, ghost ran: Ran)
      requires Valid() && At(t, below, b, initiator, Fetch)
      modifies this
      ensures Lasted(t) && b < |batches| && batches[b].nature == old(batches[b]).nature
      ensures if finished
              then threads[t] == below + Drained(b, initiator) && batches[b].work.next > batches[b].nature.count
              else GivenUp(t)
      ensures BelowKept(old(log), log, |below| + 1)
      ensures finished ==> Made(old(log), log, |below| + 1, Times(ran), CallsOf(ran, plan, finale))
      ensures old(schedule) == [] ==> finished
      decreases Max(Depth(plan), Depth(finale)), 5
    {
      var exhausted := false;
      ran := NoIndex;
      while !exhausted
        invariant Lasted(t) && b < |batches| && batches[b].nature == old(batches[b]).nature
        invariant threads[t] == below + if exhausted then Drained(b, initiator) else [Frame(b, initiator, Fetch)]
        invariant exhausted ==> batches[b].work.next > batches[b].nature.count
        invariant Made(old(log), log, |below| + 1, Times(ran), CallsOf(ran, plan, finale))
        decreases !exhausted, batches[b].nature.count - batches[b].work.next
      {
        ghost var before := log;
        var index := TakeIndex(t, below, b, initiator);
        exhausted := index >= batches[b].nature.count;
        if !exhausted {
          var done;
          ghost var last;
          done, last := RunIndex(t, below, b, initiator, index, plan, finale);
          if !done {
            return false, ran;
          }
          OneMoreIndex(old(log), before, log, |below| + 1, ran, last, plan, finale);
          ran := Index(ran, last);
        }
      }
      finished := true;
    }

    method TakeIndex(t: nat, ghost below: Stack, b: nat, initiator: bool) returns (index: nat)
      requires Valid() && At(t, below, b, initiator, Fetch)
      modifies this
      ensures Lasted(t) && b < |batches| && batches[b].nature == old(batches[b]).nature
      ensures log == if index < batches[b].nature.count then Begun(old(log), |below| + 1) else old(log)
      ensures batches[b].work.next == index + 1 > old(batches[b]).work.next
      ensures threads[t] == below + if index < batches[b].nature.count then [Frame(b, initiator, Run(index))]
                                    else Drained(b, initiator)
    {
      Others(t);
      index := FetchIndex(t, below, b, initiator);
    }

    /** One index: fn, which makes the calls of its plan, the count, and the completion if it was the last. */
    method RunIndex(t: nat, ghost below: Stack, b: nat, initiator: bool, index: nat, plan: Plan, finale: Plan)
      returns (finished: bool, ghost last: bool)
      requires Valid() && At(t, below, b, initiator, Run(index))
      modifies this
      ensures Lasted(t) && b < |batches|
      ensures if finished then threads[t] == below + [Frame(b, initiator, Fetch)] else GivenUp(t)
      ensures BelowKept(old(log), log, |below| + 1)
      ensures finished ==> Made(old(log), log, |below| + 1, if last then 1 else 0, CallsOfIndex(plan, finale, last))
      ensures old(schedule) == [] ==> finished
      decreases Max(Depth(plan), Depth(finale)), 4
    {
      finished := RunFn(t, below, b, initiator, index, plan);
      last := false;
      if finished {
        ghost var between := log;
        finished, last := Complete(t, below, b, initiator, index, finale);
        if finished {
          MadeThen(old(log), between, log, |below| + 1, 0, plan.calls, if last then 1 else 0,
                   if last then finale.calls else []);
        }
      }
    }

    /** fn(index), from the call to the return. */
    method RunFn(t: nat, ghost below: Stack, b: nat, initiator: bool, index: nat, plan: Plan) returns (finished: bool)
      requires Valid() && At(t, below, b, initiator, Run(index))
      modifies this
      ensures Lasted(t) && b < |batches|
      ensures if finished then threads[t] == below + [Frame(b, initiator, Ended(index))] else GivenUp(t)
      ensures BelowKept(old(log), log, |below| + 1)
      ensures finished ==> Made(old(log), log, |below| + 1, 0, plan.calls)
      ensures old(schedule) == [] ==> finished
      decreases Depth(plan), 1
    {
      finished := RunPlan(t, plan);
      if finished {
        EndCall(t, below, b, initiator, index);
      }
    }

    /** The count, and the completion behind the last index; `fired`: it was the completion of a parallelForAsync, and
        has made the calls of its plan. */
    method Complete(t: nat, ghost below: Stack, b: nat, initiator: bool, ghost index: nat, finale: Plan)
      returns (finished: bool, ghost fired: bool)
      requires Valid() && At(t, below, b, initiator, Ended(index))
      modifies this
      ensures Lasted(t) && b < |batches|
      ensures if finished then threads[t] == below + [Frame(b, initiator, Fetch)] else GivenUp(t)
      ensures BelowKept(old(log), log, |below| + 1)
      ensures finished ==> Made(old(log), log, |below| + 1, if fired then 1 else 0, if fired then finale.calls else [])
      ensures old(schedule) == [] ==> finished
      decreases Depth(finale), 3
    {
      IndexIsThere(t, below, b, initiator, Ended(index));
      Others(t);
      var last := CountCompleted(t, below, b, initiator, index);
      finished, fired := true, false;
      if last {
        finished, fired := FireLast(t, below, b, initiator, finale);
      }
    }

    method FireLast(t: nat, ghost below: Stack, b: nat, initiator: bool, finale: Plan)
      returns (finished: bool, ghost fired: bool)
      requires Valid() && At(t, below, b, initiator, Fire) && batches[b].nature.count > 0
      modifies this
      ensures Lasted(t) && b < |batches| && (fired <==> batches[b].nature.kind.Async?)
      ensures if finished then threads[t] == below + [Frame(b, initiator, Fetch)] else GivenUp(t)
      ensures BelowKept(old(log), log, |below| + 1)
      ensures finished ==> Made(old(log), log, |below| + 1, if fired then 1 else 0, if fired then finale.calls else [])
      ensures old(schedule) == [] ==> finished
      decreases Depth(finale), 2
    {
      Others(t);
      fired := batches[b].nature.kind.Async?;
      if batches[b].nature.kind.Async? {
        finished := RunFinale(t, below, b, initiator, finale);
      } else {
        SetDone(t, below, b, initiator);
        finished := true;
      }
    }

    lemma IndexIsThere(t: nat, below: Stack, b: nat, initiator: bool, at: At)
      requires Valid() && At(t, below, b, initiator, at) && at.Ended?
      ensures batches[b].nature.count > 0
    {
      RunInv(history, |history| - 1);
      assert ThreadOk(Now(), t) && FramesOk(Now(), t, |below|);
    }

    /** Where a thread stands behind the onAllCompleted of a parallelForAsync. */
    static function Finished(count: nat, b: nat, initiator: bool): Stack {
      if count == 0 then [] else [Frame(b, initiator, Fetch)]
    }

    /** The onAllCompleted of a parallelForAsync. */
    method RunFinale(t: nat, ghost below: Stack, b: nat, initiator: bool, finale: Plan) returns (finished: bool)
      requires Valid() && At(t, below, b, initiator, Fire) && batches[b].nature.kind.Async?
      modifies this
      ensures Lasted(t) && b < |batches| && batches[b].nature == old(batches[b]).nature
      ensures if finished then threads[t] == below + Finished(batches[b].nature.count, b, initiator) else GivenUp(t)
      ensures BelowKept(old(log), log, |below| + 1)
      ensures finished ==> Made(old(log), log, |below| + 1, 1, finale.calls)
      ensures old(schedule) == [] ==> finished
      decreases Depth(finale), 1
    {
      BeginFinale(t, below, b, initiator);
      finished := RunPlan(t, finale);
      if finished {
        BegunThen(old(log), log, |below| + 1, 0, finale.calls);
        EndFinale(t, below, b, initiator);
      }
    }

    /** A worker takes a queued helper, and drains; the helper of an empty parallelForAsync only completes it. */
    method RunHelper(w: nat, b: nat, plan: Plan, finale: Plan) returns (finished: bool, ghost ran: Ran)
      requires Valid() && w < workers && w < |threads| && threads[w] == []
      requires b < |batches| && batches[b].drainers.helpers > 0
      modifies this
      ensures Lasted(w) && (if finished then threads[w] == [] else GivenUp(w))
      ensures finished ==>
        if old(batches[b]).nature.count == 0 then Made(old(log), log, 1, 1, finale.calls)
        else Made(old(log), log, 1, Times(ran), CallsOf(ran, plan, finale))
      ensures old(schedule) == [] ==> finished
    {
      EmptyIsAsync(b);
      TakeQueuedHelper(w, b);
      if batches[b].nature.count == 0 {
        finished := RunFinale(w, [], b, false, finale);
        ran := NoIndex;
      } else {
        finished, ran := DrainIndices(w, [], b, false, plan, finale);
      }
    }

    lemma EmptyIsAsync(b: nat)
      requires Valid() && b < |batches|
      ensures batches[b].nature.count == 0 ==> batches[b].nature.kind.Async?
    {
      BatchOf(history, |history| - 1, b);
    }

    method TakeQueuedHelper(t: nat, b: nat)
      requires Valid() && t < workers && t < |threads| && threads[t] == []
      requires b < |batches| && batches[b].drainers.helpers > 0
      modifies this
      ensures Stepped(t, TakeHelper(t, b)) && Lasted(t) && log == old(log)
      ensures threads[t] == [Frame(b, false, if batches[b].nature.count == 0 then Fire else Fetch)]
      ensures b < |batches| && batches[b].nature == old(batches[b]).nature
    {
      ghost var before := Now();
      var x := batches[b];
      var d := x.drainers;
      batches := batches[b := x.(drainers := d.(helpers := d.helpers - 1, joined := d.joined + 1))];
      threads := threads[t := [Frame(b, false, if x.nature.count == 0 then Fire else Fetch)]];
      StepGrows(before, TakeHelper(t, b), Now());
      Record(TakeHelper(t, b), before);
    }

    /** What fn does: its own calls of parallelFor and parallelForAsync, in order. */
    method RunPlan(t: nat, plan: Plan) returns (finished: bool)
      requires Valid() && t < |threads| && InUserCode(threads[t])
      modifies this
      ensures Lasted(t) && (if finished then threads[t] == old(threads[t]) else GivenUp(t))
      ensures BelowKept(old(log), log, |old(threads[t])|)
      ensures finished ==> Made(old(log), log, |old(threads[t])|, 0, plan.calls)
      ensures old(schedule) == [] ==> finished
      decreases Depth(plan), 0
    {
      ghost var depth := |threads[t]|;
      for i := 0 to |plan.calls|
        invariant Lasted(t) && threads[t] == old(threads[t])
        invariant Made(old(log), log, depth, 0, plan.calls[..i])
      {
        Others(t);
        NestedIsLess(plan.calls, i);
        ghost var before := log;
        finished := RunNested(t, plan.calls[i]);
        OneMoreCall(old(log), before, log, depth, plan.calls, i);
        if !finished {
          return;
        }
      }
      assert plan.calls[..|plan.calls|] == plan.calls;
      finished := true;
    }

    method RunNested(t: nat, call: Nested) returns (finished: bool)
      requires Valid() && t < |threads| && InUserCode(threads[t])
      modifies this
      ensures Lasted(t) && (if finished then threads[t] == old(threads[t]) else GivenUp(t))
      ensures Made(old(log), log, |old(threads[t])|, 0, [call])
      ensures old(schedule) == [] ==> finished
      decreases Depth(call.plan), 11
    {
      ghost var b;
      Note(|threads[t]|, call);
      if call.isAsync {
        b := ParallelForAsync(t, call.count);
        finished := true;
      } else {
        ghost var ran;
        finished, b, ran := ParallelFor(t, call.count, call.plan);
      }
    }

    ghost method Note(depth: nat, call: Nested)
      modifies this`log
      ensures Made(old(log), log, depth, 0, [call])
    {
      log := Logged(log, depth, call);
    }

    // ---- parallelForAsync ----

    /** parallelForAsync dispatches its helpers and returns: one helper per index, and one if there is none, but no more
        than there are workers. */
    method ParallelForAsync(t: nat, count: nat) returns (b: nat)
      requires Valid() && t < |threads| && InUserCode(threads[t])
      modifies this
      ensures Lasted(t) && threads[t] == old(threads[t]) && log == old(log)
      ensures b == old(|batches|) < |batches| && batches[b].nature.kind.Async? && batches[b].nature.count == count
      ensures Enqueued(batches[b]) == if count == 0 then 1 else if count <= workers then count else workers
    {
      ghost var below := threads[t];
      b := NewAsyncBatch(t, count);
      Dispatch(t, below, b);
      EndDispatch(t, below, b, HelperCount(Async, count, workers));
    }

    // ---- parallelFor ----

    /** parallelFor, for as long as the schedule lasts: when it returns, every call of fn has ended; and it returns
        even if no other thread ever moves. */
    method ParallelFor(t: nat, count: nat, plan: Plan) returns (finished: bool, ghost b: nat, ghost ran: Ran)
      requires Valid() && t < |threads| && InUserCode(threads[t])
      modifies this
      ensures Lasted(t) && (if finished then threads[t] == old(threads[t]) else GivenUp(t))
      ensures finished && count >= 2 ==>
        old(|batches|) <= b < |batches| && batches[b].nature.count == count && AllEnded(Now(), b)
      ensures finished && count == 1 ==> old(|batches|) <= b < |batches| && 0 in batches[b].work.ended
      ensures BelowKept(old(log), log, |old(threads[t])| + 1)
      ensures finished ==> Made(old(log), log, |old(threads[t])| + 1, Times(ran), CallsOf(ran, plan, Plan([])))
      ensures (count == 0 ==> ran == NoIndex) && (count == 1 ==> ran == Index(NoIndex, false))
      ensures old(schedule) == [] ==> finished
      decreases Depth(plan), 10
    {
      if count == 0 {
        return true, 0, NoIndex;
      } else if count == 1 {
        ran := Index(NoIndex, false);
        finished, b := RunDirectly(t, plan);
      } else {
        finished, b, ran := RunBatch(t, count, plan);
      }
    }

    method RunDirectly(t: nat, plan: Plan) returns (finished: bool, ghost b: nat)
      requires Valid() && t < |threads| && InUserCode(threads[t])
      modifies this
      ensures Lasted(t) && (if finished then threads[t] == old(threads[t]) else GivenUp(t))
      ensures finished ==> old(|batches|) <= b < |batches| && 0 in batches[b].work.ended
      ensures BelowKept(old(log), log, |old(threads[t])| + 1)
      ensures finished ==> Made(old(log), log, |old(threads[t])| + 1, 1, plan.calls)
      ensures old(schedule) == [] ==> finished
      decreases Depth(plan), 9
    {
      ghost var below := threads[t];
      var own;
      finished, own := CallFnDirectly(t, plan);
      b := own;
      if finished {
        EndDirectCall(t, below, own);
      }
    }

    method CallFnDirectly(t: nat, plan: Plan) returns (finished: bool, own: nat)
      requires Valid() && t < |threads| && InUserCode(threads[t])
      modifies this
      ensures Lasted(t) && old(|batches|) <= own < |batches|
      ensures if finished then At(t, old(threads[t]), own, true, Direct) else GivenUp(t)
      ensures BelowKept(old(log), log, |old(threads[t])| + 1)
      ensures finished ==> Made(old(log), log, |old(threads[t])| + 1, 1, plan.calls)
      ensures old(schedule) == [] ==> finished
      decreases Depth(plan), 8
    {
      ghost var depth := |threads[t]| + 1;
      own := CallDirectly(t, 1);
      finished := RunPlan(t, plan);
      if finished {
        BegunThen(old(log), log, depth, 0, plan.calls);
      }
    }

    method RunBatch(t: nat, count: nat, plan: Plan) returns (finished: bool, ghost b: nat, ghost ran: Ran)
      requires Valid() && t < |threads| && InUserCode(threads[t]) && count >= 2
      modifies this
      ensures Lasted(t) && (if finished then threads[t] == old(threads[t]) else GivenUp(t))
      ensures finished ==>
        old(|batches|) <= b < |batches| && batches[b].nature.count == count && AllEnded(Now(), b)
      ensures BelowKept(old(log), log, |old(threads[t])| + 1)
      ensures finished ==> Made(old(log), log, |old(threads[t])| + 1, Times(ran), CallsOf(ran, plan, Plan([])))
      ensures old(schedule) == [] ==> finished
      decreases Depth(plan), 9
    {
      ghost var below := threads[t];
      var own;
      finished, own, ran := ParticipateAlone(t, count, plan);
      b := own;
      if finished {
        finished := AwaitDone(t, below, own);
      }
    }

    /** Participate; and if no other thread moves, the caller is the only one that has worked on the batch. */
    method ParticipateAlone(t: nat, count: nat, plan: Plan) returns (finished: bool, own: nat, ghost ran: Ran)
      requires Valid() && t < |threads| && InUserCode(threads[t]) && count >= 2
      modifies this
      ensures Lasted(t) && own == old(|batches|) < |batches|
      ensures batches[own].nature.count == count && batches[own].nature.kind.Sync?
      ensures if finished then threads[t] == old(threads[t]) + [Frame(own, true, Check)] else GivenUp(t)
      ensures BelowKept(old(log), log, |old(threads[t])| + 1)
      ensures finished ==> Made(old(log), log, |old(threads[t])| + 1, Times(ran), CallsOf(ran, plan, Plan([])))
      ensures old(schedule) == [] ==> finished && Alone(Now(), t, own)
      decreases Depth(plan), 8
    {
      ghost var before := threads;
      StacksAreOld();
      finished, own, ran := Participate(t, count, plan);
      if old(schedule) == [] {
        NewIsAlone(before, Now(), t, own);
      }
    }

    /** The batch is made, its helpers are enqueued, and the caller drains: it runs fn for every index that it takes. */
    method Participate(t: nat, count: nat, plan: Plan) returns (finished: bool, own: nat, ghost ran: Ran)
      requires Valid() && t < |threads| && InUserCode(threads[t]) && count >= 2
      modifies this
      ensures Lasted(t) && own == old(|batches|) < |batches|
      ensures batches[own].nature.count == count && batches[own].nature.kind.Sync?
      ensures if finished then threads[t] == old(threads[t]) + [Frame(own, true, Check)] else GivenUp(t)
      ensures BelowKept(old(log), log, |old(threads[t])| + 1)
      ensures finished ==> Made(old(log), log, |old(threads[t])| + 1, Times(ran), CallsOf(ran, plan, Plan([])))
      ensures old(schedule) == [] ==> finished
      decreases Depth(plan), 7
    {
      ghost var below := threads[t];
      own := StartBatch(t, count);
      finished, ran := WorkOn(t, below, own, plan);
    }

    method StartBatch(t: nat, count: nat) returns (own: nat)
      requires Valid() && t < |threads| && InUserCode(threads[t]) && count >= 2
      modifies this
      ensures Lasted(t) && log == old(log) && schedule == old(schedule)
      ensures own == old(|batches|) < |batches| && At(t, old(threads[t]), own, true, Launch(0))
      ensures batches[own].nature.count == count && batches[own].nature.kind.Sync?
    {
      own := NewSyncBatch(t, count);
    }

    lemma StacksAreOld()
      requires Valid()
      ensures Older(threads, |batches|)
    {
      RunInv(history, |history| - 1);
      FramesAreOld(Now());
    }

    method WorkOn(t: nat, ghost below: Stack, own: nat, plan: Plan) returns (finished: bool, ghost ran: Ran)
      requires Valid() && At(t, below, own, true, Launch(0)) && batches[own].nature.kind.Sync?
      modifies this
      ensures Lasted(t) && own < |batches| && batches[own].nature == old(batches[own]).nature
      ensures if finished then threads[t] == below + [Frame(own, true, Check)] else GivenUp(t)
      ensures BelowKept(old(log), log, |below| + 1)
      ensures finished ==> Made(old(log), log, |below| + 1, Times(ran), CallsOf(ran, plan, Plan([])))
      ensures old(schedule) == [] ==> finished
      decreases Depth(plan), 6
    {
      Dispatch(t, below, own);
      BeginDrain(t, below, own, HelperCount(Sync, batches[own].nature.count, workers));
      finished, ran := DrainIndices(t, below, own, true, plan, Plan([]));
    }

    /** The helpers are enqueued one by one: for a parallelFor one per index but the first, for a parallelForAsync one
        per index, and one if there is none, but no more than there are workers. */
    method Dispatch(t: nat, ghost below: Stack, b: nat)
      requires Valid() && At(t, below, b, true, Launch(0))
      modifies this
      ensures Lasted(t) && b < |batches| && batches[b].nature == old(batches[b]).nature && log == old(log)
      ensures var n := batches[b].nature;
        threads[t] == below + [Frame(b, true, Launch(HelperCount(n.kind, n.count, workers)))]
      ensures var n := batches[b].nature;
        Enqueued(batches[b]) ==
        match n.kind
        case Sync => if n.count - 1 <= workers then n.count - 1 else workers
        case Async => if n.count == 0 then 1 else if n.count <= workers then n.count else workers
        case Inline => 0
    {
      var helperCount := HelperCount(batches[b].nature.kind, batches[b].nature.count, workers);
      for i := 0 to helperCount
        invariant Lasted(t) && b < |batches| && batches[b].nature == old(batches[b]).nature && log == old(log)
        invariant threads[t] == below + [Frame(b, true, Launch(i))] && Enqueued(batches[b]) >= i
      {
        Others(t);
        EnqueueHelper(t, below, b, i);
      }
      NoMoreHelpers(b);
    }

    lemma NoMoreHelpers(b: nat)
      requires Valid() && b < |batches|
      ensures var n := batches[b].nature;
        (n.kind.Sync? ==> n.count >= 2) && Enqueued(batches[b]) <= HelperCount(n.kind, n.count, workers)
    {
      BatchOf(history, |history| - 1, b);
    }

    /** The wait for `done`. */
    method AwaitDone(t: nat, ghost below: Stack, b: nat) returns (finished: bool)
      requires Valid() && At(t, below, b, true, Check) && batches[b].nature.kind.Sync?
      modifies this
      ensures Lasted(t) && b < |batches| && batches[b].nature == old(batches[b]).nature
      ensures if finished then threads[t] == below && AllEnded(Now(), b) else GivenUp(t)
      ensures log == old(log)
      ensures Alone(old(Now()), t, b) ==> finished
    {
      AloneAtCheck(t, below, b);
      finished := CheckDone(t, below, b);
      if !finished {
        finished := AwaitNotified(t, below, b);
      }
      if finished {
        DoneIsEnded(b);
      }
    }

    /** The rest of the wait, once the predicate has been found false. */
    method AwaitNotified(t: nat, ghost below: Stack, b: nat) returns (finished: bool)
      requires Valid() && At(t, below, b, true, Blocked) && batches[b].finish.blocked
      modifies this
      ensures Lasted(t) && b < |batches| && batches[b].nature == old(batches[b]).nature
      ensures log == old(log) && (if finished then threads[t] == below && batches[b].finish.done else GivenUp(t))
    {
      finished := false;
      while !finished
        invariant Lasted(t) && b < |batches| && batches[b].nature == old(batches[b]).nature && log == old(log)
        invariant if finished then threads[t] == below && batches[b].finish.done
                  else threads[t] == below + [Frame(b, true, Blocked)] && batches[b].finish.blocked
        decreases !finished, |schedule|
      {
        var woken := AwaitWakeUp(t, below, b);
        if !woken {
          return false;
        }
        finished := CheckDone(t, below, b);
      }
    }

    lemma AloneAtCheck(t: nat, below: Stack, b: nat)
      requires Valid() && At(t, below, b, true, Check)
      ensures Alone(Now(), t, b) ==> batches[b].finish.done
    {
      if Alone(Now(), t, b) {
        RunInv(history, |history| - 1);
        AloneIsDone(Now(), t, b);
      }
    }

    lemma DoneIsEnded(b: nat)
      requires Valid() && b < |batches| && batches[b].finish.done
      ensures AllEnded(Now(), b)
    {
      BatchOf(history, |history| - 1, b);
      FiresOnceAfterAll(history, |history| - 1, b);
    }

    /** The caller is blocked on allDone until it is notified, or until nothing more happens. */
    method AwaitWakeUp(t: nat, ghost below: Stack, b: nat) returns (woken: bool)
      requires Valid() && At(t, below, b, true, Blocked) && batches[b].finish.blocked
      modifies this
      ensures Lasted(t) && b < |batches| && batches[b].nature == old(batches[b]).nature && log == old(log)
      ensures if woken then threads[t] == below + [Frame(b, true, Check)] && |schedule| < old(|schedule|)
              else threads[t] == below + [Frame(b, true, Blocked)] && GivenUp(t)
    {
      while batches[b].finish.blocked && schedule != []
        invariant Lasted(t) && b < |batches| && batches[b].nature == old(batches[b]).nature && log == old(log)
        invariant threads[t] == below + [Frame(b, true, Blocked)]
        invariant batches[b].finish.blocked || |schedule| < old(|schedule|)
        decreases |schedule|
      {
        Others(t);
      }
      woken := !batches[b].finish.blocked;
      if woken {
        WakeUp(t, below, b);
      }
    }
  }
}
