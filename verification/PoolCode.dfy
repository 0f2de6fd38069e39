/**
 The functions of threading/cthreadpool.cpp and threading/cthreadpool.h as code over shared words: the fields of a
 class, changed by one thread while others run. Every atomic operation, and every section under a mutex, is one
 method, and does what the machine of module Pool says that a step of this thread does; between any two of them
 the other threads do whatever the schedule holds. `history` records the states that the words go through, and
 `Valid` says that it is a run of the machine, so that whatever is proved of all runs holds of this code.
 */
module PoolCode {
  import opened Basics
  import opened Pool
  import opened PoolSums
  import opened PoolInvariants
  import opened PoolTheorems
  import opened PoolSweep

  /** How enqueue ends: with the length of the lane it has pushed to, with the task refused because its tag is being
      retired, or with the exception of the push. */
  datatype EnqueueResult = Pushed(queueLength: nat) | Refused | Threw

  /** The last task of lane l is the one named x, as it is when x has just been pushed to it. */
  predicate EndsLane(s: State, l: nat, x: nat, queueLength: nat) {
    && l < |s.sh.queues.lanes| && |s.sh.queues.lanes[l]| == queueLength > 0
    && s.sh.queues.lanes[l][queueLength - 1].id == x
  }

  /** What a result says about a state that the pool went through: task x was pushed to lane l, or met its fate. */
  predicate HappenedIn(s: State, l: nat, x: nat, result: EnqueueResult) {
    match result
    case Pushed(n) => EndsLane(s, l, x, n)
    case Refused => (x, Rejected) in s.sh.queues.fates
    case Threw => (x, Failed) in s.sh.queues.fates
  }

  /** The same of the run from moment i on. */
  ghost predicate Happened(run: seq<State>, i: nat, l: nat, x: nat, result: EnqueueResult) {
    exists h :: i <= h < |run| && HappenedIn(run[h], l, x, result)
  }

  lemma StillHappened(run: seq<State>, run': seq<State>, i: nat, i': nat, l: nat, x: nat, result: EnqueueResult)
    requires Happened(run, i, l, x, result) && run <= run' && i' <= i
    ensures Happened(run', i', l, x, result)
  {
    var h :| i <= h < |run| && HappenedIn(run[h], l, x, result);
    assert run'[h] == run[h];
  }

  lemma JustHappened(run: seq<State>, s: State, l: nat, x: nat, result: EnqueueResult)
    requires HappenedIn(s, l, x, result)
    ensures Happened(run + [s], |run|, l, x, result)
  {
    assert (run + [s])[|run|] == s;
  }

  /** What may happen between two operations of one thread. */
  type Schedule = seq<seq<Event>>

  lemma RunGrows(workers: nat, run: seq<State>, e: Event, s: State)
    requires IsRun(workers, run) && Next(run[|run| - 1], e) == Some(s)
    ensures IsRun(workers, run + [s])
  {
    var run' := run + [s];
    forall i | 0 < i < |run'| ensures StepAt(run', i) {
      if i < |run| {
        assert StepAt(run, i);
      } else {
        assert IsStep(run[|run| - 1], s);
      }
    }
  }

  /** All lanes are empty. */
  ghost predicate AllEmpty(lanes: seq<seq<Task>>) {
    forall l :: 0 <= l < |lanes| ==> lanes[l] == []
  }

  lemma PopLowers(lanes: seq<seq<Task>>, l: nat)
    requires l < |lanes| && lanes[l] != []
    ensures TasksInLanes(lanes[l := lanes[l][1..]]) < TasksInLanes(lanes)
  {
    PopMoves(Queued, Queues(lanes, 0, 0, []), l);
    QueuedIsLength(lanes);
    QueuedIsLength(lanes[l := lanes[l][1..]]);
  }

  /** The lanes that a sweep has come to before it is `offset` lanes away from its own, which is one of them. */
  ghost function Visited(me: nat, offset: nat, n: nat): set<nat>
    requires n > 0
  {
    {me} + set o | 1 <= o < offset :: Victim(me, o, n)
  }

  lemma OneMoreVisited(me: nat, offset: nat, n: nat)
    requires n > 0 && offset >= 1
    ensures Visited(me, offset + 1, n) == Visited(me, offset, n) + {Victim(me, offset, n)}
  {
  }

  lemma AllVisited(me: nat, offset: nat, n: nat)
    requires me < n <= offset
    ensures forall l: nat :: l < n ==> l in Visited(me, offset, n)
  {
    forall l: nat | l < n ensures l in Visited(me, offset, n) {
      if l != me {
        SweepVisitsEachOnce(me, n, l);
        var o :| 1 <= o < n && Victim(me, o, n) == l;
      }
    }
  }

  lemma LanesKept(workers: nat, run: seq<State>, e: Event, s: State)
    requires IsRun(workers, run) && Next(run[|run| - 1], e) == Some(s)
    ensures |s.sh.queues.lanes| == workers == |run[|run| - 1].sh.queues.lanes|
  {
    LaneCount(workers, run, |run| - 1);
    RunInv(workers, run, |run| - 1);
    assert IsStep(run[|run| - 1], s);
    LanesStay(run[|run| - 1], s);
  }

  /** From moment i on, thread `me` stays where it is. */
  ghost predicate Quiet(run: seq<State>, i: nat, me: nat, pc: Pc) {
    forall h :: i <= h < |run| ==> me < |run[h].threads| && run[h].threads[me] == pc
  }

  /** Thread `me` began a call of tryGetTask at moment i and has not returned since. */
  ghost predicate Trying(run: seq<State>, i: nat, me: nat) {
    && i < |run| && me < |run[i].threads| && run[i].threads[me] == Take(TryOwn)
    && forall h :: i <= h < |run| ==> me < |run[h].threads| && InTryGetTask(run[h].threads[me])
  }

  lemma StillTrying(run: seq<State>, run': seq<State>, i: nat, me: nat, pc: Pc)
    requires Trying(run, i, me) && run <= run' && Quiet(run', |run| - 1, me, pc)
    ensures Trying(run', i, me)
  {
    forall h | i <= h < |run'| ensures me < |run'[h].threads| && InTryGetTask(run'[h].threads[me]) {
      if h < |run| {
        assert run'[h] == run[h];
      } else {
        assert run'[|run| - 1].threads[me] == pc;
      }
    }
  }

  lemma TryingOn(run: seq<State>, i: nat, me: nat, s: State)
    requires Trying(run, i, me) && me < |s.threads| && InTryGetTask(s.threads[me])
    ensures Trying(run + [s], i, me)
  {
  }

  /** At some moment from i on, task t was in no lane. */
  ghost predicate Missing(run: seq<State>, i: nat, t: Task) {
    exists m :: i <= m < |run| && !InSomeLane(run[m], t)
  }

  /** No task was in the lanes at all moments from i on. */
  ghost predicate NoTaskStayed(run: seq<State>, i: nat) {
    forall t: Task :: Missing(run, i, t)
  }

  lemma NothingOverlooked(workers: nat, run: seq<State>, i: nat, me: nat, last: State)
    requires IsRun(workers, run + [last]) && Trying(run, i, me) && me < workers
    requires me < |last.threads| && last.threads[me] == Take(FoundNothing)
    ensures NoTaskStayed(run + [last], i)
  {
    var run' := run + [last];
    forall t: Task ensures Missing(run', i, t) {
      FailedSweepOverlooksNothing(workers, run', i, |run|, me, t);
      var m :| i <= m <= |run| && !InSomeLane(run'[m], t);
    }
  }

  /** At moment h the node of the task, if it has one, was not retired. */
  predicate MayRunAt(run: seq<State>, h: nat, t: Task)
    requires h < |run|
  {
    t.node.None? || (t.node.value in run[h].sh.tags.nodes && !run[h].sh.tags.nodes[t.node.value].retired)
  }

  /** Task t was run if its node was not retired at moment h, and skipped if it was. */
  predicate CheckedRight(run: seq<State>, h: nat, t: Task, fates: Fates)
    requires h < |run|
  {
    (t.id, if MayRunAt(run, h, t) then Executed else Skipped) in fates
  }

  /** What the machine does when a retirer sweeps a lane. */
  lemma SweepNext(s: State, me: nat, k: nat, sum: nat, lane: nat)
    requires me < |s.threads| && lane < |s.sh.queues.lanes| && s.threads[me] == Pc.Retire(k, sum, Sweep(lane))
    ensures var removed := |RemovedFates(s.sh.queues.lanes[lane], k)|;
      Next(s, Step(me, Normal)) ==
      Some(State(s.sh.(queues := SweepLane(s.sh.queues, lane, k)),
                 s.threads[me := Pc.Retire(k, sum + removed, Sweep(lane + 1))]))
  {
  }

  /** The loop of `remove_if`. */
  method RemoveIf(lane: seq<Task>, k: nat) returns (kept: seq<Task>, gone: Fates)
    ensures kept == Without(lane, k) && gone == RemovedFates(lane, k)
  {
    kept, gone := [], [];
    var i := 0;
    while i < |lane|
      invariant i <= |lane|
      invariant kept + Without(lane[i..], k) == Without(lane, k)
      invariant gone + RemovedFates(lane[i..], k) == RemovedFates(lane, k)
    {
      assert lane[i..][0] == lane[i] && lane[i..][1..] == lane[i + 1..];
      if lane[i].node == Some(k) {
        gone := gone + [(lane[i].id, Removed)];
      } else {
        kept := kept + [lane[i]];
      }
      i := i + 1;
    }
  }

  class SharedPool {
    var lanes: seq<seq<Task>>
    var laneSelector: nat
    var queuedCount: int
    var fates: Fates
    var idle: IdleWait
    var tags: Tags
    var terminate: bool
    var detached: bool
    var threads: seq<Pc>
    var schedule: Schedule
    ghost var history: seq<State>

    function Now(): State
      reads this
    {
      State(Shared(Queues(lanes, laneSelector, queuedCount, fates), idle, tags, terminate, detached), threads)
    }

    ghost predicate Valid()
      reads this
    {
      IsRun(|lanes|, history) && history[|history| - 1] == Now()
    }

    /** One step of this thread, and nothing else. */
    twostate predicate Stepped(me: nat, choice: Choice)
      reads this
    {
      && Valid() && Next(old(Now()), Step(me, choice)) == Some(Now())
      && history == old(history) + [Now()] && schedule == old(schedule)
    }

    /** Any number of steps, none of them by this thread. */
    twostate predicate OthersMoved(me: nat)
      requires old(|history|) > 0
      reads this
    {
      && Valid() && |lanes| == old(|lanes|) && old(history) <= history
      && me < |threads| && Quiet(history, old(|history|) - 1, me, threads[me])
    }

    /** While nobody else moves, the lanes stay as they are. */
    twostate predicate LanesStay()
      reads this
    {
      old(schedule) == [] ==> lanes == old(lanes)
    }

    /** While nobody else moves, a task that is taken is one less in the lanes, and otherwise these lanes are empty. */
    twostate predicate Looked(task: Option<Task>, empty: set<nat>)
      reads this
    {
      old(schedule) == [] ==>
        if task.Some? then TasksInLanes(lanes) < TasksInLanes(old(lanes))
        else lanes == old(lanes) && forall l: nat :: l in empty && l < |lanes| ==> lanes[l] == []
    }

    constructor (workers: nat, schedule: Schedule)
      requires workers > 0
      ensures Valid() && Now() == Initial(workers) && history == [Now()] && this.schedule == schedule
    {
      lanes, laneSelector, queuedCount, fates := seq(workers, _ => []), 0, 0, [];
      idle, tags := IdleWait(0, None, {}), Tags(map[], map[], 0, {});
      terminate, detached, threads := false, false, seq(workers, _ => Take(LoopHead));
      this.schedule := schedule;
      history := [Initial(workers)];
    }

    ghost method Record(me: nat, choice: Choice, before: State)
      requires IsRun(|lanes|, history) && history[|history| - 1] == before
      requires Next(before, Step(me, choice)) == Some(Now())
      modifies this`history
      ensures Valid() && history == old(history) + [Now()]
    {
      RunGrows(|lanes|, history, Step(me, choice), Now());
      history := history + [Now()];
    }

    /** The other threads run. An event that is not possible, or that belongs to this thread, does not happen. */
    method Others(me: nat)
      requires Valid() && me < |threads|
      modifies this
      ensures OthersMoved(me) && threads[me] == old(threads[me])
      ensures old(schedule) == [] ==> lanes == old(lanes)
      ensures schedule == if old(schedule) == [] then [] else old(schedule)[1..]
    {
      if schedule == [] {
        return;
      }
      var events := schedule[0];
      schedule := schedule[1..];
      var i := 0;
      while i < |events|
        invariant OthersMoved(me) && threads[me] == old(threads[me]) && schedule == old(schedule)[1..]
      {
        if !(events[i].Step? && events[i].thread == me) {
          Happen(me, events[i]);
        }
        i := i + 1;
      }
    }

    /** An event of another thread, if it is possible. */
    method Happen(me: nat, e: Event)
      requires Valid() && me < |threads| && !(e.Step? && e.thread == me)
      modifies this
      ensures Valid() && |lanes| == old(|lanes|) && me < |threads| && threads[me] == old(threads[me])
      ensures (history == old(history) || history == old(history) + [Now()]) && schedule == old(schedule)
    {
      var next := Next(Now(), e);
      if next.Some? {
        LanesKept(|lanes|, history, e, next.value);
        RunGrows(|lanes|, history, e, next.value);
        Become(next.value);
        history := history + [Now()];
      }
    }

    method Become(s: State)
      modifies this`lanes, this`laneSelector, this`queuedCount, this`fates, this`idle, this`tags, this`terminate,
        this`detached, this`threads
      ensures Now() == s
    {
      var Shared(q, w, t, stop, gone) := s.sh;
      lanes, laneSelector, queuedCount, fates := q.lanes, q.laneSelector, q.queuedCount, q.fates;
      idle, tags, terminate, detached, threads := w, t, stop, gone, s.threads;
    }

    // ---- tryGetTask ----

    /** `try_pop` on the own lane, or on the lane that the sweep has come to. */
    method TryPop(me: nat, lane: nat) returns (task: Option<Task>)
      requires Valid() && me < |lanes| && me < |threads| && lane < |lanes| && threads[me].Take?
      requires match threads[me].take
               case TryOwn => lane == me
               case Steal(offset) => offset < |lanes| && lane == Victim(me, offset, |lanes|)
               case _ => false
      modifies this
      ensures Stepped(me, Normal) && |lanes| == old(|lanes|) && |threads| == old(|threads|)
      ensures task == (if old(lanes[lane]) == [] then None else Some(old(lanes[lane][0])))
      ensures lanes == if task.None? then old(lanes) else old(lanes)[lane := old(lanes[lane])[1..]]
      ensures task.Some? ==> threads[me] == Took(task.value)
      ensures task.None? && old(threads[me]).take.TryOwn? ==> threads[me] == Take(CheckCount)
      ensures task.None? && old(threads[me]).take.Steal? ==>
        threads[me] == Take(Steal(old(threads[me]).take.offset + 1))
    {
      ghost var before := Now();
      if lanes[lane] == [] {
        task := None;
        threads := threads[me := Take(match threads[me].take case Steal(k) => Steal(k + 1) case _ => CheckCount)];
      } else {
        task := Some(lanes[lane][0]);
        lanes := lanes[lane := lanes[lane][1..]];
        threads := threads[me := Took(task.value)];
      }
      Record(me, Normal, before);
    }

    /** `--queuedCount` after a pop. */
    method SubtractPopped(me: nat)
      requires Valid() && me < |threads| && threads[me].Took?
      modifies this
      ensures Stepped(me, Normal) && lanes == old(lanes) && |threads| == old(|threads|)
      ensures threads[me] == Execute(old(threads[me]).task, CheckRun)
    {
      ghost var before := Now();
      queuedCount := queuedCount - 1;
      threads := threads[me := Execute(threads[me].task, CheckRun)];
      Record(me, Normal, before);
    }

    method LoadQueuedCount(me: nat) returns (count: int)
      requires Valid() && me < |lanes| && me < |threads| && threads[me] == Take(CheckCount)
      modifies this
      ensures Stepped(me, Normal) && lanes == old(lanes) && |threads| == old(|threads|) && count == queuedCount
      ensures threads[me] == Take(if count == 0 then FoundNothing else Steal(1))
    {
      ghost var before := Now();
      count := queuedCount;
      threads := threads[me := Take(if count == 0 then FoundNothing else Steal(1))];
      Record(me, Normal, before);
    }

    /** The sweep has come to its end. */
    method EndSweep(me: nat)
      requires Valid() && me < |lanes| && me < |threads|
      requires threads[me].Take? && threads[me].take.Steal? && threads[me].take.offset >= |lanes|
      modifies this
      ensures Stepped(me, Normal) && lanes == old(lanes) && |threads| == old(|threads|)
      ensures threads[me] == Take(FoundNothing)
    {
      ghost var before := Now();
      threads := threads[me := Take(FoundNothing)];
      Record(me, Normal, before);
    }

    /** tryGetTask: own lane first, then one sweep over the others, unless nothing is queued at all. When it finds
        nothing, there is no task that was in the lanes throughout the call. */
    method TryGetTask(me: nat) returns (task: Option<Task>)
      requires Valid() && me < |lanes| && me < |threads| && threads[me] == Take(TryOwn)
      modifies this
      ensures Valid() && |lanes| == old(|lanes|) && me < |threads| && old(history) <= history
      ensures |schedule| <= old(|schedule|)
      ensures task.Some? ==> threads[me] == Execute(task.value, CheckRun)
      ensures task.None? ==> threads[me] == Take(FoundNothing) && NoTaskStayed(history, old(|history|) - 1)
      ensures old(schedule) == [] ==>
        if task.Some? then TasksInLanes(lanes) < TasksInLanes(old(lanes)) else lanes == old(lanes) && AllEmpty(lanes)
    {
      ghost var start := |history| - 1;
      task := TryPopOwn(me);
      if task.Some? {
        return;
      }
      var count := CheckQueued(me, start);
      if count != 0 {
        task := StealFromOthers(me, start);
      }
    }

    /** Without anything queued there is no sweep. */
    method CheckQueued(me: nat, ghost start: nat) returns (count: int)
      requires Valid() && me < |lanes| && me < |threads| && threads[me] == Take(CheckCount)
      requires Trying(history, start, me)
      modifies this
      ensures Valid() && |lanes| == old(|lanes|) && me < |threads| && old(history) <= history
      ensures |schedule| <= old(|schedule|)
      ensures if count == 0 then threads[me] == Take(FoundNothing) && NoTaskStayed(history, start)
              else threads[me] == Take(Steal(1)) && Trying(history, start, me)
      ensures LanesStay() && (count == 0 ==> AllEmpty(lanes))
    {
      ghost var before := history;
      Others(me);
      StillTrying(before, history, start, me, threads[me]);
      before := history;
      count := LoadQueuedCount(me);
      if count == 0 {
        NothingOverlooked(|lanes|, before, start, me, Now());
        NoneCounted();
      } else {
        TryingOn(before, start, me, Now());
      }
    }

    lemma NoneCounted()
      requires Valid() && queuedCount == 0
      ensures AllEmpty(lanes)
    {
      RunInv(|lanes|, history, |history| - 1);
      forall l | 0 <= l < |lanes| ensures lanes[l] == [] {
        NothingQueued(Now(), l);
      }
    }

    method TryPopOwn(me: nat) returns (task: Option<Task>)
      requires Valid() && me < |lanes| && me < |threads| && threads[me] == Take(TryOwn)
      modifies this
      ensures Valid() && |lanes| == old(|lanes|) && me < |threads| && old(history) <= history
      ensures |schedule| <= old(|schedule|)
      ensures task.Some? ==> threads[me] == Execute(task.value, CheckRun)
      ensures task.None? ==> threads[me] == Take(CheckCount) && Trying(history, old(|history|) - 1, me)
      ensures Looked(task, {me})
    {
      ghost var start := |history| - 1;
      Others(me);
      task := TryPopCounted(me, me, start);
    }

    /** `try_pop` and, when it takes a task, the decrement of queuedCount. */
    method TryPopCounted(me: nat, lane: nat, ghost start: nat) returns (task: Option<Task>)
      requires Valid() && me < |lanes| && me < |threads| && lane < |lanes| && threads[me].Take?
      requires match threads[me].take
               case TryOwn => lane == me
               case Steal(offset) => offset < |lanes| && lane == Victim(me, offset, |lanes|)
               case _ => false
      requires Trying(history, start, me)
      modifies this
      ensures Valid() && |lanes| == old(|lanes|) && me < |threads| && old(history) <= history
      ensures |schedule| <= old(|schedule|)
      ensures task.Some? ==> threads[me] == Execute(task.value, CheckRun)
      ensures task.None? ==> Trying(history, start, me)
      ensures Looked(task, {lane})
      ensures task.None? ==>
        threads[me] == Take(match old(threads[me]).take case Steal(offset) => Steal(offset + 1) case _ => CheckCount)
    {
      ghost var before := history;
      task := TryPop(me, lane);
      if task.Some? {
        PopLowers(old(lanes), lane);
        Others(me);
        SubtractPopped(me);
      } else {
        TryingOn(before, start, me, Now());
      }
    }

    ghost predicate AreEmpty(visited: set<nat>)
      reads this
    {
      forall l :: l in visited && l < |lanes| ==> lanes[l] == []
    }

    /** The sweep of tryGetTask. */
    method StealFromOthers(me: nat, ghost start: nat) returns (task: Option<Task>)
      requires Valid() && me < |lanes| && me < |threads| && threads[me] == Take(Steal(1))
      requires Trying(history, start, me)
      modifies this
      ensures Valid() && |lanes| == old(|lanes|) && me < |threads| && old(history) <= history
      ensures |schedule| <= old(|schedule|)
      ensures task.Some? ==> threads[me] == Execute(task.value, CheckRun)
      ensures task.None? ==> threads[me] == Take(FoundNothing) && NoTaskStayed(history, start)
      ensures old(schedule) == [] && old(AreEmpty({me})) ==>
        if task.Some? then TasksInLanes(lanes) < TasksInLanes(old(lanes)) else lanes == old(lanes) && AllEmpty(lanes)
    {
      var n := |lanes|;
      var offset := 1;
      ghost var visited := {me};
      while offset < n
        invariant 1 <= offset && n == |lanes| == old(|lanes|) && old(history) <= history && me < |threads|
        invariant |schedule| <= old(|schedule|) && visited == Visited(me, offset, n)
        invariant Valid() && Trying(history, start, me) && threads[me] == Take(Steal(offset))
        invariant LanesStay() && (old(schedule) == [] && old(AreEmpty({me})) ==> AreEmpty(visited))
        decreases n - offset
      {
        var victim := (me + offset) % n;
        task := StealFrom(me, victim, start);
        if task.Some? {
          return;
        }
        OneMoreVisited(me, offset, n);
        offset, visited := offset + 1, visited + {victim};
      }
      task := None;
      FinishSweep(me, offset, start);
    }

    method FinishSweep(me: nat, ghost offset: nat, ghost start: nat)
      requires Valid() && me < |lanes| <= offset && me < |threads| && threads[me] == Take(Steal(offset))
      requires Trying(history, start, me)
      modifies this
      ensures Valid() && me < |threads| && old(history) <= history && schedule == old(schedule)
      ensures threads[me] == Take(FoundNothing) && NoTaskStayed(history, start)
      ensures lanes == old(lanes) && (old(AreEmpty(Visited(me, offset, |lanes|))) ==> AllEmpty(lanes))
    {
      AllVisited(me, offset, |lanes|);
      ghost var before := history;
      EndSweep(me);
      NothingOverlooked(|lanes|, before, start, me, Now());
    }

    method StealFrom(me: nat, victim: nat, ghost start: nat) returns (task: Option<Task>)
      requires Valid() && me < |lanes| && me < |threads| && threads[me].Take? && threads[me].take.Steal?
      requires threads[me].take.offset < |lanes| && victim == (me + threads[me].take.offset) % |lanes|
      requires Trying(history, start, me)
      modifies this
      ensures Valid() && |lanes| == old(|lanes|) && me < |threads| && old(history) <= history
      ensures |schedule| <= old(|schedule|)
      ensures task.Some? ==> threads[me] == Execute(task.value, CheckRun)
      ensures task.None? ==>
        threads[me] == Take(Steal(old(threads[me]).take.offset + 1)) && Trying(history, start, me)
      ensures Looked(task, {victim})
    {
      ghost var before := history;
      Others(me);
      StillTrying(before, history, start, me, threads[me]);
      task := TryPopCounted(me, victim, start);
    }

    // ---- retire ----

    /** The section of retire that looks the tag up and marks its node. None: there is no such tag. */
    method MarkRetired(me: nat) returns (node: Option<nat>)
      requires Valid() && me < |threads| && threads[me].Mark?
      requires MayMark(threads[me].tag)
      modifies this
      ensures Stepped(me, Normal) && |lanes| == old(|lanes|) && |threads| == old(|threads|)
      ensures threads[me] == if node.None? then RetireDone(None) else Pc.Retire(node.value, 0, Sweep(0))
      ensures var tag := old(threads[me]).tag;
        node == if tag in old(tags).index then Some(old(tags).index[tag]) else None
    {
      ghost var before := Now();
      TagsAreLive();
      var tag := threads[me].tag;
      if tag !in tags.index || tags.index[tag] !in tags.nodes {
        node := None;
        threads := threads[me := RetireDone(None)];
      } else {
        var k := tags.index[tag];
        tags := tags.(nodes := tags.nodes[k := tags.nodes[k].(retired := true)]);
        node := Some(k);
        threads := threads[me := Pc.Retire(k, 0, Sweep(0))];
      }
      Record(me, Normal, before);
    }

    lemma TagsAreLive()
      requires Valid()
      ensures forall g :: g in tags.index ==> tags.index[g] in tags.nodes
    {
      RunInv(|lanes|, history, |history| - 1);
    }

    /** Retirements of one tag do not overlap: what the owner of the tag guarantees. */
    predicate MayMark(tag: nat)
      reads this
    {
      tag in tags.index && tags.index[tag] in tags.nodes ==> !tags.nodes[tags.index[tag]].retired
    }

    /** `remove_if` on one lane, under its mutex: the tasks of the node go, the others keep their order. */
    method RemoveFromLane(me: nat) returns (removed: nat)
      requires Valid() && me < |threads| && threads[me].Retire? && threads[me].retire.Sweep?
      requires threads[me].retire.lane < |lanes|
      modifies this
      ensures Stepped(me, Normal) && |lanes| == old(|lanes|) && |threads| == old(|threads|)
      ensures var Retire(k, sum, p) := old(threads[me]);
        && removed == |RemovedFates(old(lanes)[p.lane], k)| && lanes[p.lane] == Without(old(lanes)[p.lane], k)
        && threads[me] == Pc.Retire(k, sum + removed, Sweep(p.lane + 1))
    {
      ghost var before := Now();
      var Retire(k, sum, p) := threads[me];
      var kept, gone := RemoveIf(lanes[p.lane], k);
      removed := |gone|;
      lanes := lanes[p.lane := kept];
      fates := fates + gone;
      threads := threads[me := Pc.Retire(k, sum + removed, Sweep(p.lane + 1))];
      SweepNext(before, me, k, sum, p.lane);
      Record(me, Normal, before);
    }

    /** `queuedCount -= removedCount`, after the last lane. */
    method SubtractRemoved(me: nat)
      requires Valid() && me < |threads| && threads[me].Retire? && threads[me].retire.SubtractQueued?
      modifies this
      ensures Stepped(me, Normal) && |lanes| == old(|lanes|) && |threads| == old(|threads|)
      ensures threads[me] == Pc.Retire(old(threads[me]).node, old(threads[me]).removed, SubtractOutstanding)
    {
      ghost var before := Now();
      queuedCount := queuedCount - threads[me].removed;
      threads := threads[me := threads[me].(retire := SubtractOutstanding)];
      Record(me, Normal, before);
    }

    /** The last lane has been swept. */
    method EndRemoval(me: nat)
      requires Valid() && me < |threads| && threads[me].Retire? && threads[me].retire.Sweep?
      requires threads[me].retire.lane >= |lanes|
      modifies this
      ensures Stepped(me, Normal) && |lanes| == old(|lanes|) && |threads| == old(|threads|)
      ensures threads[me] == Pc.Retire(old(threads[me]).node, old(threads[me]).removed, SubtractQueued)
    {
      ghost var before := Now();
      threads := threads[me := threads[me].(retire := SubtractQueued)];
      Record(me, Normal, before);
    }

    /** `outstandingTaskCount -= removedCount`. */
    method SubtractOutstandingTasks(me: nat)
      requires Valid() && me < |threads| && threads[me].Retire? && threads[me].retire.SubtractOutstanding?
      modifies this
      ensures Stepped(me, Normal) && |lanes| == old(|lanes|) && |threads| == old(|threads|)
      ensures threads[me] == Await(old(threads[me]).node, false)
    {
      ghost var before := Now();
      RetiringNodeIsLive(me);
      var Retire(k, removed, _) := threads[me];
      var t := tags.nodes[k];
      tags := tags.(nodes := tags.nodes[k := t.(outstanding := t.outstanding - removed)]);
      threads := threads[me := Await(k, false)];
      Record(me, Normal, before);
    }

    /** What a retirer may rely on: the node that it marked is in the map, under its own tag. */
    lemma RetiringNodeIsLive(me: nat)
      requires Valid() && me < |threads| && RetiringNode(threads[me]).Some?
      ensures var k := RetiringNode(threads[me]).value;
        k in tags.nodes && tags.nodes[k].tag in tags.index && tags.index[tags.nodes[k].tag] == k
    {
      RunInv(|lanes|, history, |history| - 1);
      ThreadMayStep(Now(), me);
    }

    /** The wait for the last outstanding task, from its predicate to the moment when the thread blocks or the node
        is erased, all under tagStateMutex. */
    method AwaitOrErase(me: nat) returns (erased: bool)
      requires Valid() && me < |threads| && threads[me].Await? && !threads[me].parked
      modifies this
      ensures Stepped(me, Normal) && |lanes| == old(|lanes|) && |threads| == old(|threads|)
      ensures var k := old(threads[me]).node; threads[me] == if erased then RetireDone(Some(k)) else Await(k, true)
      ensures !erased ==> me in tags.waiters
    {
      ghost var before := Now();
      RetiringNodeIsLive(me);
      var k := threads[me].node;
      erased := tags.nodes[k].outstanding == 0;
      if erased {
        tags := tags.(nodes := tags.nodes - {k}, index := tags.index - {tags.nodes[k].tag});
        threads := threads[me := RetireDone(Some(k))];
      } else {
        tags := tags.(waiters := tags.waiters + {me});
        threads := threads[me := Await(k, true)];
      }
      Record(me, Normal, before);
    }

    /** The retirer has been notified. */
    method ResumeAwait(me: nat)
      requires Valid() && me < |threads| && threads[me].Await? && threads[me].parked && me !in tags.waiters
      modifies this
      ensures Stepped(me, Normal) && |lanes| == old(|lanes|) && |threads| == old(|threads|)
      ensures threads[me] == Await(old(threads[me]).node, false)
    {
      ghost var before := Now();
      threads := threads[me := threads[me].(parked := false)];
      Record(me, Normal, before);
    }

    /** The removal of a tag's queued tasks, lane by lane, and the correction of both counts. */
    method RemoveQueued(me: nat, k: nat)
      requires Valid() && me < |threads| && threads[me] == Pc.Retire(k, 0, Sweep(0))
      modifies this
      ensures Valid() && |lanes| == old(|lanes|) && me < |threads| && old(history) <= history
      ensures threads[me] == Await(k, false)
    {
      var removedCount := 0;
      for lane := 0 to |lanes|
        invariant Valid() && |lanes| == old(|lanes|) && me < |threads| && old(history) <= history
        invariant threads[me] == Pc.Retire(k, removedCount, Sweep(lane))
      {
        Others(me);
        var removed := RemoveFromLane(me);
        removedCount := removedCount + removed;
      }
      EndRemoval(me);
      CorrectCounts(me);
    }

    method CorrectCounts(me: nat)
      requires Valid() && me < |threads| && threads[me].Retire? && threads[me].retire.SubtractQueued?
      modifies this
      ensures Valid() && |lanes| == old(|lanes|) && me < |threads| && old(history) <= history
      ensures threads[me] == Await(old(threads[me]).node, false)
    {
      Others(me);
      SubtractRemoved(me);
      Others(me);
      SubtractOutstandingTasks(me);
    }

    /** The thread is blocked on tagStateChanged until it is notified, or until nothing more happens. */
    method BlockedUntilNotified(me: nat) returns (notified: bool)
      requires Valid() && me < |threads| && threads[me].Await? && threads[me].parked && me in tags.waiters
      modifies this
      ensures Valid() && |lanes| == old(|lanes|) && me < |threads| && old(history) <= history
      ensures if notified then |schedule| < old(|schedule|) else schedule == [] && me in tags.waiters
      ensures threads[me] == if notified then Await(old(threads[me]).node, false) else old(threads[me])
    {
      while me in tags.waiters && schedule != []
        invariant Valid() && |lanes| == old(|lanes|) && me < |threads| && old(history) <= history
        invariant threads[me] == old(threads[me]) && (|schedule| < old(|schedule|) || me in tags.waiters)
        decreases |schedule|
      {
        Others(me);
      }
      notified := me !in tags.waiters;
      if notified {
        ResumeAwait(me);
      }
    }

    /** The end of retire: it waits until no task of the node is outstanding, for as long as the schedule lasts. */
    method AwaitOutstanding(me: nat, ghost k: nat) returns (finished: bool)
      requires Valid() && me < |threads| && threads[me] == Await(k, false)
      modifies this
      ensures Valid() && |lanes| == old(|lanes|) && me < |threads| && old(history) <= history
      ensures finished ==> threads[me] == RetireDone(Some(k))
      ensures !finished ==> schedule == [] && threads[me] == Await(k, true) && me in tags.waiters
    {
      while true
        invariant Valid() && |lanes| == old(|lanes|) && me < |threads| && old(history) <= history
        invariant threads[me] == Await(k, false)
        decreases |schedule|
      {
        var erased := AwaitOrErase(me);
        if erased {
          return true;
        }
        var notified := BlockedUntilNotified(me);
        if !notified {
          return false;
        }
      }
    }

    /** retire, for as long as the schedule lasts. When it returns, no task of the node that the tag had is queued,
        popped, running or on its way into a lane; it returns at once only if the tag had none. */
    method RetireTag(me: nat) returns (finished: bool)
      requires Valid() && me < |threads| && threads[me].Mark? && MayMark(threads[me].tag)
      modifies this
      ensures Valid() && |lanes| == old(|lanes|) && me < |threads| && old(history) <= history
      ensures var tag := old(threads[me]).tag;
        if tag in old(tags).index
        then finished ==> var k := old(tags).index[tag]; threads[me] == RetireDone(Some(k)) && NoTaskOf(Now(), k)
        else finished && threads[me] == RetireDone(None)
      ensures !finished ==> schedule == [] && threads[me].Await? && me in tags.waiters
    {
      var node := MarkRetired(me);
      if node.None? {
        return true;
      }
      RemoveQueued(me, node.value);
      finished := AwaitOutstanding(me, node.value);
      if finished {
        NoTaskIsLeft(me);
      }
    }

    lemma NoTaskIsLeft(me: nat)
      requires Valid() && me < |threads| && threads[me].RetireDone? && threads[me].retiredNode.Some?
      ensures NoTaskOf(Now(), threads[me].retiredNode.value)
    {
      RetirementBarrier(|lanes|, history, |history| - 1, |history| - 1, me, threads[me].retiredNode.value);
    }

    // ---- enqueue ----

    /** `laneSelector.fetch_add(1)`, and the lane that it selects. */
    method TakeTicket(me: nat) returns (lane: nat)
      requires Valid() && me < |threads| && threads[me].Ticket?
      modifies this
      ensures Stepped(me, Normal) && |lanes| == old(|lanes|) && |threads| == old(|threads|)
      ensures threads[me] == Register(lane, old(threads[me]).tag) && |lanes| > 0 && lane == old(laneSelector) % |lanes|
    {
      ghost var before := Now();
      HasLanes();
      lane := laneSelector % |lanes|;
      laneSelector := (laneSelector + 1) % TICKETS;
      threads := threads[me := Register(lane, threads[me].tag)];
      Record(me, Normal, before);
    }

    lemma HasLanes()
      requires Valid()
      ensures |lanes| > 0
    {
      RunInv(|lanes|, history, |history| - 1);
    }

    /** The registration with the tag, under tagStateMutex. None: the tag is being retired. */
    method RegisterTag(me: nat) returns (task: Option<Task>)
      requires Valid() && me < |threads| && threads[me].Register?
      modifies this
      ensures forall g :: g in old(tags).index ==> old(tags).index[g] in old(tags).nodes
      ensures Stepped(me, Normal) && |lanes| == old(|lanes|) && |threads| == old(|threads|)
      ensures threads[me] == if task.None? then EnqueueDone else Submit(old(threads[me]).lane, task.value, Increment)
      ensures if task.None? then (me, Rejected) in fates else task.value.id == me
      ensures var tag := old(threads[me]).tag;
        && (task.None? <==> tag != 0 && tag in old(tags).index && old(tags).nodes[old(tags).index[tag]].retired)
        && (task.Some? ==> if tag == 0 then task.value.node == None
                           else tag in tags.index && task.value.node == Some(tags.index[tag]))
    {
      ghost var before := Now();
      TagsAreLive();
      var Register(lane, tag) := threads[me];
      task := None;
      if tag == 0 {
        task := Some(Task(me, None));
      } else {
        var (tags', node) := RegisterTask(tags, tag);
        if node.None? {
          fates := fates + [(me, Rejected)];
        } else {
          tags := tags';
          task := Some(Task(me, node));
        }
      }
      threads := threads[me := if task.None? then EnqueueDone else Submit(lane, task.value, Increment)];
      Record(me, Normal, before);
    }

    /** `++queuedCount`, before the push. */
    method AddQueued(me: nat)
      requires Valid() && me < |threads| && threads[me].Submit? && threads[me].submit.Increment?
      modifies this
      ensures Stepped(me, Normal) && |lanes| == old(|lanes|) && |threads| == old(|threads|)
      ensures threads[me] == old(threads[me]).(submit := Push)
    {
      ghost var before := Now();
      queuedCount := queuedCount + 1;
      threads := threads[me := threads[me].(submit := Push)];
      Record(me, Normal, before);
    }

    /** The push, which succeeds. */
    method PushTask(me: nat) returns (queueLength: nat)
      requires Valid() && me < |threads| && threads[me].Submit? && threads[me].submit.Push?
      requires threads[me].lane < |lanes|
      modifies this
      ensures Stepped(me, Normal) && |lanes| == old(|lanes|) && |threads| == old(|threads|)
      ensures var Submit(lane, t, _) := old(threads[me]);
        lanes == old(lanes)[lane := old(lanes)[lane] + [t]] && EndsLane(Now(), lane, t.id, queueLength)
      ensures threads[me] == Gate
    {
      ghost var before := Now();
      var Submit(lane, t, _) := threads[me];
      lanes := lanes[lane := lanes[lane] + [t]];
      queueLength := |lanes[lane]|;
      threads := threads[me := Gate];
      Record(me, Normal, before);
    }

    /** The push, which throws. */
    method FailToPush(me: nat)
      requires Valid() && me < |threads| && threads[me].Submit? && threads[me].submit.Push?
      modifies this
      ensures Stepped(me, Throws) && |lanes| == old(|lanes|) && |threads| == old(|threads|)
      ensures threads[me] == old(threads[me]).(submit := Uncount)
    {
      ghost var before := Now();
      threads := threads[me := threads[me].(submit := Uncount)];
      Record(me, Throws, before);
    }

    /** `--queuedCount` on the way back. */
    method UndoCount(me: nat)
      requires Valid() && me < |threads| && threads[me].Submit? && threads[me].submit.Uncount?
      modifies this
      ensures Stepped(me, Normal) && |lanes| == old(|lanes|) && |threads| == old(|threads|)
      ensures threads[me] == old(threads[me]).(submit := Unregister)
    {
      ghost var before := Now();
      queuedCount := queuedCount - 1;
      threads := threads[me := threads[me].(submit := Unregister)];
      Record(me, Normal, before);
    }

    /** completeTaggedTask on the way back. */
    method UndoRegistration(me: nat)
      requires Valid() && me < |threads| && threads[me].Submit? && threads[me].submit.Unregister?
      modifies this
      ensures Stepped(me, Normal) && |lanes| == old(|lanes|) && |threads| == old(|threads|)
      ensures threads[me] == EnqueueDone && (old(threads[me]).task.id, Failed) in fates
    {
      ghost var before := Now();
      var Submit(_, t, _) := threads[me];
      tags := CompleteTagged(tags, t.node);
      fates := fates + [(t.id, Failed)];
      threads := threads[me := EnqueueDone];
      Record(me, Normal, before);
    }

    /** The idle gate. */
    method LoadIdleCount(me: nat) returns (count: int)
      requires Valid() && me < |threads| && threads[me].Gate?
      modifies this
      ensures Stepped(me, Normal) && |lanes| == old(|lanes|) && |threads| == old(|threads|)
      ensures count == idle.count && threads[me] == if count > 0 then Notify else EnqueueDone
    {
      ghost var before := Now();
      count := idle.count;
      threads := threads[me := if count > 0 then Notify else EnqueueDone];
      Record(me, Normal, before);
    }

    /** `notify_one` under idleMutex: some blocked worker, if there is one. */
    method NotifyOne(me: nat)
      requires Valid() && me < |threads| && threads[me].Notify? && idle.mutex.None?
      modifies this
      ensures Valid() && |lanes| == old(|lanes|) && |threads| == old(|threads|) && history == old(history) + [Now()]
      ensures threads[me] == EnqueueDone && schedule == old(schedule)
    {
      ghost var before := Now();
      if idle.waiters == {} {
        threads := threads[me := EnqueueDone];
        Record(me, Normal, before);
      } else {
        var w :| w in idle.waiters;
        idle := idle.(waiters := idle.waiters - {w});
        threads := threads[me := EnqueueDone];
        Record(me, Notifies(w), before);
      }
    }

    /** The lock of idleMutex, once whoever holds it has let go of it. */
    method AwaitIdleMutex(me: nat) returns (free: bool)
      requires Valid() && me < |threads|
      modifies this
      ensures Valid() && |lanes| == old(|lanes|) && me < |threads| && old(history) <= history && LanesStay()
      ensures threads[me] == old(threads[me]) && |schedule| <= old(|schedule|)
      ensures if free then idle.mutex.None? else idle.mutex.Some? && schedule == []
    {
      while idle.mutex.Some? && schedule != []
        invariant Valid() && |lanes| == old(|lanes|) && me < |threads| && old(history) <= history && LanesStay()
        invariant threads[me] == old(threads[me]) && |schedule| <= old(|schedule|)
        decreases |schedule|
      {
        Others(me);
      }
      free := idle.mutex.None?;
    }

    /** enqueue, for as long as the schedule lasts: the only thing that can hold it up is idleMutex. The task has been
        pushed to the lane that the ticket selects, refused, or taken back, as the result says. */
    method Enqueue(me: nat, throws: bool) returns (finished: bool, result: EnqueueResult)
      requires Valid() && me < |threads| && threads[me].Ticket?
      modifies this
      ensures Valid() && |lanes| == old(|lanes|) > 0 && me < |threads| && old(history) <= history
      ensures if finished then threads[me] == EnqueueDone
              else threads[me] == Notify && idle.mutex.Some? && schedule == []
      ensures (throws ==> !result.Pushed?) && (!throws ==> !result.Threw?)
      ensures Happened(history, old(|history|) - 1, old(laneSelector) % |lanes|, me, result)
    {
      var lane := TakeTicket(me);
      ghost var h := |history| - 1;
      finished, result := EnqueueOn(me, lane, throws);
      StillHappened(history, history, h, old(|history|) - 1, lane, me, result);
    }

    /** enqueue from the moment when the lane is selected. */
    method EnqueueOn(me: nat, lane: nat, throws: bool) returns (finished: bool, result: EnqueueResult)
      requires Valid() && me < |threads| && threads[me].Register? && threads[me].lane == lane < |lanes|
      modifies this
      ensures Valid() && |lanes| == old(|lanes|) && me < |threads| && old(history) <= history
      ensures if finished then threads[me] == EnqueueDone
              else threads[me] == Notify && idle.mutex.Some? && schedule == []
      ensures (throws ==> !result.Pushed?) && (!throws ==> !result.Threw?)
      ensures Happened(history, old(|history|) - 1, lane, me, result)
    {
      Others(me);
      ghost var before := history;
      var task := RegisterTag(me);
      if task.None? {
        JustHappened(before, Now(), lane, me, Refused);
        StillHappened(history, history, |before|, old(|history|) - 1, lane, me, Refused);
        return true, Refused;
      }
      before := history;
      finished, result := SubmitTask(me, lane, throws);
      StillHappened(history, history, |before| - 1, old(|history|) - 1, lane, me, result);
    }

    /** enqueue from the moment when the task exists. */
    method SubmitTask(me: nat, lane: nat, throws: bool) returns (finished: bool, result: EnqueueResult)
      requires Valid() && me < |threads| && threads[me].Submit? && threads[me].submit.Increment?
      requires threads[me].lane == lane < |lanes|
      modifies this
      ensures Valid() && |lanes| == old(|lanes|) && me < |threads| && old(history) <= history
      ensures if finished then threads[me] == EnqueueDone
              else threads[me] == Notify && idle.mutex.Some? && schedule == []
      ensures if throws then result.Threw? else result.Pushed?
      ensures Happened(history, old(|history|) - 1, lane, old(threads[me]).task.id, result)
    {
      CountIn(me);
      ghost var h := |history| - 1;
      if throws {
        UndoSubmit(me, lane);
        finished, result := true, Threw;
      } else {
        finished, result := PushAndWake(me, lane);
      }
      StillHappened(history, history, h, old(|history|) - 1, lane, old(threads[me]).task.id, result);
    }

    method CountIn(me: nat)
      requires Valid() && me < |threads| && threads[me].Submit? && threads[me].submit.Increment?
      modifies this
      ensures Valid() && |lanes| == old(|lanes|) && me < |threads| && old(history) <= history
      ensures threads[me] == old(threads[me]).(submit := Push)
    {
      Others(me);
      AddQueued(me);
      Others(me);
    }

    method PushAndWake(me: nat, lane: nat) returns (finished: bool, result: EnqueueResult)
      requires Valid() && me < |threads| && threads[me].Submit? && threads[me].submit.Push?
      requires threads[me].lane == lane < |lanes|
      modifies this
      ensures Valid() && |lanes| == old(|lanes|) && me < |threads| && old(history) <= history
      ensures if finished then threads[me] == EnqueueDone
              else threads[me] == Notify && idle.mutex.Some? && schedule == []
      ensures result.Pushed? && Happened(history, old(|history|) - 1, lane, old(threads[me]).task.id, result)
    {
      ghost var x, before := threads[me].task.id, history;
      var queueLength := PushTask(me);
      result := Pushed(queueLength);
      JustHappened(before, Now(), lane, x, result);
      before := history;
      finished := WakeOne(me);
      StillHappened(before, history, old(|history|), old(|history|) - 1, lane, x, result);
    }

    /** The way back of enqueue, when the push throws. */
    method UndoSubmit(me: nat, ghost lane: nat)
      requires Valid() && me < |threads| && threads[me].Submit? && threads[me].submit.Push?
      modifies this
      ensures Valid() && |lanes| == old(|lanes|) && me < |threads| && old(history) <= history
      ensures threads[me] == EnqueueDone
      ensures Happened(history, old(|history|) - 1, lane, old(threads[me]).task.id, Threw)
    {
      ghost var x := threads[me].task.id;
      TakeBackCount(me);
      Others(me);
      ghost var before := history;
      UndoRegistration(me);
      JustHappened(before, Now(), lane, x, Threw);
      StillHappened(history, history, |before|, old(|history|) - 1, lane, x, Threw);
    }

    method TakeBackCount(me: nat)
      requires Valid() && me < |threads| && threads[me].Submit? && threads[me].submit.Push?
      modifies this
      ensures Valid() && |lanes| == old(|lanes|) && me < |threads| && old(history) <= history
      ensures threads[me] == Submit(old(threads[me]).lane, old(threads[me]).task, Unregister)
    {
      FailToPush(me);
      Others(me);
      UndoCount(me);
    }

    method WakeOne(me: nat) returns (finished: bool)
      requires Valid() && me < |threads| && threads[me].Gate?
      modifies this
      ensures Valid() && |lanes| == old(|lanes|) && me < |threads| && old(history) <= history
      ensures if finished then threads[me] == EnqueueDone
              else threads[me] == Notify && idle.mutex.Some? && schedule == []
    {
      Others(me);
      var count := LoadIdleCount(me);
      finished := true;
      if count > 0 {
        finished := AwaitIdleMutex(me);
        if finished {
          NotifyOne(me);
        }
      }
    }

    // ---- runWorker ----

    /** The condition of the worker loop. */
    method LoadTerminate(me: nat) returns (stop: bool)
      requires Valid() && me < |threads| && me < |lanes| && threads[me] == Take(LoopHead)
      modifies this
      ensures Stepped(me, Normal) && lanes == old(lanes) && |threads| == old(|threads|)
      ensures stop == terminate && threads[me] == if stop then Exited else Take(TryOwn)
    {
      ghost var before := Now();
      stop := terminate;
      threads := threads[me := if stop then Exited else Take(TryOwn)];
      Record(me, Normal, before);
    }

    lemma HeldIsLive(me: nat)
      requires Valid() && me < |threads| && threads[me].Execute?
      ensures threads[me].task.node.Some? ==> threads[me].task.node.value in tags.nodes
    {
      RunInv(|lanes|, history, |history| - 1);
      ThreadMayStep(Now(), me);
    }

    /** taggedTaskCanRun, under tagStateMutex. */
    method TaggedTaskCanRun(me: nat) returns (run: bool)
      requires Valid() && me < |threads| && threads[me].Execute? && threads[me].execute.CheckRun?
      modifies this
      ensures Stepped(me, Normal) && lanes == old(lanes) && |threads| == old(|threads|)
      ensures var node := threads[me].task.node;
        run <==> node.None? || (node.value in tags.nodes && !tags.nodes[node.value].retired)
      ensures threads[me] == Execute(old(threads[me]).task, if run then Run else Complete(false))
    {
      ghost var before := Now();
      HeldIsLive(me);
      run := CanRun(tags, threads[me].task.node);
      threads := threads[me := Execute(threads[me].task, if run then Run else Complete(false))];
      Record(me, Normal, before);
    }

    /** The task returns or throws; a throw is contained. */
    method EndTask(me: nat)
      requires Valid() && me < |threads| && threads[me].Execute? && threads[me].execute.Run?
      modifies this
      ensures Stepped(me, Normal) && lanes == old(lanes) && |threads| == old(|threads|)
      ensures threads[me] == Execute(old(threads[me]).task, Complete(true))
    {
      ghost var before := Now();
      threads := threads[me := Execute(threads[me].task, Complete(true))];
      Record(me, Normal, before);
    }

    /** completeTaggedTask, under tagStateMutex. */
    method CompleteTaggedTask(me: nat)
      requires Valid() && me < |threads| && threads[me].Execute? && threads[me].execute.Complete?
      modifies this
      ensures Stepped(me, Normal) && lanes == old(lanes) && |threads| == old(|threads|)
      ensures threads[me] == Take(LoopHead)
      ensures var Execute(t, p) := old(threads[me]); (t.id, if p.ran then Executed else Skipped) in fates
    {
      ghost var before := Now();
      var Execute(t, p) := threads[me];
      tags := CompleteTagged(tags, t.node);
      fates := fates + [(t.id, if p.ran then Executed else Skipped)];
      threads := threads[me := Take(LoopHead)];
      Record(me, Normal, before);
    }

    /** `++idleCount`. */
    method EnterIdle(me: nat)
      requires Valid() && me < |threads| && me < |lanes| && threads[me] == Take(FoundNothing)
      modifies this
      ensures Stepped(me, Normal) && lanes == old(lanes) && |threads| == old(|threads|)
      ensures threads[me] == Idle(Locking)
    {
      ghost var before := Now();
      idle := idle.(count := idle.count + 1);
      threads := threads[me := Idle(Locking)];
      Record(me, Normal, before);
    }

    /** idleMutex is locked: at first, or on waking. */
    method LockIdleMutex(me: nat)
      requires Valid() && me < |threads| && idle.mutex.None? && threads[me].Idle?
      requires (threads[me].idle.Locking? || threads[me].idle.Woken?)
      modifies this
      ensures Stepped(me, Normal) && lanes == old(lanes) && |threads| == old(|threads|)
      ensures var p := old(threads[me]).idle;
        threads[me] == Idle(EvalTerminate(p.Woken? && p.timedOut))
    {
      ghost var before := Now();
      var p := threads[me].idle;
      idle := idle.(mutex := Some(me));
      threads := threads[me := Idle(EvalTerminate(p.Woken? && p.timedOut))];
      Record(me, Normal, before);
    }

    /** The load of `terminate` in the wait predicate, under idleMutex, which is let go of when the wait is over. */
    method LoadTerminateInWait(me: nat) returns (over: bool)
      requires Valid() && me < |threads| && threads[me].Idle? && threads[me].idle.EvalTerminate?
      modifies this
      ensures Stepped(me, Normal) && lanes == old(lanes) && |threads| == old(|threads|)
      ensures over == terminate
      ensures threads[me] == Idle(if over then Leaving else EvalCount(old(threads[me]).idle.timedOut))
    {
      ghost var before := Now();
      over := terminate;
      if over {
        idle := idle.(mutex := None);
      }
      threads := threads[me := Idle(if over then Leaving else EvalCount(threads[me].idle.timedOut))];
      Record(me, Normal, before);
    }

    /** The load of `queuedCount` in the wait predicate, likewise. */
    method LoadQueuedCountInWait(me: nat) returns (over: bool)
      requires Valid() && me < |threads| && threads[me].Idle? && threads[me].idle.EvalCount?
      modifies this
      ensures Stepped(me, Normal) && lanes == old(lanes) && |threads| == old(|threads|)
      ensures over == (queuedCount > 0 || old(threads[me]).idle.timedOut)
      ensures threads[me] == Idle(if over then Leaving else Blocking)
    {
      ghost var before := Now();
      over := queuedCount > 0 || threads[me].idle.timedOut;
      if over {
        idle := idle.(mutex := None);
      }
      threads := threads[me := Idle(if over then Leaving else Blocking)];
      Record(me, Normal, before);
    }

    /** The wait predicate: two loads, between which the other threads run. The wait is over exactly if the first load
        found `terminate` set, or the second found something queued or came after the timeout. */
    method EvaluatePredicate(me: nat) returns (over: bool)
      requires Valid() && me < |threads| && threads[me].Idle? && threads[me].idle.EvalTerminate?
      modifies this
      ensures Valid() && |lanes| == old(|lanes|) && me < |threads| && old(history) <= history && LanesStay()
      ensures |schedule| <= old(|schedule|)
      ensures threads[me] == Idle(if over then Leaving else Blocking)
      ensures over <==> old(terminate) || queuedCount > 0 || old(threads[me]).idle.timedOut
    {
      over := LoadTerminateInWait(me);
      if !over {
        Others(me);
        over := LoadQueuedCountInWait(me);
      }
    }

    /** The worker blocks on idleCv, which lets go of idleMutex. */
    method BlockIdle(me: nat)
      requires Valid() && me < |threads| && threads[me] == Idle(Blocking)
      modifies this
      ensures Stepped(me, Normal) && lanes == old(lanes) && |threads| == old(|threads|)
      ensures threads[me] == Idle(Blocked) && me in idle.waiters
    {
      ghost var before := Now();
      idle := idle.(mutex := None, waiters := idle.waiters + {me});
      threads := threads[me := Idle(Blocked)];
      Record(me, Normal, before);
    }

    /** The worker wakes up because it has been notified. */
    method WakeNotified(me: nat)
      requires Valid() && me < |threads| && threads[me] == Idle(Blocked) && me !in idle.waiters
      modifies this
      ensures Stepped(me, Normal) && lanes == old(lanes) && |threads| == old(|threads|)
      ensures threads[me] == Idle(Woken(false))
    {
      ghost var before := Now();
      threads := threads[me := Idle(Woken(false))];
      Record(me, Normal, before);
    }

    /** The worker wakes up because the wait has timed out. */
    method WakeTimedOut(me: nat)
      requires Valid() && me < |threads| && threads[me] == Idle(Blocked)
      modifies this
      ensures Stepped(me, TimesOut) && lanes == old(lanes) && |threads| == old(|threads|)
      ensures threads[me] == Idle(Woken(true))
    {
      ghost var before := Now();
      idle := idle.(waiters := idle.waiters - {me});
      threads := threads[me := Idle(Woken(true))];
      Record(me, TimesOut, before);
    }

    /** `--idleCount`. */
    method LeaveIdle(me: nat)
      requires Valid() && me < |threads| && threads[me] == Idle(Leaving)
      modifies this
      ensures Stepped(me, Normal) && lanes == old(lanes) && |threads| == old(|threads|)
      ensures threads[me] == Take(LoopHead)
    {
      ghost var before := Now();
      idle := idle.(count := idle.count - 1);
      threads := threads[me := Take(LoopHead)];
      Record(me, Normal, before);
    }

    /** What runWorker does with a task that it has taken. */
    method ExecuteTask(me: nat)
      requires Valid() && me < |threads| && threads[me].Execute? && threads[me].execute.CheckRun?
      modifies this
      ensures Valid() && |lanes| == old(|lanes|) && me < |threads| && old(history) <= history && LanesStay()
      ensures |schedule| <= old(|schedule|)
      ensures threads[me] == Take(LoopHead)
      ensures exists h :: old(|history|) <= h < |history| && CheckedRight(history, h, old(threads[me]).task, fates)
    {
      ghost var t := threads[me].task;
      var run, h := CheckTask(me);
      if run {
        RunTask(me);
      }
      CompleteTaggedTask(me);
      assert CheckedRight(history, h, t, fates);
    }

    method CheckTask(me: nat) returns (run: bool, ghost h: nat)
      requires Valid() && me < |threads| && threads[me].Execute? && threads[me].execute.CheckRun?
      modifies this
      ensures Valid() && |lanes| == old(|lanes|) && me < |threads| && old(history) <= history && LanesStay()
      ensures |schedule| <= old(|schedule|)
      ensures threads[me] == Execute(old(threads[me]).task, if run then Run else Complete(false))
      ensures old(|history|) <= h < |history| && (run <==> MayRunAt(history, h, old(threads[me]).task))
    {
      Others(me);
      run := TaggedTaskCanRun(me);
      h := |history| - 1;
      Others(me);
    }

    method RunTask(me: nat)
      requires Valid() && me < |threads| && threads[me].Execute? && threads[me].execute.Run?
      modifies this
      ensures Valid() && |lanes| == old(|lanes|) && me < |threads| && old(history) <= history && LanesStay()
      ensures |schedule| <= old(|schedule|)
      ensures threads[me] == Execute(old(threads[me]).task, Complete(true))
    {
      EndTask(me);
      Others(me);
    }

    /** The worker is blocked until it is notified or the wait times out. */
    method BlockedUntilWoken(me: nat)
      requires Valid() && me < |threads| && threads[me] == Idle(Blocking)
      modifies this
      ensures Valid() && |lanes| == old(|lanes|) && me < |threads| && old(history) <= history && LanesStay()
      ensures |schedule| <= old(|schedule|)
      ensures threads[me].Idle? && threads[me].idle.Woken?
      ensures threads[me].idle.timedOut || |schedule| < old(|schedule|)
    {
      Others(me);
      BlockIdle(me);
      var timesOut := false;
      while me in idle.waiters && !timesOut
        invariant Valid() && |lanes| == old(|lanes|) && me < |threads| && old(history) <= history && LanesStay()
        invariant threads[me] == Idle(Blocked) && |schedule| <= old(|schedule|)
        invariant me in idle.waiters || |schedule| < old(|schedule|)
        decreases !timesOut, |schedule|
      {
        if schedule == [] {
          timesOut := true;
        } else {
          timesOut := *;
          Others(me);
        }
      }
      if timesOut {
        WakeTimedOut(me);
      } else {
        WakeNotified(me);
      }
    }

    /** The idle wait of runWorker, for as long as the schedule lasts. */
    method WaitIdle(me: nat) returns (over: bool)
      requires Valid() && me < |lanes| && me < |threads| && threads[me] == Take(FoundNothing)
      modifies this
      ensures Valid() && |lanes| == old(|lanes|) && me < |threads| && old(history) <= history && LanesStay()
      ensures |schedule| <= old(|schedule|)
      ensures if over then threads[me] == Take(LoopHead) else schedule == [] && IsHeldUp(me)
    {
      EnterIdle(me);
      over := WaitFor(me);
      if over {
        BackToWork(me);
      }
    }

    method BackToWork(me: nat)
      requires Valid() && me < |threads| && threads[me] == Idle(Leaving)
      modifies this
      ensures Valid() && |lanes| == old(|lanes|) && me < |threads| && old(history) <= history && LanesStay()
      ensures |schedule| <= old(|schedule|) && threads[me] == Take(LoopHead)
    {
      Others(me);
      LeaveIdle(me);
    }

    /** `wait_for` with its predicate: from the lock of idleMutex to the end of the wait. */
    method WaitFor(me: nat) returns (over: bool)
      requires Valid() && me < |lanes| && me < |threads| && threads[me] == Idle(Locking)
      modifies this
      ensures Valid() && |lanes| == old(|lanes|) && me < |threads| && old(history) <= history && LanesStay()
      ensures |schedule| <= old(|schedule|)
      ensures if over then threads[me] == Idle(Leaving) else schedule == [] && IsHeldUp(me)
    {
      over := false;
      while !over
        invariant Valid() && |lanes| == old(|lanes|) && me < |threads| && old(history) <= history && LanesStay()
        invariant |schedule| <= old(|schedule|)
        invariant if over then threads[me] == Idle(Leaving)
                  else threads[me].Idle? && (threads[me].idle.Locking? || threads[me].idle.Woken?)
        decreases Rounds(threads[me]), |schedule|
      {
        var free := AwaitIdleMutex(me);
        if !free {
          return false;
        }
        over := TryWait(me);
      }
    }

    /** A wait that has timed out, or is over, is not begun again. */
    static function Rounds(pc: Pc): nat {
      if pc.Idle? && (pc.idle.Leaving? || (pc.idle.Woken? && pc.idle.timedOut)) then
        (if pc.idle.Leaving? then 0 else 1)
      else 2
    }

    /** One round of the wait: the lock, the predicate, and the block when the predicate is false. */
    method TryWait(me: nat) returns (over: bool)
      requires Valid() && me < |threads| && idle.mutex.None?
      requires threads[me].Idle? && (threads[me].idle.Locking? || threads[me].idle.Woken?)
      modifies this
      ensures Valid() && |lanes| == old(|lanes|) && me < |threads| && old(history) <= history && LanesStay()
      ensures |schedule| <= old(|schedule|)
      ensures old(threads[me]).idle == Woken(true) ==> over
      ensures if over then threads[me] == Idle(Leaving)
              else threads[me].Idle? && threads[me].idle.Woken? &&
                   (threads[me].idle.timedOut || |schedule| < old(|schedule|))
    {
      LockIdleMutex(me);
      Others(me);
      over := EvaluatePredicate(me);
      if !over {
        BlockedUntilWoken(me);
      }
    }

    /** runWorker, for as long as the schedule lasts, and then until it has found nothing in a round in which nobody
        else moved: either the worker has exited on `terminate`, or all lanes are empty, or somebody else keeps
        idleMutex. */
    method RunWorker(me: nat) returns (exited: bool)
      requires Valid() && me < |lanes| && me < |threads| && threads[me] == Take(LoopHead)
      modifies this
      ensures Valid() && |lanes| == old(|lanes|) && me < |threads| && old(history) <= history
      ensures exited ==> threads[me] == Exited && terminate
      ensures !exited ==> schedule == [] && (AllEmpty(lanes) || IsHeldUp(me))
    {
      var stop := LoadTerminate(me);
      var quiet := false;
      while !stop && !quiet
        invariant Valid() && |lanes| == old(|lanes|) && me < |threads| && old(history) <= history
        invariant if stop then threads[me] == Exited && terminate else threads[me] == Take(TryOwn)
        invariant quiet ==> schedule == [] && AllEmpty(lanes)
        decreases !stop, |schedule|, TasksInLanes(lanes), !quiet
      {
        var alone := schedule == [];
        var ran, found := RunOne(me);
        if !ran {
          return false;
        }
        stop := LoopAgain(me);
        quiet := alone && !found;
      }
      exited := stop;
    }

    /** The worker waits for idleMutex, which is locked. */
    predicate IsHeldUp(me: nat)
      reads this
    {
      me < |threads| && threads[me].Idle? && (threads[me].idle.Locking? || threads[me].idle.Woken?) && idle.mutex.Some?
    }

    method LoopAgain(me: nat) returns (stop: bool)
      requires Valid() && me < |threads| && me < |lanes| && threads[me] == Take(LoopHead)
      modifies this
      ensures Valid() && |lanes| == old(|lanes|) && me < |threads| && old(history) <= history && LanesStay()
      ensures if stop then threads[me] == Exited && terminate else threads[me] == Take(TryOwn)
      ensures schedule == [] || |schedule| < old(|schedule|)
    {
      Others(me);
      stop := LoadTerminate(me);
    }

    /** The body of the worker loop: one task, or one idle wait. */
    method RunOne(me: nat) returns (over: bool, found: bool)
      requires Valid() && me < |lanes| && me < |threads| && threads[me] == Take(TryOwn)
      modifies this
      ensures Valid() && |lanes| == old(|lanes|) && me < |threads| && old(history) <= history
      ensures |schedule| <= old(|schedule|)
      ensures if over then threads[me] == Take(LoopHead) else schedule == [] && IsHeldUp(me)
      ensures old(schedule) == [] ==>
        if found then TasksInLanes(lanes) < TasksInLanes(old(lanes)) else lanes == old(lanes) && AllEmpty(lanes)
    {
      var task := TryGetTask(me);
      found := task.Some?;
      if found {
        ExecuteTask(me);
        over := true;
      } else {
        over := WaitIdle(me);
      }
    }
  }
}
