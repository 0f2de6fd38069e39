/** What the pool promises, for every state of every run. */
module PoolTheorems {
  import opened Basics
  import opened Pool
  import opened PoolSums
  import opened PoolLaws
  import opened PoolInvariants

  // ---- No task is stranded ----

  function TasksInLanes(lanes: seq<seq<Task>>): nat {
    if lanes == [] then 0 else |lanes[0]| + TasksInLanes(lanes[1..])
  }

  /** Workers that run and execute no task: between tasks, scanning, on their way into the idle wait or out of
      it, or blocked with a notification on its way. */
  ghost function AwakeWorkers(s: State): set<nat> {
    set w | 0 <= w < |s.threads| && w !in s.sh.idle.waiters &&
      (s.threads[w].Take? || (s.threads[w].Idle? && s.threads[w] != Idle(Blocking)))
  }

  /** Producers that have pushed and not yet passed the idle gate or the notification behind it. */
  ghost function ProducersInFlight(s: State): set<nat> {
    set p | 0 <= p < |s.threads| && (s.threads[p].Gate? || s.threads[p].Notify?)
  }

  lemma {:induction false} QueuedIsLength(lanes: seq<seq<Task>>)
    ensures LanesSum(Queued, lanes) == TasksInLanes(lanes)
  {
    if lanes != [] {
      LaneLength(lanes[0]);
      QueuedIsLength(lanes[1..]);
    }
  }

  lemma {:induction false} LaneLength(lane: seq<Task>)
    ensures LaneSum(Queued, lane) == |lane|
  {
    if lane != [] {
      LaneLength(lane[1..]);
    }
  }

  lemma ReadyCount(s: State)
    requires WaitersOk(s)
    ensures Sum(Ready, s.threads) == |AwakeWorkers(s)| + |ProducersInFlight(s)| + |s.sh.idle.waiters|
  {
    var a, p, w := AwakeWorkers(s), ProducersInFlight(s), s.sh.idle.waiters;
    ThreeSets(a, p, w);
    forall i: nat ensures i in a + p + w <==> i < |s.threads| && Weight(Ready, i, s.threads[i]) == 1 {
      ReadyMember(s, i);
    }
    SumCountsSet(Ready, s.threads, a + p + w);
  }

  lemma ThreeSets(a: set<nat>, b: set<nat>, c: set<nat>)
    requires a !! b && a !! c && b !! c
    ensures |a + b + c| == |a| + |b| + |c|
  {
  }

  lemma ReadyMember(s: State, i: nat)
    requires WaitersOk(s)
    ensures i in AwakeWorkers(s) || i in ProducersInFlight(s) || i in s.sh.idle.waiters <==>
      i < |s.threads| && Weight(Ready, i, s.threads[i]) == 1
  {
  }

  /** Before a stop is requested, the tasks in the lanes never outnumber the awake workers and the producers
      that are still to wake one, as long as any worker sleeps or is about to. */
  lemma NoStrandedTask(workers: nat, run: seq<State>, i: nat)
    requires IsRun(workers, run) && i < |run|
    requires !run[i].sh.terminate && SomeParked(run[i])
    ensures TasksInLanes(run[i].sh.queues.lanes) <= |AwakeWorkers(run[i])| + |ProducersInFlight(run[i])|
  {
    RunInv(workers, run, i);
    QueuedIsLength(run[i].sh.queues.lanes);
    ReadyCount(run[i]);
  }

  // ---- The counters count what they should ----

  ghost function InIdleRegion(s: State): set<nat> {
    set w | 0 <= w < |s.threads| && s.threads[w].Idle?
  }

  /** queuedCount is the tasks in the lanes plus the work in progress of producers and removers, so that it never
      underflows; idleCount is the number of workers in the idle region; the outstanding count of a node is the
      tasks of that node, wherever they are. */
  lemma CountersAgree(workers: nat, run: seq<State>, i: nat, k: nat)
    requires IsRun(workers, run) && i < |run|
    ensures var s := run[i];
      && s.sh.queues.queuedCount == TasksInLanes(s.sh.queues.lanes) + Sum(Queued, s.threads)
      && s.sh.idle.count == |InIdleRegion(s)|
      && Outstanding(s.sh.tags, k) == LanesSum(OfNode(k), s.sh.queues.lanes) + Sum(OfNode(k), s.threads)
  {
    var s := run[i];
    RunInv(workers, run, i);
    QueuedIsLength(s.sh.queues.lanes);
    SumCountsSet(InIdle, s.threads, InIdleRegion(s));
    assert Outstanding(s.sh.tags, k) == Total(OfNode(k), s);
  }

  /** The assertions in completeTaggedTask, retire and finishAllThreads hold whenever they are reached. */
  lemma AssertionsHold(workers: nat, run: seq<State>, i: nat, me: nat)
    requires IsRun(workers, run) && i < |run| && me < |run[i].threads|
    ensures var s, pc := run[i], run[i].threads[me];
      // every node that is told of a completion is live and has a task outstanding
      && (Held(pc).Some? && Held(pc).value.node.Some? ==> Outstanding(s.sh.tags, Held(pc).value.node.value) > 0)
      // a retirer never subtracts more than there is
      && (pc.Retire? ==> pc.node in s.sh.tags.nodes && s.sh.tags.nodes[pc.node].outstanding >= pc.removed)
      // a removal never takes queuedCount below zero
      && s.sh.queues.queuedCount >= UncountedOf(pc)
      // once the workers are gone, nobody is counted as idle
      && (AllExited(s) ==> s.sh.idle.count == 0)
  {
    var s, pc := run[i], run[i].threads[me];
    RunInv(workers, run, i);
    if Held(pc).Some? && Held(pc).value.node.Some? {
      OutstandingCovers(s, me, Held(pc).value.node.value);
    }
    if pc.Retire? {
      ThreadMayStep(s, me);
      OutstandingCovers(s, me, pc.node);
    }
    SumUpdate(Queued, s.threads, me, Exited);
    if AllExited(s) {
      SumZero(InIdle, s.threads);
    }
  }

  lemma OutstandingCovers(s: State, me: nat, k: nat)
    requires NodesOk(s) && me < |s.threads|
    ensures Outstanding(s.sh.tags, k) >= StandsFor(k, s.threads[me])
  {
    SumUpdate(OfNode(k), s.threads, me, Exited);
    assert Outstanding(s.sh.tags, k) == Total(OfNode(k), s);
  }

  // ---- Pointers into the tag map ----

  /** No lane and no thread refers to a node that is not in the map. */
  lemma PointersAreLive(workers: nat, run: seq<State>, i: nat)
    requires IsRun(workers, run) && i < |run|
    ensures var s := run[i];
      && (forall l, p :: 0 <= l < |s.sh.queues.lanes| && 0 <= p < |s.sh.queues.lanes[l]| ==>
            Live(s.sh.tags, s.sh.queues.lanes[l][p].node))
      && (forall w :: 0 <= w < |s.threads| && Held(s.threads[w]).Some? ==>
            Live(s.sh.tags, Held(s.threads[w]).value.node))
      && (forall w :: 0 <= w < |s.threads| && RetiringNode(s.threads[w]).Some? ==>
            RetiringNode(s.threads[w]).value in s.sh.tags.nodes)
  {
    var s := run[i];
    RunInv(workers, run, i);
    forall l, p | 0 <= l < |s.sh.queues.lanes| && 0 <= p < |s.sh.queues.lanes[l]|
      ensures Live(s.sh.tags, s.sh.queues.lanes[l][p].node)
    {
      if s.sh.queues.lanes[l][p].node.Some? {
        TaskWeighs(OfNode(s.sh.queues.lanes[l][p].node.value), s.sh.queues.lanes, l, p);
        assert Outstanding(s.sh.tags, s.sh.queues.lanes[l][p].node.value) ==
          Total(OfNode(s.sh.queues.lanes[l][p].node.value), s);
      }
    }
    forall w | 0 <= w < |s.threads| ensures MayStep(s.sh, s.threads[w]) {
      ThreadMayStep(s, w);
    }
  }

  lemma {:induction false} LaneTaskWeighs(m: Measure, lane: seq<Task>, p: nat)
    requires p < |lane|
    ensures LaneSum(m, lane) >= TaskWeight(m, lane[p])
  {
    if p > 0 {
      LaneTaskWeighs(m, lane[1..], p - 1);
    }
  }

  lemma TaskWeighs(m: Measure, lanes: seq<seq<Task>>, l: nat, p: nat)
    requires l < |lanes| && p < |lanes[l]|
    ensures LanesSum(m, lanes) >= TaskWeight(m, lanes[l][p])
  {
    LanesSumUpdate(m, lanes, l, []);
    LaneTaskWeighs(m, lanes[l], p);
  }

  // ---- The retirement barrier ----

  /** Node k has been erased, and its number will not be given again. */
  ghost predicate Erased(s: State, k: nat) {
    k !in s.sh.tags.nodes && k < s.sh.tags.nextNode
  }

  /** No lane holds a task of node k, and no thread holds one, has registered one or has taken one out. */
  ghost predicate NoTaskOf(s: State, k: nat) {
    && (forall l, p :: 0 <= l < |s.sh.queues.lanes| && 0 <= p < |s.sh.queues.lanes[l]| ==>
          s.sh.queues.lanes[l][p].node != Some(k))
    && (forall w :: 0 <= w < |s.threads| ==> StandsFor(k, s.threads[w]) == 0)
  }

  lemma ErasedHasNoTask(s: State, k: nat)
    requires NodesOk(s) && k !in s.sh.tags.nodes
    ensures NoTaskOf(s, k)
  {
    assert Outstanding(s.sh.tags, k) == Total(OfNode(k), s);
    forall l, p | 0 <= l < |s.sh.queues.lanes| && 0 <= p < |s.sh.queues.lanes[l]|
      ensures s.sh.queues.lanes[l][p].node != Some(k)
    {
      TaskWeighs(OfNode(k), s.sh.queues.lanes, l, p);
    }
    forall w | 0 <= w < |s.threads| ensures StandsFor(k, s.threads[w]) == 0 {
      SumUpdate(OfNode(k), s.threads, w, Exited);
    }
  }

  lemma StepTags(s: State, s': State)
    requires Inv(s) && IsStep(s, s')
    ensures TagsEvolve(s.sh.tags, s'.sh.tags)
  {
    var e :| Next(s, e) == Some(s');
    match e {
      case Call(entry) =>
      case Step(me, choice) => NodesKept(s, me, s');
    }
  }

  lemma RunTags(workers: nat, run: seq<State>, j: nat)
    requires IsRun(workers, run) && 0 < j < |run|
    ensures TagsEvolve(run[j - 1].sh.tags, run[j].sh.tags)
  {
    RunInv(workers, run, j - 1);
    assert StepAt(run, j);
    StepTags(run[j - 1], run[j]);
  }

  lemma RetireDoneErases(s: State, s': State, r: nat, k: nat)
    requires Inv(s) && IsStep(s, s') && r < |s'.threads| && s'.threads[r] == RetireDone(Some(k))
    ensures Erased(s', k) || (r < |s.threads| && s.threads[r] == RetireDone(Some(k)))
  {
    var e :| Next(s, e) == Some(s');
    match e {
      case Call(entry) =>
      case Step(me, choice) =>
        if me == r {
          DoneErasesLocal(s.sh, r, s.threads[r], choice, AllExited(s), s'.sh, k);
        }
    }
  }

  lemma DoneErasesLocal(sh: Shared, me: nat, pc: Pc, choice: Choice, allExited: bool, sh': Shared, k: nat)
    requires LocalStep(sh, me, pc, choice, allExited) == Some((sh', RetireDone(Some(k)))) && TagMapOk(sh.tags)
    ensures k !in sh'.tags.nodes && k < sh'.tags.nextNode
  {
  }

  /** Once a retirer of node k is done, node k is erased. */
  lemma {:induction false} DoneIsErased(workers: nat, run: seq<State>, i: nat, r: nat, k: nat)
    requires IsRun(workers, run) && i < |run| && r < |run[i].threads| && run[i].threads[r] == RetireDone(Some(k))
    ensures Erased(run[i], k)
  {
    if i > 0 {
      RunInv(workers, run, i - 1);
      assert StepAt(run, i);
      RetireDoneErases(run[i - 1], run[i], r, k);
      if !Erased(run[i], k) {
        DoneIsErased(workers, run, i - 1, r, k);
        RunTags(workers, run, i);
      }
    }
  }

  lemma {:induction false} ErasedStays(workers: nat, run: seq<State>, i: nat, j: nat, k: nat)
    requires IsRun(workers, run) && i <= j < |run| && Erased(run[i], k)
    ensures Erased(run[j], k)
  {
    if i < j {
      ErasedStays(workers, run, i, j - 1, k);
      RunTags(workers, run, j);
    }
  }

  /** The retirement barrier: when `retire` has returned, and ever after, no task of that tag node is in a lane,
      popped, running, or registered and not yet pushed. */
  lemma RetirementBarrier(workers: nat, run: seq<State>, i: nat, j: nat, r: nat, k: nat)
    requires IsRun(workers, run) && i <= j < |run|
    requires r < |run[i].threads| && run[i].threads[r] == RetireDone(Some(k))
    ensures NoTaskOf(run[j], k)
  {
    DoneIsErased(workers, run, i, r, k);
    ErasedStays(workers, run, i, j, k);
    RunInv(workers, run, j);
    ErasedHasNoTask(run[j], k);
  }

  /** A thread that is executing a task: a worker, or the drain of a stopper. */
  function Executing(pc: Pc): Option<Task> {
    match pc
    case Execute(t, Run) => Some(t)
    case DrainTask(_, t, Run) => Some(t)
    case _ => None
  }

  /** Node k is being retired, or is gone. */
  ghost predicate Closed(s: State, k: nat) {
    k < s.sh.tags.nextNode && (k in s.sh.tags.nodes ==> s.sh.tags.nodes[k].retired)
  }

  lemma StartsLocal(sh: Shared, me: nat, pc: Pc, choice: Choice, allExited: bool, sh': Shared, pc': Pc)
    requires LocalStep(sh, me, pc, choice, allExited) == Some((sh', pc')) && Executing(pc').Some?
    ensures Held(pc) == Executing(pc') && CanRun(sh.tags, Executing(pc').value.node)
  {
  }

  /** A step starts no task of a closed node. */
  lemma StepStartsNone(s: State, s': State, w: nat, k: nat)
    requires Inv(s) && IsStep(s, s') && Closed(s, k)
    requires w < |s'.threads| && Executing(s'.threads[w]).Some? && Executing(s'.threads[w]).value.node == Some(k)
    ensures w < |s.threads| && s.threads[w] == s'.threads[w]
  {
    var e :| Next(s, e) == Some(s');
    match e {
      case Call(entry) =>
      case Step(me, choice) =>
        if me == w {
          StartsLocal(s.sh, me, s.threads[w], choice, AllExited(s), s'.sh, s'.threads[w]);
          ThreadMayStep(s, w);
        }
    }
  }

  lemma RunStartsNone(workers: nat, run: seq<State>, j: nat, w: nat, k: nat)
    requires IsRun(workers, run) && 0 < j < |run| && Closed(run[j - 1], k) && w < |run[j].threads|
    requires Executing(run[j].threads[w]).Some? && Executing(run[j].threads[w]).value.node == Some(k)
    ensures w < |run[j - 1].threads| && run[j - 1].threads[w] == run[j].threads[w]
  {
    RunInv(workers, run, j - 1);
    assert StepAt(run, j);
    StepStartsNone(run[j - 1], run[j], w, k);
  }

  /** No task whose run check comes after `retired` is set ever executes: whoever executes a task of the node at
      a later time was executing it when the mark was set. */
  lemma {:induction false} NoStartAfterRetired(workers: nat, run: seq<State>, i: nat, j: nat, w: nat, k: nat)
    requires IsRun(workers, run) && i <= j < |run| && Closed(run[i], k)
    requires w < |run[j].threads|
    requires Executing(run[j].threads[w]).Some? && Executing(run[j].threads[w]).value.node == Some(k)
    ensures w < |run[i].threads| && run[i].threads[w] == run[j].threads[w]
  {
    if i < j {
      ClosedStays(workers, run, i, j - 1, k);
      RunStartsNone(workers, run, j, w, k);
      NoStartAfterRetired(workers, run, i, j - 1, w, k);
    }
  }

  lemma {:induction false} ClosedStays(workers: nat, run: seq<State>, i: nat, j: nat, k: nat)
    requires IsRun(workers, run) && i <= j < |run| && Closed(run[i], k)
    ensures Closed(run[j], k)
  {
    if i < j {
      ClosedStays(workers, run, i, j - 1, k);
      RunTags(workers, run, j);
    }
  }

  // ---- The fate of every task ----

  /** A task is in exactly one place or has met exactly one fate, and a thread that is not a producer has none. */
  lemma OneFate(workers: nat, run: seq<State>, i: nat, x: nat)
    requires IsRun(workers, run) && i < |run|
    ensures FateCount(run[i].sh.queues.fates, x) + LanesSum(OfTask(x), run[i].sh.queues.lanes)
      + Sum(OfTask(x), run[i].threads) == One(x < |run[i].threads| && IsEnqueuer(run[i].threads[x]))
  {
    RunInv(workers, run, i);
    assert Total(OfTask(x), run[i]) + FateCount(run[i].sh.queues.fates, x) ==
      One(x < |run[i].threads| && IsEnqueuer(run[i].threads[x]));
  }

  /** The fates that a step adds are those of the task that the thread holds, of the tasks that a retirer removes, and
      of a task that is refused. */
  function NewFates(sh: Shared, me: nat, pc: Pc, pc': Pc): Fates {
    match pc
    case Execute(t, Complete(ran)) => [(t.id, if ran then Executed else Skipped)]
    case DrainTask(_, t, Complete(ran)) => [(t.id, if ran then Executed else Skipped)]
    case AbandonTask(_, t, true) => [(t.id, Destroyed)]
    case Submit(_, t, Unregister) => [(t.id, Failed)]
    case Register(_, _) => if pc'.EnqueueDone? then [(me, Rejected)] else []
    case Retire(k, _, Sweep(l)) => if l < |sh.queues.lanes| then RemovedFates(sh.queues.lanes[l], k) else []
    case _ => []
  }

  lemma WorkerFates(sh: Shared, me: nat, pc: Pc, choice: Choice, allExited: bool, sh': Shared, pc': Pc)
    requires LocalStep(sh, me, pc, choice, allExited) == Some((sh', pc')) && IsWorker(pc)
    ensures sh'.queues.fates == sh.queues.fates + NewFates(sh, me, pc, pc')
  {
  }

  lemma EnqueuerFates(sh: Shared, me: nat, pc: Pc, choice: Choice, allExited: bool, sh': Shared, pc': Pc)
    requires LocalStep(sh, me, pc, choice, allExited) == Some((sh', pc')) && IsEnqueuer(pc)
    ensures sh'.queues.fates == sh.queues.fates + NewFates(sh, me, pc, pc')
  {
  }

  lemma OtherFates(sh: Shared, me: nat, pc: Pc, choice: Choice, allExited: bool, sh': Shared, pc': Pc)
    requires LocalStep(sh, me, pc, choice, allExited) == Some((sh', pc')) && !IsWorker(pc) && !IsEnqueuer(pc)
    ensures sh'.queues.fates == sh.queues.fates + NewFates(sh, me, pc, pc')
  {
  }

  lemma FatesGrowLocal(sh: Shared, me: nat, pc: Pc, choice: Choice, allExited: bool, sh': Shared, pc': Pc)
    requires LocalStep(sh, me, pc, choice, allExited) == Some((sh', pc'))
    ensures sh'.queues.fates == sh.queues.fates + NewFates(sh, me, pc, pc')
  {
    if IsWorker(pc) {
      WorkerFates(sh, me, pc, choice, allExited, sh', pc');
    } else if IsEnqueuer(pc) {
      EnqueuerFates(sh, me, pc, choice, allExited, sh', pc');
    } else {
      OtherFates(sh, me, pc, choice, allExited, sh', pc');
    }
  }

  /** A fate, once met, is final: the record of fates only grows. */
  lemma {:induction false} FatesAreFinal(workers: nat, run: seq<State>, i: nat, j: nat)
    requires IsRun(workers, run) && i <= j < |run|
    ensures run[i].sh.queues.fates <= run[j].sh.queues.fates
  {
    if i < j {
      FatesAreFinal(workers, run, i, j - 1);
      var s, s' := run[j - 1], run[j];
      assert StepAt(run, j);
      var e :| Next(s, e) == Some(s');
      match e {
        case Call(entry) =>
        case Step(me, choice) =>
          FatesGrowLocal(s.sh, me, s.threads[me], choice, AllExited(s), s'.sh, s'.threads[me]);
      }
    }
  }

  /** A thread that has executed a task, and has not recorded it yet. */
  function HasExecuted(pc: Pc): Option<Task> {
    match pc
    case Execute(t, Complete(true)) => Some(t)
    case DrainTask(_, t, Complete(true)) => Some(t)
    case _ => None
  }

  /** Some thread executed task x at moment i or before. */
  ghost predicate WasExecuted(run: seq<State>, i: nat, x: nat) {
    exists h :: 0 <= h <= i && h < |run| && SomebodyExecutes(run[h], x)
  }

  ghost predicate SomebodyExecutes(s: State, x: nat) {
    exists w :: 0 <= w < |s.threads| && Executing(s.threads[w]).Some? && Executing(s.threads[w]).value.id == x
  }

  lemma ExecutedLocal(sh: Shared, me: nat, pc: Pc, choice: Choice, allExited: bool, sh': Shared, pc': Pc)
    requires LocalStep(sh, me, pc, choice, allExited) == Some((sh', pc'))
    ensures HasExecuted(pc').Some? ==> Executing(pc) == HasExecuted(pc')
  {
  }

  lemma FateLocal(sh: Shared, me: nat, pc: Pc, choice: Choice, allExited: bool, sh': Shared, pc': Pc, x: nat)
    requires LocalStep(sh, me, pc, choice, allExited) == Some((sh', pc'))
    requires (x, Executed) in sh'.queues.fates && (x, Executed) !in sh.queues.fates
    ensures HasExecuted(pc).Some? && HasExecuted(pc).value.id == x
  {
    FatesGrowLocal(sh, me, pc, choice, allExited, sh', pc');
    if pc.Retire? && pc.retire.Sweep? && pc.retire.lane < |sh.queues.lanes| {
      NoneExecutedByRemoval(sh.queues.lanes[pc.retire.lane], pc.node, x);
    }
  }

  lemma {:induction false} NoneExecutedByRemoval(lane: seq<Task>, k: nat, x: nat)
    ensures (x, Executed) !in RemovedFates(lane, k)
  {
    if lane != [] {
      NoneExecutedByRemoval(lane[1..], k, x);
    }
  }

  /** A thread that has executed a task was executing it one step earlier, or had executed it already. */
  lemma ExecutedBefore(s: State, s': State, w: nat)
    requires IsStep(s, s') && w < |s'.threads| && HasExecuted(s'.threads[w]).Some?
    ensures var t := HasExecuted(s'.threads[w]);
      w < |s.threads| && (Executing(s.threads[w]) == t || HasExecuted(s.threads[w]) == t)
  {
    var e :| Next(s, e) == Some(s');
    if e.Step? && e.thread == w {
      ExecutedLocal(s.sh, w, s.threads[w], e.choice, AllExited(s), s'.sh, s'.threads[w]);
    }
  }

  lemma {:induction false} HasExecutedDid(workers: nat, run: seq<State>, i: nat, w: nat)
    requires IsRun(workers, run) && i < |run| && w < |run[i].threads| && HasExecuted(run[i].threads[w]).Some?
    ensures WasExecuted(run, i, HasExecuted(run[i].threads[w]).value.id)
  {
    if i > 0 {
      assert StepAt(run, i);
      ExecutedBefore(run[i - 1], run[i], w);
      if HasExecuted(run[i - 1].threads[w]) == HasExecuted(run[i].threads[w]) {
        HasExecutedDid(workers, run, i - 1, w);
      } else {
        assert SomebodyExecutes(run[i - 1], HasExecuted(run[i].threads[w]).value.id);
      }
    }
  }

  /** A task that counts as executed has been executed by some thread. */
  lemma {:induction false} ExecutedMeansRun(workers: nat, run: seq<State>, i: nat, x: nat)
    requires IsRun(workers, run) && i < |run| && (x, Executed) in run[i].sh.queues.fates
    ensures WasExecuted(run, i, x)
  {
    if i > 0 {
      var s, s' := run[i - 1], run[i];
      if (x, Executed) in s.sh.queues.fates {
        ExecutedMeansRun(workers, run, i - 1, x);
      } else {
        assert StepAt(run, i);
        var e :| Next(s, e) == Some(s');
        if e.Step? {
          FateLocal(s.sh, e.thread, s.threads[e.thread], e.choice, AllExited(s), s'.sh, s'.threads[e.thread], x);
          HasExecutedDid(workers, run, i - 1, e.thread);
        }
      }
    }
  }

  // ---- The stop request ----

  /** Once the stop has been notified, no worker is blocked un-notified, about to block, or still evaluating the wait
      predicate with `terminate` read before the stop, then or later. */
  lemma StopWakesAll(workers: nat, run: seq<State>, i: nat, r: nat, w: nat)
    requires IsRun(workers, run) && i < |run| && r < |run[i].threads| && HasNotified(run[i].threads[r])
    ensures run[i].sh.terminate && !Parked(run[i], w)
    ensures w < |run[i].threads| ==> !MissedStop(run[i].threads[w])
  {
    RunInv(workers, run, i);
  }

  predicate CanStep(s: State, t: nat) {
    t < |s.threads| && LocalStep(s.sh, t, s.threads[t], Normal, AllExited(s)).Some?
  }

  /** A worker that waits for idleMutex waits for a worker that can make a step. */
  lemma MutexOwnerCanStep(s: State)
    requires Inv(s) && s.sh.idle.mutex.Some?
    ensures CanStep(s, s.sh.idle.mutex.value) && s.sh.idle.mutex.value < |s.sh.queues.lanes|
  {
    assert InCriticalSection(s.threads[s.sh.idle.mutex.value]);
  }

  lemma WorkerCanStep(s: State, w: nat)
    requires Inv(s) && w < |s.sh.queues.lanes| && !s.threads[w].Exited? && s.sh.idle.mutex.None?
    requires s.threads[w] == Idle(Blocked) ==> w !in s.sh.idle.waiters
    ensures CanStep(s, w)
  {
    assert IsWorker(s.threads[w]);
  }

  /** While a stopper waits for its join, some worker can make a step. */
  lemma JoinNeverSticks(workers: nat, run: seq<State>, i: nat, r: nat)
    requires IsRun(workers, run) && i < |run| && r < |run[i].threads|
    requires run[i].threads[r].Stop? && run[i].threads[r].stop.Join? && !AllExited(run[i])
    ensures exists w :: 0 <= w < |run[i].sh.queues.lanes| && CanStep(run[i], w)
  {
    var s := run[i];
    RunInv(workers, run, i);
    if s.sh.idle.mutex.Some? {
      MutexOwnerCanStep(s);
    } else {
      var w :| 0 <= w < |s.sh.queues.lanes| && w < |s.threads| && s.threads[w] != Exited;
      assert !Parked(s, w);
      WorkerCanStep(s, w);
    }
  }

  /** How many steps a worker of a pool of n lanes has left at most, once the stop is requested. */
  function StepsLeft(n: nat, pc: Pc): nat {
    match pc
    case Take(p) => TakeStepsLeft(n, p)
    case Took(_) => 5
    case Execute(_, p) => (match p case CheckRun => 4 case Run => 3 case Complete(_) => 2)
    case Idle(p) => IdleStepsLeft(p)
    case _ => 0
  }

  function TakeStepsLeft(n: nat, p: TakePc): nat {
    match p
    case LoopHead => 1
    case TryOwn => n + 9
    case CheckCount => n + 8
    case Steal(offset) => if offset < n then 7 + (n - offset) else 7
    case FoundNothing => 6
  }

  function IdleStepsLeft(p: IdlePc): nat {
    match p
    case Locking => 5
    case Blocking => 6
    case Blocked => 5
    case Woken(_) => 4
    case EvalTerminate(_) => 3
    case EvalCount(_) => 7
    case Leaving => 2
  }

  /** Once the stop is requested, every step of a worker brings it closer to its exit, however the step goes: a join
      waits for no more than the tasks that are being executed. */
  lemma StoppedWorkerEnds(sh: Shared, w: nat, pc: Pc, choice: Choice, allExited: bool, sh': Shared, pc': Pc)
    requires sh.terminate && w < |sh.queues.lanes| && IsWorker(pc)
    requires LocalStep(sh, w, pc, choice, allExited) == Some((sh', pc'))
    ensures sh'.terminate && IsWorker(pc')
    ensures StepsLeft(|sh.queues.lanes|, pc') < StepsLeft(|sh.queues.lanes|, pc)
  {
  }

  /** A retirer that is blocked and not notified waits for a task that is still outstanding. */
  lemma RetirerWaitsForTask(workers: nat, run: seq<State>, i: nat, r: nat)
    requires IsRun(workers, run) && i < |run| && r in run[i].sh.tags.waiters
    ensures var s := run[i];
      && r < |s.threads| && s.threads[r].Await?
      && LanesSum(OfNode(s.threads[r].node), s.sh.queues.lanes) + Sum(OfNode(s.threads[r].node), s.threads) > 0
  {
    RunInv(workers, run, i);
    var s := run[i];
    var k := s.threads[r].node;
    assert Outstanding(s.sh.tags, k) == Total(OfNode(k), s);
  }
}
