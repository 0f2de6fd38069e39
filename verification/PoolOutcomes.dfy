/** Why things happen in the pool: what each exit of retire, of the run check, of enqueue and of the stop functions
    implies, and the cause of every fate, for all runs. */
module PoolOutcomes {
  import opened Basics
  import opened Pool
  import opened PoolSums
  import opened PoolLaws
  import opened PoolInvariants
  import opened PoolTheorems
  import opened PoolSweep
  import BlockingQueue

  /** The node of a task is in the map and marked as retired. */
  predicate IsRetired(tags: Tags, node: Option<nat>) {
    node.Some? && node.value in tags.nodes && tags.nodes[node.value].retired
  }

  /** The tag has a node that is marked as retired. */
  predicate IsTagRetired(tags: Tags, tag: nat) {
    tag in tags.index && IsRetired(tags, Some(tags.index[tag]))
  }

  /** Thread r moves in the step to moment i. */
  ghost predicate MovesAt(run: seq<State>, i: nat, r: nat) {
    0 < i < |run| && r < |run[i - 1].threads| && r < |run[i].threads| && run[i].threads[r] != run[i - 1].threads[r]
  }

  lemma StepOfMover(workers: nat, run: seq<State>, i: nat, r: nat) returns (choice: Choice)
    requires IsRun(workers, run) && MovesAt(run, i, r)
    ensures var s := run[i - 1];
      LocalStep(s.sh, r, s.threads[r], choice, AllExited(s)) == Some((run[i].sh, run[i].threads[r]))
  {
    assert StepAt(run, i);
    var e :| Next(run[i - 1], e) == Some(run[i]);
    assert e.Step? && e.thread == r;
    choice := e.choice;
  }

  /** The tag map of a moment of a run is in order. */
  lemma TagsInOrder(workers: nat, run: seq<State>, i: nat)
    requires IsRun(workers, run) && i < |run|
    ensures TagMapOk(run[i].sh.tags)
  {
    RunInv(workers, run, i);
  }

  // ---- retire ----

  /** The tag, unmarked before, is marked now, and its node is being retired. */
  predicate IsMarked(t: Tags, tag: nat, t': Tags, pc': Pc)
    requires tag in t.index
  {
    && !IsTagRetired(t, tag) && IsTagRetired(t', tag) && t'.index == t.index
    && pc' == Pc.Retire(t.index[tag], 0, Sweep(0))
  }

  lemma MarkLocal(sh: Shared, me: nat, tag: nat, choice: Choice, allExited: bool, sh': Shared, pc': Pc)
    requires LocalStep(sh, me, Mark(tag), choice, allExited) == Some((sh', pc')) && TagMapOk(sh.tags)
    ensures if tag in sh.tags.index then IsMarked(sh.tags, tag, sh'.tags, pc') else pc' == RetireDone(None) && sh' == sh
  {
  }

  /** retire returns at once only when the map lacks the tag; otherwise it has marked the node of the tag, which nobody
      had marked before, and goes on. */
  lemma RetireMarks(workers: nat, run: seq<State>, i: nat, r: nat)
    requires IsRun(workers, run) && MovesAt(run, i, r) && run[i - 1].threads[r].Mark?
    ensures var tag, t, t' := run[i - 1].threads[r].tag, run[i - 1].sh.tags, run[i].sh.tags;
      if tag in t.index then IsMarked(t, tag, t', run[i].threads[r])
      else run[i].threads[r] == RetireDone(None) && run[i].sh == run[i - 1].sh
  {
    TagsInOrder(workers, run, i - 1);
    var s := run[i - 1];
    var choice := StepOfMover(workers, run, i, r);
    MarkLocal(s.sh, r, s.threads[r].tag, choice, AllExited(s), run[i].sh, run[i].threads[r]);
  }

  /** Retiring node k, or done with it. */
  predicate Retires(pc: Pc, k: nat) {
    RetiringNode(pc) == Some(k) || pc == RetireDone(Some(k))
  }

  lemma RetiresLocal(sh: Shared, me: nat, pc: Pc, choice: Choice, allExited: bool, sh': Shared, pc': Pc, k: nat)
    requires LocalStep(sh, me, pc, choice, allExited) == Some((sh', pc')) && Retires(pc, k)
    ensures Retires(pc', k)
  {
  }

  /** From then on retire works on that node until it is done with it. */
  lemma {:induction false} RetireGoesThrough(workers: nat, run: seq<State>, i: nat, j: nat, r: nat, k: nat)
    requires IsRun(workers, run) && i <= j < |run| && r < |run[i].threads| && Retires(run[i].threads[r], k)
    ensures r < |run[j].threads| && Retires(run[j].threads[r], k)
  {
    if i < j {
      RetireGoesThrough(workers, run, i, j - 1, r, k);
      LanesStayInRun(workers, run, j);
      if run[j].threads[r] != run[j - 1].threads[r] {
        var s := run[j - 1];
        var choice := StepOfMover(workers, run, j, r);
        RetiresLocal(s.sh, r, s.threads[r], choice, AllExited(s), run[j].sh, run[j].threads[r], k);
      }
    }
  }

  // ---- The run check ----

  /** A popped task, held by a worker or by the drain, and where its execution is. */
  function Checked(pc: Pc): Option<(Task, ExecutePc)> {
    match pc
    case Execute(t, p) => Some((t, p))
    case DrainTask(_, t, p) => Some((t, p))
    case _ => None
  }

  lemma CheckLocal(sh: Shared, me: nat, pc: Pc, t: Task, choice: Choice, allExited: bool, sh': Shared, pc': Pc)
    requires LocalStep(sh, me, pc, choice, allExited) == Some((sh', pc')) && Checked(pc) == Some((t, CheckRun))
    ensures Checked(pc') == Some((t, if IsRetired(sh.tags, t.node) then Complete(false) else Run)) && sh' == sh
  {
  }

  /** A popped task is skipped exactly if its own node is retired at the moment of the check. */
  lemma CheckDecides(workers: nat, run: seq<State>, i: nat, r: nat, t: Task)
    requires IsRun(workers, run) && MovesAt(run, i, r) && Checked(run[i - 1].threads[r]) == Some((t, CheckRun))
    ensures Checked(run[i].threads[r]) ==
      Some((t, if IsRetired(run[i - 1].sh.tags, t.node) then Complete(false) else Run))
  {
    var s := run[i - 1];
    var choice := StepOfMover(workers, run, i, r);
    CheckLocal(s.sh, r, s.threads[r], t, choice, AllExited(s), run[i].sh, run[i].threads[r]);
  }

  lemma SkippedLocal(sh: Shared, me: nat, pc: Pc, choice: Choice, allExited: bool, sh': Shared, pc': Pc, t: Task)
    requires LocalStep(sh, me, pc, choice, allExited) == Some((sh', pc')) && Checked(pc') == Some((t, Complete(false)))
    ensures Checked(pc) == Some((t, CheckRun))
  {
  }

  /** Whoever has skipped a task stands before a node that is still there, and still retired. */
  lemma {:induction false} SkipperSeesRetired(workers: nat, run: seq<State>, i: nat, r: nat, t: Task)
    requires IsRun(workers, run) && i < |run| && r < |run[i].threads|
    requires Checked(run[i].threads[r]) == Some((t, Complete(false)))
    ensures IsRetired(run[i].sh.tags, t.node)
  {
    if i > 0 {
      var s := run[i - 1];
      assert StepAt(run, i);
      var e :| Next(s, e) == Some(run[i]);
      if MovesAt(run, i, r) {
        var choice := StepOfMover(workers, run, i, r);
        SkippedLocal(s.sh, r, s.threads[r], choice, AllExited(s), run[i].sh, run[i].threads[r], t);
        CheckLocal(s.sh, r, s.threads[r], t, choice, AllExited(s), run[i].sh, run[i].threads[r]);
      } else {
        SkipperSeesRetired(workers, run, i - 1, r, t);
        RunTags(workers, run, i);
        RunInv(workers, run, i);
        ThreadMayStep(run[i], r);
      }
    }
  }

  // ---- The cause of every fate ----

  /** What thread w is about to do to task x in state s. */
  ghost predicate CauseAt(s: State, w: nat, x: nat, fate: Fate) {
    w < |s.threads| &&
    match fate
    case Executed => HasExecuted(s.threads[w]).Some? && HasExecuted(s.threads[w]).value.id == x
    case Skipped => IsSkipping(s.threads[w], x) && IsRetired(s.sh.tags, Checked(s.threads[w]).value.0.node)
    case Removed => exists p :: IsRemovedFrom(s, s.threads[w], p, x)
    case Destroyed => s.threads[w].AbandonTask? && s.threads[w].task.id == x
    case Rejected => w == x && s.threads[w].Register? && IsTagRetired(s.sh.tags, s.threads[w].tag)
    case Failed => s.threads[w].Submit? && s.threads[w].submit.Unregister? && s.threads[w].task.id == x
  }

  predicate IsSkipping(pc: Pc, x: nat) {
    Checked(pc).Some? && Checked(pc).value.1 == Complete(false) && Checked(pc).value.0.id == x
  }

  /** A retirer has come to the lane that holds task x at place p, and retires the node of the task. */
  predicate IsRemovedFrom(s: State, pc: Pc, p: nat, x: nat) {
    && pc.Retire? && pc.retire.Sweep? && pc.retire.lane < |s.sh.queues.lanes|
    && p < |s.sh.queues.lanes[pc.retire.lane]|
    && s.sh.queues.lanes[pc.retire.lane][p] == Task(x, Some(pc.node))
  }

  /** Somebody gave task x its fate at a moment before i. */
  ghost predicate WasCaused(run: seq<State>, i: nat, x: nat, fate: Fate) {
    exists h :: 0 <= h < i && h < |run| && IsCause(run[h], x, fate)
  }

  ghost predicate IsCause(s: State, x: nat, fate: Fate) {
    exists w :: CauseAt(s, w, x, fate)
  }

  lemma {:induction false} RemovedIsThere(lane: seq<Task>, k: nat, x: nat, fate: Fate)
    requires (x, fate) in RemovedFates(lane, k)
    ensures fate == Removed && exists p :: 0 <= p < |lane| && lane[p] == Task(x, Some(k))
  {
    if lane[0].node == Some(k) && (x, fate) == (lane[0].id, Removed) {
      assert lane[0] == Task(x, Some(k));
    } else {
      RemovedIsThere(lane[1..], k, x, fate);
      var p :| 0 <= p < |lane[1..]| && lane[1..][p] == Task(x, Some(k));
      assert lane[p + 1] == Task(x, Some(k));
    }
  }

  lemma RejectedLocal(sh: Shared, me: nat, pc: Pc, choice: Choice, allExited: bool, sh': Shared, pc': Pc)
    requires LocalStep(sh, me, pc, choice, allExited) == Some((sh', pc')) && pc.Register? && TagMapOk(sh.tags)
    ensures if pc.tag != 0 && IsTagRetired(sh.tags, pc.tag) then pc' == EnqueueDone && sh'.tags == sh.tags
            else IsAdmitted(sh'.tags, pc.tag, pc.lane, me, pc')
  {
  }

  /** The node that a task of the tag points to. */
  function NodeOfTag(tags: Tags, tag: nat): Option<nat> {
    if tag != 0 && tag in tags.index then Some(tags.index[tag]) else None
  }

  /** The task of producer r has the node of its tag. */
  predicate IsAdmitted(tags: Tags, tag: nat, lane: nat, r: nat, pc: Pc) {
    (tag != 0 ==> tag in tags.index) && pc == Submit(lane, Task(r, NodeOfTag(tags, tag)), Increment)
  }

  lemma CauseOf(workers: nat, run: seq<State>, i: nat, r: nat, choice: Choice, x: nat, fate: Fate)
    requires IsRun(workers, run) && 0 < i < |run| && r < |run[i - 1].threads| && r < |run[i].threads|
    requires (x, fate) in NewFates(run[i - 1].sh, r, run[i - 1].threads[r], run[i].threads[r])
    requires LocalStep(run[i - 1].sh, r, run[i - 1].threads[r], choice, AllExited(run[i - 1])) ==
      Some((run[i].sh, run[i].threads[r]))
    ensures CauseAt(run[i - 1], r, x, fate)
  {
    var s, pc := run[i - 1], run[i - 1].threads[r];
    if Checked(pc).Some? && Checked(pc).value.1 == Complete(false) {
      SkipperSeesRetired(workers, run, i - 1, r, Checked(pc).value.0);
      assert fate == Skipped && Checked(pc).value.0.id == x;
    } else if pc.Retire? {
      var lane := s.sh.queues.lanes[pc.retire.lane];
      RemovedIsThere(lane, pc.node, x, fate);
      var p :| 0 <= p < |lane| && lane[p] == Task(x, Some(pc.node));
      assert IsRemovedFrom(s, pc, p, x);
    } else if pc.Register? {
      TagsInOrder(workers, run, i - 1);
      RejectedLocal(s.sh, r, pc, choice, AllExited(s), run[i].sh, run[i].threads[r]);
    }
  }

  /** Every fate has its cause: an executed task was run, a skipped one had a retired node when it was let go of, a
      removed one was in a lane that the retirer of its node swept, a destroyed one was taken out by an abandonment, a
      rejected one has a tag that was being retired, and a failed one was taken back by its own producer. */
  lemma {:induction false} FateHasCause(workers: nat, run: seq<State>, i: nat, x: nat, fate: Fate)
    requires IsRun(workers, run) && i < |run| && (x, fate) in run[i].sh.queues.fates
    ensures WasCaused(run, i, x, fate)
  {
    if i > 0 {
      var s, s' := run[i - 1], run[i];
      if (x, fate) in s.sh.queues.fates {
        FateHasCause(workers, run, i - 1, x, fate);
      } else {
        assert StepAt(run, i);
        var e :| Next(s, e) == Some(s');
        var r := e.thread;
        FatesGrowLocal(s.sh, r, s.threads[r], e.choice, AllExited(s), s'.sh, s'.threads[r]);
        CauseOf(workers, run, i, r, e.choice, x, fate);
        assert IsCause(s, x, fate);
      }
    }
  }

  /** enqueue rejects exactly what has a tag that is being retired; anything else gets the node of its tag. */
  lemma RegisterDecides(workers: nat, run: seq<State>, i: nat, r: nat)
    requires IsRun(workers, run) && MovesAt(run, i, r) && run[i - 1].threads[r].Register?
    ensures var pc, t, t' := run[i - 1].threads[r], run[i - 1].sh.tags, run[i].sh.tags;
      if pc.tag != 0 && IsTagRetired(t, pc.tag) then run[i].threads[r] == EnqueueDone && t' == t
      else IsAdmitted(t', pc.tag, pc.lane, r, run[i].threads[r])
  {
    TagsInOrder(workers, run, i - 1);
    var s := run[i - 1];
    var choice := StepOfMover(workers, run, i, r);
    RejectedLocal(s.sh, r, s.threads[r], choice, AllExited(s), run[i].sh, run[i].threads[r]);
  }

  // ---- The stop request ----

  lemma ExitLocal(sh: Shared, me: nat, pc: Pc, choice: Choice, allExited: bool, sh': Shared, pc': Pc)
    requires LocalStep(sh, me, pc, choice, allExited) == Some((sh', pc')) && pc'.Exited?
    ensures sh.terminate
  {
  }

  /** A worker ends only because a stop was requested. */
  lemma WorkerExitsOnStop(workers: nat, run: seq<State>, i: nat, w: nat)
    requires IsRun(workers, run) && MovesAt(run, i, w) && run[i].threads[w].Exited?
    ensures run[i - 1].sh.terminate
  {
    var s := run[i - 1];
    var choice := StepOfMover(workers, run, i, w);
    ExitLocal(s.sh, w, s.threads[w], choice, AllExited(s), run[i].sh, run[i].threads[w]);
  }

  /** Thread r has requested the stop. */
  ghost predicate StoppedBy(s: State, r: nat) {
    r < |s.threads| && HasStopped(s.threads[r])
  }

  lemma StopRequestLocal(sh: Shared, me: nat, pc: Pc, choice: Choice, allExited: bool, sh': Shared, pc': Pc)
    requires LocalStep(sh, me, pc, choice, allExited) == Some((sh', pc'))
    ensures HasStopped(pc) ==> HasStopped(pc')
    ensures sh'.terminate && !sh.terminate ==> HasStopped(pc')
  {
    if IsWorker(pc) {
      IdleEffectLocal(sh, me, pc, choice, allExited, sh', pc');
      WorkerStopsNone(sh, me, pc, choice, allExited, sh', pc');
    } else if IsEnqueuer(pc) {
      EnqueuerStopsNone(sh, me, pc, choice, allExited, sh', pc');
    }
  }

  lemma WorkerStopsNone(sh: Shared, me: nat, pc: Pc, choice: Choice, allExited: bool, sh': Shared, pc': Pc)
    requires LocalStep(sh, me, pc, choice, allExited) == Some((sh', pc')) && IsWorker(pc)
    ensures sh'.terminate == sh.terminate
  {
  }

  lemma EnqueuerStopsNone(sh: Shared, me: nat, pc: Pc, choice: Choice, allExited: bool, sh': Shared, pc': Pc)
    requires LocalStep(sh, me, pc, choice, allExited) == Some((sh', pc')) && IsEnqueuer(pc)
    ensures sh'.terminate == sh.terminate
  {
  }

  /** `terminate` is set only by finishAllThreads and abandonAllThreads. */
  lemma {:induction false} TerminateHasStopper(workers: nat, run: seq<State>, i: nat) returns (r: nat)
    requires IsRun(workers, run) && i < |run| && run[i].sh.terminate
    ensures StoppedBy(run[i], r)
  {
    var s := run[i - 1];
    assert StepAt(run, i);
    var e :| Next(s, e) == Some(run[i]);
    if s.sh.terminate {
      r := TerminateHasStopper(workers, run, i - 1);
      if MovesAt(run, i, r) {
        var choice := StepOfMover(workers, run, i, r);
        StopRequestLocal(s.sh, r, s.threads[r], choice, AllExited(s), run[i].sh, run[i].threads[r]);
      }
    } else {
      r := e.thread;
      StopRequestLocal(s.sh, r, s.threads[r], e.choice, AllExited(s), run[i].sh, run[i].threads[r]);
    }
  }

  /** What a stopper was asked for. */
  function KindOf(pc: Pc): Option<StopKind> {
    match pc
    case Stop(kind, _) => Some(kind)
    case AbandonPop(_) => Some(Abandon)
    case AbandonTask(_, _, _) => Some(Abandon)
    case DrainPop(_, _) => Some(FinishAndDrain)
    case DrainTook(_, _) => Some(FinishAndDrain)
    case DrainTask(_, _, _) => Some(FinishAndDrain)
    case Stopped(kind) => Some(kind)
    case _ => None
  }

  lemma KindLocal(sh: Shared, me: nat, pc: Pc, choice: Choice, allExited: bool, sh': Shared, pc': Pc)
    requires LocalStep(sh, me, pc, choice, allExited) == Some((sh', pc')) && KindOf(pc).Some?
    ensures KindOf(pc') == KindOf(pc)
  {
  }

  /** A stop function does what it was asked for: a draining finish drains, an abandonment abandons. */
  lemma {:induction false} StopperKeepsKind(workers: nat, run: seq<State>, i: nat, j: nat, r: nat)
    requires IsRun(workers, run) && i <= j < |run| && r < |run[i].threads| && KindOf(run[i].threads[r]).Some?
    ensures r < |run[j].threads| && KindOf(run[j].threads[r]) == KindOf(run[i].threads[r])
  {
    if i < j {
      StopperKeepsKind(workers, run, i, j - 1, r);
      LanesStayInRun(workers, run, j);
      if run[j].threads[r] != run[j - 1].threads[r] {
        var s := run[j - 1];
        var choice := StepOfMover(workers, run, j, r);
        KindLocal(s.sh, r, s.threads[r], choice, AllExited(s), run[j].sh, run[j].threads[r]);
      }
    }
  }

  lemma JoinLocal(sh: Shared, me: nat, kind: StopKind, choice: Choice, allExited: bool, sh': Shared, pc': Pc)
    requires LocalStep(sh, me, Stop(kind, Join), choice, allExited) == Some((sh', pc'))
    ensures (sh.detached || allExited) && sh' == sh
    ensures pc' == if kind.FinishAndDrain? then DrainPop(0, false) else Stopped(kind)
  {
  }

  /** The join of finishAllThreads ends only when every worker has exited, unless an abandonment has detached them. */
  lemma JoinWaitsForAll(workers: nat, run: seq<State>, i: nat, r: nat)
    requires IsRun(workers, run) && MovesAt(run, i, r)
    requires run[i - 1].threads[r].Stop? && run[i - 1].threads[r].stop.Join?
    ensures AllExited(run[i - 1]) || run[i - 1].sh.detached
    ensures run[i].threads[r] ==
      if run[i - 1].threads[r].kind.FinishAndDrain? then DrainPop(0, false) else Stopped(run[i - 1].threads[r].kind)
  {
    var s := run[i - 1];
    var choice := StepOfMover(workers, run, i, r);
    JoinLocal(s.sh, r, s.threads[r].kind, choice, AllExited(s), run[i].sh, run[i].threads[r]);
  }

  lemma DetachedLocal(sh: Shared, me: nat, pc: Pc, choice: Choice, allExited: bool, sh': Shared, pc': Pc)
    requires LocalStep(sh, me, pc, choice, allExited) == Some((sh', pc'))
    ensures sh'.detached && !sh.detached ==> pc' == Stopped(Abandon)
    ensures pc.Stopped? ==> pc' == pc
  {
    if IsWorker(pc) {
      WorkerDetachesNone(sh, me, pc, choice, allExited, sh', pc');
    } else if IsEnqueuer(pc) {
      EnqueuerDetachesNone(sh, me, pc, choice, allExited, sh', pc');
    }
  }

  lemma WorkerDetachesNone(sh: Shared, me: nat, pc: Pc, choice: Choice, allExited: bool, sh': Shared, pc': Pc)
    requires LocalStep(sh, me, pc, choice, allExited) == Some((sh', pc')) && IsWorker(pc)
    ensures sh'.detached == sh.detached
  {
  }

  lemma EnqueuerDetachesNone(sh: Shared, me: nat, pc: Pc, choice: Choice, allExited: bool, sh': Shared, pc': Pc)
    requires LocalStep(sh, me, pc, choice, allExited) == Some((sh', pc')) && IsEnqueuer(pc)
    ensures sh'.detached == sh.detached
  {
  }

  ghost predicate AbandonedBy(s: State, r: nat) {
    r < |s.threads| && s.threads[r] == Stopped(Abandon)
  }

  /** The workers are detached only by an abandonment that has come to its end. */
  lemma {:induction false} DetachedIsAbandoned(workers: nat, run: seq<State>, i: nat) returns (r: nat)
    requires IsRun(workers, run) && i < |run| && run[i].sh.detached
    ensures AbandonedBy(run[i], r)
  {
    var s := run[i - 1];
    assert StepAt(run, i);
    var e :| Next(s, e) == Some(run[i]);
    if s.sh.detached {
      r := DetachedIsAbandoned(workers, run, i - 1);
      if MovesAt(run, i, r) {
        var choice := StepOfMover(workers, run, i, r);
      }
    } else {
      r := e.thread;
      DetachedLocal(s.sh, r, s.threads[r], e.choice, AllExited(s), run[i].sh, run[i].threads[r]);
    }
  }

  // ---- Sweeps over the lanes ----

  /** When all lanes have been seen empty from moment j to moment i, no task sat in the lanes throughout. */
  lemma SeenEmptyMeansGone(workers: nat, run: seq<State>, j: nat, i: nat, t: Task)
    requires IsRun(workers, run) && j <= i < |run| && forall v :: 0 <= v < workers ==> SeenEmpty(run, j, i, v)
    ensures exists m :: j <= m <= i && !InSomeLane(run[m], t)
  {
    if forall m :: j <= m <= i ==> InSomeLane(run[m], t) {
      var l := SameLane(workers, run, j, i, t);
      LaneCount(workers, run, j);
      LaneOf(run[j], t, l);
      WasMissing(run, j, i, l, t);
    }
  }

  /** The first n lanes have been seen empty from moment j to moment i. */
  ghost predicate AllSeenEmpty(workers: nat, run: seq<State>, j: nat, i: nat, n: nat)
    requires j <= i < |run|
  {
    forall v :: 0 <= v < n && v < workers ==> SeenEmpty(run, j, i, v)
  }

  /** How many lanes an abandonment has left behind. */
  function AbandonedLanes(pc: Pc, workers: nat): nat {
    match pc
    case AbandonPop(lane) => lane
    case AbandonTask(lane, _, _) => lane
    case Stopped(Abandon) => workers
    case _ => 0
  }

  predicate IsAbandoning(pc: Pc) {
    pc.AbandonPop? || pc.AbandonTask? || pc == Stopped(Abandon)
  }

  lemma JoinsLocal(sh: Shared, me: nat, pc: Pc, choice: Choice, allExited: bool, sh': Shared, pc': Pc)
    requires LocalStep(sh, me, pc, choice, allExited) == Some((sh', pc')) && pc'.Stop? && pc'.stop.Join?
    ensures !pc'.kind.Abandon?
  {
  }

  /** An abandonment waits for nobody. */
  lemma AbandonNeverJoins(workers: nat, run: seq<State>, i: nat, r: nat)
    requires IsRun(workers, run) && i < |run| && r < |run[i].threads|
    ensures run[i].threads[r] != Stop(Abandon, Join)
  {
    if i > 0 {
      assert StepAt(run, i);
      var e :| Next(run[i - 1], e) == Some(run[i]);
      if MovesAt(run, i, r) {
        if run[i].threads[r] == Stop(Abandon, Join) {
          var choice := StepOfMover(workers, run, i, r);
          var s := run[i - 1];
          JoinsLocal(s.sh, r, s.threads[r], choice, AllExited(s), run[i].sh, run[i].threads[r]);
        }
      } else if r < |run[i - 1].threads| {
        AbandonNeverJoins(workers, run, i - 1, r);
      }
    }
  }

  lemma AbandonLocal(sh: Shared, me: nat, pc: Pc, choice: Choice, allExited: bool, sh': Shared, pc': Pc)
    requires LocalStep(sh, me, pc, choice, allExited) == Some((sh', pc')) && IsAbandoning(pc')
    requires pc != Stop(Abandon, Join)
    ensures var n := |sh.queues.lanes|;
      || pc' == AbandonPop(0)
      || (IsAbandoning(pc) && AbandonedLanes(pc', n) <= AbandonedLanes(pc, n))
      || (pc.AbandonPop? && pc.lane < n && sh.queues.lanes[pc.lane] == [] && AbandonedLanes(pc', n) <= pc.lane + 1)
      || (pc.AbandonPop? && pc.lane >= n)
  {
  }

  /** One step of an abandonment: what it has left behind was empty before, or is empty now. */
  lemma AbandonGoesOn(workers: nat, run: seq<State>, i: nat, r: nat, j: nat)
    requires IsRun(workers, run) && MovesAt(run, i, r) && j < i
    requires IsAbandoning(run[i].threads[r]) && run[i].threads[r] != AbandonPop(0)
    requires AllSeenEmpty(workers, run, j, i - 1, AbandonedLanes(run[i - 1].threads[r], workers))
    ensures AllSeenEmpty(workers, run, j, i, AbandonedLanes(run[i].threads[r], workers))
  {
    var s := run[i - 1];
    LaneCount(workers, run, i - 1);
    AbandonNeverJoins(workers, run, i - 1, r);
    var choice := StepOfMover(workers, run, i, r);
    AbandonLocal(s.sh, r, s.threads[r], choice, AllExited(s), run[i].sh, run[i].threads[r]);
    StillSeen(workers, run, j, i, AbandonedLanes(run[i - 1].threads[r], workers));
    if s.threads[r].AbandonPop? && s.threads[r].lane < workers && s.sh.queues.lanes[s.threads[r].lane] == [] {
      assert EmptyAt(run, i - 1, s.threads[r].lane);
    }
  }

  lemma WasAbandoning(workers: nat, run: seq<State>, i: nat, r: nat)
    requires IsRun(workers, run) && i < |run| && r < |run[i].threads| && IsAbandoning(run[i].threads[r])
    ensures i > 0 && r < |run[i - 1].threads|
    ensures run[i].threads[r] == AbandonPop(0) || IsAbandoning(run[i - 1].threads[r])
  {
    var s := run[i - 1];
    assert StepAt(run, i);
    var e :| Next(s, e) == Some(run[i]);
    if MovesAt(run, i, r) {
      var choice := StepOfMover(workers, run, i, r);
      AbandonNeverJoins(workers, run, i - 1, r);
      AbandonLocal(s.sh, r, s.threads[r], choice, AllExited(s), run[i].sh, run[i].threads[r]);
    }
  }

  /** Every lane that the abandonment of thread r has left behind was empty at some moment since it began, at j. */
  lemma {:induction false} AbandonSweeps(workers: nat, run: seq<State>, i: nat, r: nat) returns (j: nat)
    requires IsRun(workers, run) && i < |run| && r < |run[i].threads| && IsAbandoning(run[i].threads[r])
    ensures j <= i && r < |run[j].threads| && run[j].threads[r] == AbandonPop(0)
    ensures AllSeenEmpty(workers, run, j, i, AbandonedLanes(run[i].threads[r], workers))
  {
    if run[i].threads[r] == AbandonPop(0) {
      j := i;
    } else {
      WasAbandoning(workers, run, i, r);
      j := AbandonSweeps(workers, run, i - 1, r);
      if MovesAt(run, i, r) {
        AbandonGoesOn(workers, run, i, r, j);
      } else {
        StillSeen(workers, run, j, i, AbandonedLanes(run[i - 1].threads[r], workers));
      }
    }
  }

  lemma StillSeen(workers: nat, run: seq<State>, j: nat, i: nat, n: nat)
    requires j < i < |run| && AllSeenEmpty(workers, run, j, i - 1, n)
    ensures AllSeenEmpty(workers, run, j, i, n)
  {
    forall v | 0 <= v < n && v < workers ensures SeenEmpty(run, j, i, v) {
      SeenEarlier(run, j, i, v);
    }
  }

  /** When abandonAllThreads has returned, no task sat in the lanes all the while. */
  lemma AbandonOverlooksNothing(workers: nat, run: seq<State>, i: nat, r: nat, t: Task) returns (j: nat)
    requires IsRun(workers, run) && i < |run| && r < |run[i].threads| && run[i].threads[r] == Stopped(Abandon)
    ensures j <= i && r < |run[j].threads| && run[j].threads[r] == AbandonPop(0)
    ensures exists m :: j <= m <= i && !InSomeLane(run[m], t)
  {
    j := AbandonSweeps(workers, run, i, r);
    SeenEmptyMeansGone(workers, run, j, i, t);
  }

  /** How many lanes the present pass of a drain has left behind. */
  function DrainedLanes(pc: Pc, workers: nat): nat {
    match pc
    case DrainPop(lane, _) => lane
    case DrainTook(lane, _) => lane
    case DrainTask(lane, _, _) => lane
    case Stopped(FinishAndDrain) => workers
    case _ => 0
  }

  predicate IsDraining(pc: Pc) {
    pc.DrainPop? || pc.DrainTook? || pc.DrainTask? || pc == Stopped(FinishAndDrain)
  }

  /** The pass has taken no task yet. */
  predicate IsIdlePass(pc: Pc) {
    (pc.DrainPop? && !pc.drainedAny) || pc == Stopped(FinishAndDrain)
  }

  lemma DrainLocal(sh: Shared, me: nat, pc: Pc, choice: Choice, allExited: bool, sh': Shared, pc': Pc)
    requires LocalStep(sh, me, pc, choice, allExited) == Some((sh', pc')) && IsDraining(pc')
    ensures pc' == DrainPop(0, false) || (IsDraining(pc) && (IsIdlePass(pc') ==> IsIdlePass(pc)))
    ensures var n := |sh.queues.lanes|;
      || pc' == DrainPop(0, false)
      || DrainedLanes(pc', n) <= DrainedLanes(pc, n)
      || (pc.DrainPop? && pc.lane < n && sh.queues.lanes[pc.lane] == [] && DrainedLanes(pc', n) <= pc.lane + 1)
      || (pc.DrainPop? && pc.lane >= n)
  {
  }

  lemma DrainGoesOn(workers: nat, run: seq<State>, i: nat, r: nat, j: nat)
    requires IsRun(workers, run) && MovesAt(run, i, r) && j < i
    requires IsDraining(run[i].threads[r]) && run[i].threads[r] != DrainPop(0, false)
    requires AllSeenEmpty(workers, run, j, i - 1, DrainedLanes(run[i - 1].threads[r], workers))
    ensures AllSeenEmpty(workers, run, j, i, DrainedLanes(run[i].threads[r], workers))
  {
    var s := run[i - 1];
    LaneCount(workers, run, i - 1);
    var choice := StepOfMover(workers, run, i, r);
    DrainLocal(s.sh, r, s.threads[r], choice, AllExited(s), run[i].sh, run[i].threads[r]);
    StillSeen(workers, run, j, i, DrainedLanes(run[i - 1].threads[r], workers));
    if s.threads[r].DrainPop? && s.threads[r].lane < workers && s.sh.queues.lanes[s.threads[r].lane] == [] {
      assert EmptyAt(run, i - 1, s.threads[r].lane);
    }
  }

  lemma WasDraining(workers: nat, run: seq<State>, i: nat, r: nat)
    requires IsRun(workers, run) && i < |run| && r < |run[i].threads| && IsDraining(run[i].threads[r])
    ensures i > 0 && r < |run[i - 1].threads|
    ensures run[i].threads[r] == DrainPop(0, false) || (IsDraining(run[i - 1].threads[r]) &&
      (IsIdlePass(run[i].threads[r]) ==> IsIdlePass(run[i - 1].threads[r])))
  {
    var s := run[i - 1];
    assert StepAt(run, i);
    var e :| Next(s, e) == Some(run[i]);
    if MovesAt(run, i, r) {
      var choice := StepOfMover(workers, run, i, r);
      DrainLocal(s.sh, r, s.threads[r], choice, AllExited(s), run[i].sh, run[i].threads[r]);
    }
  }

  /** Every lane that the present pass of the drain has left behind was empty at some moment since the pass began, at
      j; and if the pass has taken nothing, it has taken nothing since then. */
  lemma {:induction false} DrainSweeps(workers: nat, run: seq<State>, i: nat, r: nat) returns (j: nat)
    requires IsRun(workers, run) && i < |run| && r < |run[i].threads| && IsDraining(run[i].threads[r])
    ensures j <= i && r < |run[j].threads| && run[j].threads[r] == DrainPop(0, false)
    ensures AllSeenEmpty(workers, run, j, i, DrainedLanes(run[i].threads[r], workers))
    ensures IsIdlePass(run[i].threads[r]) ==>
      forall h :: j <= h <= i ==> r < |run[h].threads| && IsIdlePass(run[h].threads[r])
  {
    if run[i].threads[r] == DrainPop(0, false) {
      j := i;
    } else {
      WasDraining(workers, run, i, r);
      j := DrainSweeps(workers, run, i - 1, r);
      if MovesAt(run, i, r) {
        DrainGoesOn(workers, run, i, r, j);
      } else {
        StillSeen(workers, run, j, i, DrainedLanes(run[i - 1].threads[r], workers));
      }
    }
  }

  /** When finishAllThreads(true) has returned, its last pass took nothing, and no task sat in the lanes throughout that
      pass. */
  lemma DrainOverlooksNothing(workers: nat, run: seq<State>, i: nat, r: nat, t: Task) returns (j: nat)
    requires IsRun(workers, run) && i < |run| && r < |run[i].threads| && run[i].threads[r] == Stopped(FinishAndDrain)
    ensures j <= i && r < |run[j].threads| && run[j].threads[r] == DrainPop(0, false)
    ensures forall h :: j <= h <= i ==> r < |run[h].threads| && IsIdlePass(run[h].threads[r])
    ensures exists m :: j <= m <= i && !InSomeLane(run[m], t)
  {
    j := DrainSweeps(workers, run, i, r);
    SeenEmptyMeansGone(workers, run, j, i, t);
  }

  /** remove_if keeps the other tasks, in their order. */
  lemma {:induction false} WithoutIsKept(lane: seq<Task>, k: nat)
    ensures Without(lane, k) == BlockingQueue.Kept(lane, (t: Task) => t.node == Some(k))
  {
    if lane != [] {
      WithoutIsKept(lane[1..], k);
    }
  }

  /** No task of node k is on the lane. */
  predicate LaneWithout(s: State, l: nat, k: nat) {
    l < |s.sh.queues.lanes| && forall p :: 0 <= p < |s.sh.queues.lanes[l]| ==> s.sh.queues.lanes[l][p].node != Some(k)
  }

  ghost predicate SeenWithout(run: seq<State>, j: nat, i: nat, l: nat, k: nat) {
    exists h :: j <= h <= i && h < |run| && LaneWithout(run[h], l, k)
  }

  lemma {:induction false} WithoutHasNone(lane: seq<Task>, k: nat)
    ensures forall p :: 0 <= p < |Without(lane, k)| ==> Without(lane, k)[p].node != Some(k)
  {
    if lane != [] {
      WithoutHasNone(lane[1..], k);
    }
  }

  ghost predicate AllSeenWithout(workers: nat, run: seq<State>, j: nat, i: nat, n: nat, k: nat) {
    forall v :: 0 <= v < n && v < workers ==> SeenWithout(run, j, i, v, k)
  }

  /** How many lanes a retirer of node k has swept. */
  function SweptLanes(pc: Pc, workers: nat): nat {
    match pc
    case Retire(_, _, Sweep(lane)) => lane
    case Retire(_, _, _) => workers
    case Await(_, _) => workers
    case RetireDone(Some(_)) => workers
    case _ => 0
  }

  lemma SweepLocal(sh: Shared, me: nat, pc: Pc, choice: Choice, allExited: bool, sh': Shared, pc': Pc, k: nat)
    requires LocalStep(sh, me, pc, choice, allExited) == Some((sh', pc')) && Retires(pc', k)
    ensures var n := |sh.queues.lanes|;
      || pc' == Pc.Retire(k, 0, Sweep(0))
      || (Retires(pc, k) && SweptLanes(pc', n) <= SweptLanes(pc, n))
      || (Retires(pc, k) && pc.Retire? && pc.retire.Sweep? && pc.retire.lane < n == |sh'.queues.lanes|
          && sh'.queues.lanes[pc.retire.lane] == Without(sh.queues.lanes[pc.retire.lane], k)
          && SweptLanes(pc', n) == pc.retire.lane + 1)
      || (Retires(pc, k) && pc.Retire? && pc.retire.Sweep? && pc.retire.lane >= n)
  {
  }

  lemma StillSeenWithout(workers: nat, run: seq<State>, j: nat, i: nat, n: nat, k: nat)
    requires j < i < |run| && AllSeenWithout(workers, run, j, i - 1, n, k)
    ensures AllSeenWithout(workers, run, j, i, n, k)
  {
    forall v | 0 <= v < n && v < workers ensures SeenWithout(run, j, i, v, k) {
      assert SeenWithout(run, j, i - 1, v, k);
    }
  }

  lemma RetireGoesOn(workers: nat, run: seq<State>, i: nat, r: nat, k: nat, j: nat)
    requires IsRun(workers, run) && MovesAt(run, i, r) && j < i
    requires Retires(run[i].threads[r], k) && run[i].threads[r] != Pc.Retire(k, 0, Sweep(0))
    requires AllSeenWithout(workers, run, j, i - 1, SweptLanes(run[i - 1].threads[r], workers), k)
    ensures AllSeenWithout(workers, run, j, i, SweptLanes(run[i].threads[r], workers), k)
  {
    var s := run[i - 1];
    LaneCount(workers, run, i - 1);
    var choice := StepOfMover(workers, run, i, r);
    SweepLocal(s.sh, r, s.threads[r], choice, AllExited(s), run[i].sh, run[i].threads[r], k);
    StillSeenWithout(workers, run, j, i, SweptLanes(run[i - 1].threads[r], workers), k);
    if s.threads[r].Retire? && s.threads[r].retire.Sweep? && s.threads[r].retire.lane < workers {
      WithoutHasNone(s.sh.queues.lanes[s.threads[r].retire.lane], k);
      assert LaneWithout(run[i], s.threads[r].retire.lane, k);
    }
  }

  lemma WasRetiring(workers: nat, run: seq<State>, i: nat, r: nat, k: nat)
    requires IsRun(workers, run) && i < |run| && r < |run[i].threads| && Retires(run[i].threads[r], k)
    ensures i > 0 && r < |run[i - 1].threads|
    ensures run[i].threads[r] == Pc.Retire(k, 0, Sweep(0)) || Retires(run[i - 1].threads[r], k)
  {
    var s := run[i - 1];
    assert StepAt(run, i);
    var e :| Next(s, e) == Some(run[i]);
    if MovesAt(run, i, r) {
      var choice := StepOfMover(workers, run, i, r);
      SweepLocal(s.sh, r, s.threads[r], choice, AllExited(s), run[i].sh, run[i].threads[r], k);
    }
  }

  /** Every lane that a retirer of node k has swept was without tasks of that node at some moment since its retirement
      began, at j. */
  lemma {:induction false} RetireSweeps(workers: nat, run: seq<State>, i: nat, r: nat, k: nat) returns (j: nat)
    requires IsRun(workers, run) && i < |run| && r < |run[i].threads| && Retires(run[i].threads[r], k)
    ensures j <= i && r < |run[j].threads| && run[j].threads[r] == Pc.Retire(k, 0, Sweep(0))
    ensures AllSeenWithout(workers, run, j, i, SweptLanes(run[i].threads[r], workers), k)
  {
    if run[i].threads[r] == Pc.Retire(k, 0, Sweep(0)) {
      j := i;
    } else {
      WasRetiring(workers, run, i, r, k);
      j := RetireSweeps(workers, run, i - 1, r, k);
      if MovesAt(run, i, r) {
        RetireGoesOn(workers, run, i, r, k, j);
      } else {
        StillSeenWithout(workers, run, j, i, SweptLanes(run[i - 1].threads[r], workers), k);
      }
    }
  }

  /** Once retire comes to its wait, it has removed what was queued: no task of its node sat in the lanes all the while
      since the mark. */
  lemma RetireRemovesQueued(workers: nat, run: seq<State>, i: nat, r: nat, k: nat, t: Task) returns (j: nat)
    requires IsRun(workers, run) && i < |run| && r < |run[i].threads| && Retires(run[i].threads[r], k)
    requires !run[i].threads[r].Retire? && t.node == Some(k)
    ensures j <= i && r < |run[j].threads| && run[j].threads[r] == Pc.Retire(k, 0, Sweep(0))
    ensures exists m :: j <= m <= i && !InSomeLane(run[m], t)
  {
    j := RetireSweeps(workers, run, i, r, k);
    if forall m :: j <= m <= i ==> InSomeLane(run[m], t) {
      var l := SameLane(workers, run, j, i, t);
      LaneCount(workers, run, j);
      LaneOf(run[j], t, l);
      WasWithout(run, j, i, l, k, t);
    }
  }

  lemma WasWithout(run: seq<State>, j: nat, i: nat, l: nat, k: nat, t: Task)
    requires j <= i < |run| && SeenWithout(run, j, i, l, k) && t.node == Some(k)
    ensures exists m :: j <= m <= i && !OnLane(run[m], t, l)
  {
    var h :| j <= h <= i && h < |run| && LaneWithout(run[h], l, k);
    assert !OnLane(run[h], t, l);
  }
}
