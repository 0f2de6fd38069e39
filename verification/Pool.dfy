/**
 The work-stealing thread pool of threading/cthreadpool.h and threading/cthreadpool.cpp as a state machine.
 The shared words, the lanes and the tag map are one record; every thread that is inside a pool function has
 a program counter. One step is one atomic operation, or one section that runs under a mutex from its lock to
 its unlock. The single exception is the idle wait, where the mutex is held across several steps because
 `terminate` and `queuedCount` move outside it: the predicate loads each in a step of its own, and the worker
 blocks in a later one.
 */
module Pool {

  import opened Basics

  /** A queued task: the thread that enqueued it names it; `node` is its pointer to a tag state. */
  datatype Task = Task(id: nat, node: Option<nat>)

  datatype Fate = Executed | Skipped | Removed | Destroyed | Rejected | Failed

  type Fates = seq<(nat, Fate)>

  /** The lanes, the words that count and select them, and what has become of the tasks that are over. */
  datatype Queues = Queues(lanes: seq<seq<Task>>, laneSelector: nat, queuedCount: int, fates: Fates)

  /** idleCount, idleMutex and the workers that are blocked on idleCv and not notified. */
  datatype IdleWait = IdleWait(count: int, mutex: Option<nat>, waiters: set<nat>)

  /** An element of the tag map. Nodes keep their address, so a node is known by a number that is never reused. */
  datatype TagState = TagState(tag: nat, outstanding: int, retired: bool)

  /** The tag map, and the threads that are blocked on tagStateChanged and not notified. */
  datatype Tags = Tags(nodes: map<nat, TagState>, index: map<nat, nat>, nextNode: nat, waiters: set<nat>)

  datatype Shared = Shared(queues: Queues, idle: IdleWait, tags: Tags, terminate: bool, detached: bool)

  /** What a stopper was asked for: finishAllThreads(false), finishAllThreads(true) or abandonAllThreads. */
  datatype StopKind = Finish | FinishAndDrain | Abandon

  /** Where a worker is that neither holds a task nor waits. */
  datatype TakePc = LoopHead | TryOwn | CheckCount | Steal(offset: nat) | FoundNothing

  /** Inside the idle region, between the two updates of idleCount. */
  datatype IdlePc =
    | Locking
    | EvalTerminate(timedOut: bool)
    | EvalCount(timedOut: bool)
    | Blocking
    | Blocked
    | Woken(timedOut: bool)
    | Leaving

  datatype ExecutePc = CheckRun | Run | Complete(ran: bool)

  datatype SubmitPc = Increment | Push | Uncount | Unregister

  datatype RetirePc = Sweep(lane: nat) | SubtractQueued | SubtractOutstanding

  datatype StopPc = SetTerminate | NotifyAll | Join

  datatype Pc =
    // runWorker, with tryGetTask inlined
    | Take(take: TakePc)
    | Took(task: Task)
    | Execute(task: Task, execute: ExecutePc)
    | Idle(idle: IdlePc)
    | Exited
    // enqueue
    | Ticket(tag: nat)
    | Register(lane: nat, tag: nat)
    | Submit(lane: nat, task: Task, submit: SubmitPc)
    | Gate
    | Notify
    | EnqueueDone
    // retire
    | Mark(tag: nat)
    | Retire(node: nat, removed: nat, retire: RetirePc)
    | Await(node: nat, parked: bool)
    | RetireDone(retiredNode: Option<nat>)
    // requestWorkersStop, and what finishAllThreads and abandonAllThreads do afterwards
    | Stop(kind: StopKind, stop: StopPc)
    | AbandonPop(lane: nat)
    | AbandonTask(lane: nat, task: Task, counted: bool)
    | DrainPop(lane: nat, drainedAny: bool)
    | DrainTook(lane: nat, task: Task)
    | DrainTask(lane: nat, task: Task, execute: ExecutePc)
    | Stopped(kind: StopKind)

  /** How the scheduler, the clock and the allocator resolve a step. */
  datatype Choice = Normal | TimesOut | WakesSpuriously | Throws | Notifies(waiter: nat)

  type Outcome = Option<(Shared, Pc)>

  // ---- Shared operations ----

  /** `--outstandingTaskCount`, with the notification when it reaches zero; nothing for an untagged task. */
  function CompleteTagged(tags: Tags, node: Option<nat>): Tags {
    if node.None? || node.value !in tags.nodes then tags
    else
      var t := tags.nodes[node.value];
      tags.(nodes := tags.nodes[node.value := t.(outstanding := t.outstanding - 1)],
            waiters := if t.outstanding - 1 == 0 then {} else tags.waiters)
  }

  predicate CanRun(tags: Tags, node: Option<nat>) {
    node.None? || node.value !in tags.nodes || !tags.nodes[node.value].retired
  }

  function PopLane(q: Queues, lane: nat): Queues
    requires lane < |q.lanes| && q.lanes[lane] != []
  {
    q.(lanes := q.lanes[lane := q.lanes[lane][1..]])
  }

  function PushLane(q: Queues, lane: nat, t: Task): Queues
    requires lane < |q.lanes|
  {
    q.(lanes := q.lanes[lane := q.lanes[lane] + [t]])
  }

  /** A lane without the tasks of a node, in the same order: `remove_if`. */
  function Without(lane: seq<Task>, node: nat): seq<Task> {
    if lane == [] then []
    else if lane[0].node == Some(node) then Without(lane[1..], node)
    else [lane[0]] + Without(lane[1..], node)
  }

  /** The fates of the tasks of a node that `remove_if` destroys. */
  function RemovedFates(lane: seq<Task>, node: nat): Fates {
    if lane == [] then []
    else if lane[0].node == Some(node) then [(lane[0].id, Removed)] + RemovedFates(lane[1..], node)
    else RemovedFates(lane[1..], node)
  }

  function SweepLane(q: Queues, lane: nat, node: nat): Queues
    requires lane < |q.lanes|
  {
    q.(lanes := q.lanes[lane := Without(q.lanes[lane], node)], fates := q.fates + RemovedFates(q.lanes[lane], node))
  }

  function Count(q: Queues, delta: int): Queues {
    q.(queuedCount := q.queuedCount + delta)
  }

  function Record(q: Queues, id: nat, fate: Fate): Queues {
    q.(fates := q.fates + [(id, fate)])
  }

  // ---- The steps of each function ----

  /** The lane that a worker looks at next when it steals. */
  function Victim(me: nat, offset: nat, n: nat): (v: nat)
    requires n > 0
    ensures v < n
  {
    (me + offset) % n
  }

  /** runWorker from the loop condition to the end of a tryGetTask. */
  function TakeStep(sh: Shared, me: nat, pc: TakePc): Outcome
    requires me < |sh.queues.lanes|
  {
    var q := sh.queues;
    match pc
    case LoopHead => Some((sh, if sh.terminate then Exited else Take(TryOwn)))
    case TryOwn =>
      if q.lanes[me] == [] then Some((sh, Take(CheckCount)))
      else Some((sh.(queues := PopLane(q, me)), Took(q.lanes[me][0])))
    case CheckCount => Some((sh, Take(if q.queuedCount == 0 then FoundNothing else Steal(1))))
    case Steal(offset) =>
      if offset >= |q.lanes| then Some((sh, Take(FoundNothing)))
      else
        var victim := Victim(me, offset, |q.lanes|);
        if q.lanes[victim] == [] then Some((sh, Take(Steal(offset + 1))))
        else Some((sh.(queues := PopLane(q, victim)), Took(q.lanes[victim][0])))
    case FoundNothing => Some((sh.(idle := sh.idle.(count := sh.idle.count + 1)), Idle(Locking)))
  }

  /** The task that a worker or the drain has taken: run check, execution, completion. A task that throws ends
      like one that returns, because the throw is contained. */
  function ExecuteStep(sh: Shared, t: Task, pc: ExecutePc): (Shared, Option<ExecutePc>) {
    match pc
    case CheckRun => (sh, Some(if CanRun(sh.tags, t.node) then Run else Complete(false)))
    case Run => (sh, Some(Complete(true)))
    case Complete(ran) =>
      (sh.(tags := CompleteTagged(sh.tags, t.node),
           queues := Record(sh.queues, t.id, if ran then Executed else Skipped)), None)
  }

  /** The idle region of runWorker. */
  function IdleStep(sh: Shared, me: nat, pc: IdlePc, choice: Choice): Outcome {
    var w := sh.idle;
    match pc
    case Locking =>
      if w.mutex.None? then Some((sh.(idle := w.(mutex := Some(me))), Idle(EvalTerminate(false)))) else None
    case EvalTerminate(timedOut) =>
      if sh.terminate then Some((sh.(idle := w.(mutex := None)), Idle(Leaving)))
      else Some((sh, Idle(EvalCount(timedOut))))
    case EvalCount(timedOut) =>
      if sh.queues.queuedCount > 0 || timedOut
      then Some((sh.(idle := w.(mutex := None)), Idle(Leaving)))
      else Some((sh, Idle(Blocking)))
    case Blocking => Some((sh.(idle := w.(mutex := None, waiters := w.waiters + {me})), Idle(Blocked)))
    case Blocked =>
      if choice.TimesOut? then Some((sh.(idle := w.(waiters := w.waiters - {me})), Idle(Woken(true))))
      else if choice.WakesSpuriously? then Some((sh.(idle := w.(waiters := w.waiters - {me})), Idle(Woken(false))))
      else if me !in w.waiters then Some((sh, Idle(Woken(false))))
      else None
    case Woken(timedOut) =>
      if w.mutex.None? then Some((sh.(idle := w.(mutex := Some(me))), Idle(EvalTerminate(timedOut)))) else None
    case Leaving => Some((sh.(idle := w.(count := w.count - 1)), Take(LoopHead)))
  }

  const TICKETS: nat := 0x1_0000_0000

  /** try_emplace on the tag map, then the registration of one more task, unless the tag is being retired. */
  function RegisterTask(tags: Tags, tag: nat): (Tags, Option<nat>) {
    if tag in tags.index && tags.index[tag] in tags.nodes then
      var k := tags.index[tag];
      var t := tags.nodes[k];
      if t.retired then (tags, None)
      else (tags.(nodes := tags.nodes[k := t.(outstanding := t.outstanding + 1)]), Some(k))
    else
      (tags.(nodes := tags.nodes[tags.nextNode := TagState(tag, 1, false)],
             index := tags.index[tag := tags.nextNode],
             nextNode := tags.nextNode + 1),
       Some(tags.nextNode))
  }

  /** enqueue up to the moment when the task exists. */
  function AdmitStep(sh: Shared, me: nat, lane: nat, tag: nat): (Shared, Pc) {
    if tag == 0 then (sh, Submit(lane, Task(me, None), Increment))
    else
      var (tags', node) := RegisterTask(sh.tags, tag);
      if node.None? then (sh.(queues := Record(sh.queues, me, Rejected)), EnqueueDone)
      else (sh.(tags := tags'), Submit(lane, Task(me, node), Increment))
  }

  /** enqueue from the count to the push, with the way back when the push throws. */
  function SubmitStep(sh: Shared, lane: nat, t: Task, pc: SubmitPc, choice: Choice): (Shared, Pc) {
    var q := sh.queues;
    match pc
    case Increment => (sh.(queues := Count(q, 1)), Submit(lane, t, Push))
    case Push =>
      if choice.Throws? || lane >= |q.lanes| then (sh, Submit(lane, t, Uncount))
      else (sh.(queues := PushLane(q, lane, t)), Gate)
    case Uncount => (sh.(queues := Count(q, -1)), Submit(lane, t, Unregister))
    case Unregister =>
      (sh.(tags := CompleteTagged(sh.tags, t.node), queues := Record(q, t.id, Failed)), EnqueueDone)
  }

  /** notify_one under idleMutex: one of the blocked workers, if there are any. */
  function NotifyStep(sh: Shared, choice: Choice): Outcome {
    var w := sh.idle;
    if w.mutex.Some? then None
    else if w.waiters == {} then Some((sh, EnqueueDone))
    else if choice.Notifies? && choice.waiter in w.waiters then
      Some((sh.(idle := w.(waiters := w.waiters - {choice.waiter})), EnqueueDone))
    else None
  }

  function MarkStep(sh: Shared, tag: nat): Outcome {
    var tags := sh.tags;
    if tag !in tags.index || tags.index[tag] !in tags.nodes then Some((sh, RetireDone(None)))
    else
      var k := tags.index[tag];
      // Retirements of one tag do not overlap: the owner's obligation, asserted in debug builds.
      if tags.nodes[k].retired then None
      else Some((sh.(tags := tags.(nodes := tags.nodes[k := tags.nodes[k].(retired := true)])),
                 Retire(k, 0, Sweep(0))))
  }

  function RetireStep(sh: Shared, k: nat, removed: nat, pc: RetirePc): Outcome {
    var q, tags := sh.queues, sh.tags;
    match pc
    case Sweep(lane) =>
      if lane >= |q.lanes| then Some((sh, Retire(k, removed, SubtractQueued)))
      else
        Some((sh.(queues := SweepLane(q, lane, k)),
              Retire(k, removed + |RemovedFates(q.lanes[lane], k)|, Sweep(lane + 1))))
    case SubtractQueued => Some((sh.(queues := Count(q, 0 - removed)), Retire(k, removed, SubtractOutstanding)))
    case SubtractOutstanding =>
      if k !in tags.nodes then None
      else
        var t := tags.nodes[k];
        Some((sh.(tags := tags.(nodes := tags.nodes[k := t.(outstanding := t.outstanding - removed)])),
              Await(k, false)))
  }

  /** The wait for the last outstanding task, and the erasure of the node in the same critical section. */
  function AwaitStep(sh: Shared, me: nat, k: nat, parked: bool, choice: Choice): Outcome {
    var tags := sh.tags;
    if parked then
      if choice.WakesSpuriously? then Some((sh.(tags := tags.(waiters := tags.waiters - {me})), Await(k, false)))
      else if me !in tags.waiters then Some((sh, Await(k, false)))
      else None
    else if k !in tags.nodes then None
    else if tags.nodes[k].outstanding != 0 then
      Some((sh.(tags := tags.(waiters := tags.waiters + {me})), Await(k, true)))
    else
      var tag := tags.nodes[k].tag;
      if tag in tags.index && tags.index[tag] == k then
        Some((sh.(tags := tags.(nodes := tags.nodes - {k}, index := tags.index - {tag})), RetireDone(Some(k))))
      else Some((sh, RetireDone(Some(k))))
  }

  function AbandonPopStep(sh: Shared, lane: nat): (Shared, Pc) {
    var q := sh.queues;
    if lane >= |q.lanes| then (sh.(detached := true), Stopped(Abandon))
    else if q.lanes[lane] == [] then (sh, AbandonPop(lane + 1))
    else (sh.(queues := PopLane(q, lane)), AbandonTask(lane, q.lanes[lane][0], false))
  }

  function AbandonTaskStep(sh: Shared, lane: nat, t: Task, counted: bool): (Shared, Pc) {
    if counted then
      (sh.(tags := CompleteTagged(sh.tags, t.node), queues := Record(sh.queues, t.id, Destroyed)), AbandonPop(lane))
    else (sh.(queues := Count(sh.queues, -1)), AbandonTask(lane, t, true))
  }

  function DrainPopStep(sh: Shared, lane: nat, drainedAny: bool): (Shared, Pc) {
    var q := sh.queues;
    if lane >= |q.lanes| then (sh, if drainedAny then DrainPop(0, false) else Stopped(FinishAndDrain))
    else if q.lanes[lane] == [] then (sh, DrainPop(lane + 1, drainedAny))
    else (sh.(queues := PopLane(q, lane)), DrainTook(lane, q.lanes[lane][0]))
  }

  function StopStep(sh: Shared, kind: StopKind, pc: StopPc, allExited: bool): Outcome {
    match pc
    case SetTerminate => Some((sh.(terminate := true), Stop(kind, NotifyAll)))
    case NotifyAll =>
      if sh.idle.mutex.Some? then None
      else Some((sh.(idle := sh.idle.(waiters := {})), if kind.Abandon? then AbandonPop(0) else Stop(kind, Join)))
    case Join =>
      if sh.detached || allExited then Some((sh, if kind.FinishAndDrain? then DrainPop(0, false) else Stopped(kind)))
      else None
  }

  // ---- The machine ----

  /** The first |lanes| threads are the workers, worker w owning lane w; the others entered through
      enqueue, retire, finishAllThreads or abandonAllThreads, from any thread, a running task included. */
  datatype State = State(sh: Shared, threads: seq<Pc>)

  datatype Event = Step(thread: nat, choice: Choice) | Call(entry: Pc)

  predicate IsEntry(pc: Pc) {
    pc.Ticket? || (pc.Mark? && pc.tag != 0) || (pc.Stop? && pc.stop.SetTerminate?)
  }

  /** One step of thread `me`, as far as it depends on the shared record and on its own program counter. */
  function LocalStep(sh: Shared, me: nat, pc: Pc, choice: Choice, allExited: bool): Outcome {
    match pc
    case Take(p) => if me < |sh.queues.lanes| then TakeStep(sh, me, p) else None
    case Took(t) => Some((sh.(queues := Count(sh.queues, -1)), Execute(t, CheckRun)))
    case Execute(t, p) =>
      var (sh', p') := ExecuteStep(sh, t, p);
      Some((sh', if p'.Some? then Execute(t, p'.value) else Take(LoopHead)))
    case Idle(p) => IdleStep(sh, me, p, choice)
    case Exited => None
    case Ticket(tag) =>
      if |sh.queues.lanes| == 0 then None
      else
        var q := sh.queues;
        Some((sh.(queues := q.(laneSelector := (q.laneSelector + 1) % TICKETS)),
              Register(q.laneSelector % |q.lanes|, tag)))
    case Register(lane, tag) => Some(AdmitStep(sh, me, lane, tag))
    case Submit(lane, t, p) => Some(SubmitStep(sh, lane, t, p, choice))
    case Gate => Some((sh, if sh.idle.count > 0 then Notify else EnqueueDone))
    case Notify => NotifyStep(sh, choice)
    case EnqueueDone => None
    case Mark(tag) => MarkStep(sh, tag)
    case Retire(k, removed, p) => RetireStep(sh, k, removed, p)
    case Await(k, parked) => AwaitStep(sh, me, k, parked, choice)
    case RetireDone(_) => None
    case Stop(kind, p) => StopStep(sh, kind, p, allExited)
    case AbandonPop(lane) => Some(AbandonPopStep(sh, lane))
    case AbandonTask(lane, t, counted) => Some(AbandonTaskStep(sh, lane, t, counted))
    case DrainPop(lane, drainedAny) => Some(DrainPopStep(sh, lane, drainedAny))
    case DrainTook(lane, t) => Some((sh.(queues := Count(sh.queues, -1)), DrainTask(lane, t, CheckRun)))
    case DrainTask(lane, t, p) =>
      var (sh', p') := ExecuteStep(sh, t, p);
      Some((sh', if p'.Some? then DrainTask(lane, t, p'.value) else DrainPop(lane, true)))
    case Stopped(_) => None
  }

  predicate AllExited(s: State) {
    forall w :: 0 <= w < |s.sh.queues.lanes| && w < |s.threads| ==> s.threads[w] == Exited
  }

  function Next(s: State, e: Event): Option<State> {
    match e
    case Call(entry) => if IsEntry(entry) then Some(s.(threads := s.threads + [entry])) else None
    case Step(me, choice) =>
      if me >= |s.threads| then None
      else
        match LocalStep(s.sh, me, s.threads[me], choice, AllExited(s))
        case None => None
        case Some((sh', pc')) => Some(State(sh', s.threads[me := pc']))
  }

  function Initial(workers: nat): State {
    State(
      Shared(Queues(seq(workers, _ => []), 0, 0, []), IdleWait(0, None, {}), Tags(map[], map[], 0, {}), false, false),
      seq(workers, _ => Take(LoopHead)))
  }

  ghost predicate IsStep(s: State, s': State) {
    exists e :: Next(s, e) == Some(s')
  }

  ghost predicate StepAt(run: seq<State>, i: nat)
    requires 0 < i < |run|
  {
    IsStep(run[i - 1], run[i])
  }

  /** A run: the states that a pool of the given size goes through, one event at a time. */
  ghost predicate IsRun(workers: nat, run: seq<State>) {
    workers > 0 && |run| > 0 && run[0] == Initial(workers) && forall i :: 0 < i < |run| ==> StepAt(run, i)
  }
}
