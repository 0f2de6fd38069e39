/**
 The conservation laws of the pool, one step at a time: what a step does to each counter is what it does to
 the things that the counter should count. No law mentions any thread but the one that moves.
 */
module PoolLaws {
  import opened Basics
  import opened Pool
  import opened PoolSums

  function Outstanding(tags: Tags, k: nat): int {
    if k in tags.nodes then tags.nodes[k].outstanding else 0
  }

  function Marked(tags: Tags, k: nat): nat {
    One(k in tags.nodes && tags.nodes[k].retired)
  }

  /** queuedCount moves by what the queued tasks move. */
  ghost predicate QueuedLaw(sh: Shared, me: nat, pc: Pc, sh': Shared, pc': Pc) {
    sh'.queues.queuedCount - sh.queues.queuedCount ==
    LocalTotal(Queued, sh'.queues, me, pc') - LocalTotal(Queued, sh.queues, me, pc)
  }

  /** A step moves a task or records its fate; it neither copies nor drops it. */
  ghost predicate TaskLaw(x: nat, sh: Shared, me: nat, pc: Pc, sh': Shared, pc': Pc) {
    LocalTotal(OfTask(x), sh'.queues, me, pc') + FateCount(sh'.queues.fates, x) ==
    LocalTotal(OfTask(x), sh.queues, me, pc) + FateCount(sh.queues.fates, x)
  }

  /** The outstanding count of a node moves by what the tasks of that node move. */
  ghost predicate NodeLaw(k: nat, sh: Shared, me: nat, pc: Pc, sh': Shared, pc': Pc) {
    Outstanding(sh'.tags, k) - Outstanding(sh.tags, k) ==
    LocalTotal(OfNode(k), sh'.queues, me, pc') - LocalTotal(OfNode(k), sh.queues, me, pc)
  }

  /** A node is marked as retired exactly while one thread retires it. */
  ghost predicate MarkLaw(k: nat, sh: Shared, me: nat, pc: Pc, sh': Shared, pc': Pc) {
    Marked(sh'.tags, k) - Marked(sh.tags, k) == Weight(RetirerOf(k), me, pc') - Weight(RetirerOf(k), me, pc)
  }

  /** idleCount moves by what the workers in the idle region move. */
  ghost predicate IdleLaw(sh: Shared, me: nat, pc: Pc, sh': Shared, pc': Pc) {
    sh'.idle.count - sh.idle.count == Weight(InIdle, me, pc') - Weight(InIdle, me, pc)
  }

  ghost predicate QueueLaws(x: nat, k: nat, sh: Shared, me: nat, pc: Pc, sh': Shared, pc': Pc) {
    && QueuedLaw(sh, me, pc, sh', pc') && TaskLaw(x, sh, me, pc, sh', pc') && NodeLaw(k, sh, me, pc, sh', pc')
    && |sh'.queues.lanes| == |sh.queues.lanes|
  }

  ghost predicate OtherLaws(k: nat, sh: Shared, me: nat, pc: Pc, sh': Shared, pc': Pc) {
    IdleLaw(sh, me, pc, sh', pc') && MarkLaw(k, sh, me, pc, sh', pc')
  }

  /** Every tag names one live node, every live node is named by its own tag, and new nodes get new numbers. */
  ghost predicate TagMapOk(tags: Tags) {
    && (forall g :: g in tags.index ==> tags.index[g] in tags.nodes && tags.nodes[tags.index[g]].tag == g)
    && (forall k :: k in tags.nodes ==>
          k < tags.nextNode && tags.nodes[k].tag in tags.index && tags.index[tags.nodes[k].tag] == k)
  }

  /** The node of a task is live. */
  predicate Live(tags: Tags, node: Option<nat>) {
    node.Some? ==> node.value in tags.nodes
  }

  /** Nodes stay where they are and keep their tag; a retired node stays retired until it is erased; a number
      is never given to a second node. */
  ghost predicate TagsEvolve(tags: Tags, tags': Tags) {
    && TagMapOk(tags') && tags.nextNode <= tags'.nextNode
    && (forall k :: k in tags'.nodes && k in tags.nodes ==>
          tags'.nodes[k].tag == tags.nodes[k].tag && (tags.nodes[k].retired ==> tags'.nodes[k].retired))
    && (forall k :: k in tags'.nodes && k !in tags.nodes ==> k >= tags.nextNode)
  }

  lemma CompleteLaws(tags: Tags, node: Option<nat>, k: nat)
    requires TagMapOk(tags) && Live(tags, node)
    ensures var tags' := CompleteTagged(tags, node);
      && Outstanding(tags', k) == Outstanding(tags, k) - One(node == Some(k))
      && Marked(tags', k) == Marked(tags, k) && TagsEvolve(tags, tags')
  {
  }

  lemma RegisterLaws(tags: Tags, tag: nat, k: nat)
    requires TagMapOk(tags)
    ensures var (tags', node) := RegisterTask(tags, tag);
      && (node.None? ==> tags' == tags)
      && Outstanding(tags', k) == Outstanding(tags, k) + One(node == Some(k))
      && Marked(tags', k) == Marked(tags, k) && TagsEvolve(tags, tags')
  {
  }

  lemma QueuedUntouched(sh: Shared, me: nat, pc: Pc, sh': Shared, pc': Pc)
    requires sh'.queues == sh.queues && UncountedOf(pc') == UncountedOf(pc)
    ensures QueuedLaw(sh, me, pc, sh', pc')
  {
  }

  lemma TaskUntouched(x: nat, sh: Shared, me: nat, pc: Pc, sh': Shared, pc': Pc)
    requires sh'.queues == sh.queues && PlaceOf(x, me, pc') == PlaceOf(x, me, pc)
    ensures TaskLaw(x, sh, me, pc, sh', pc')
  {
  }

  lemma NodeUntouched(k: nat, sh: Shared, me: nat, pc: Pc, sh': Shared, pc': Pc)
    requires sh'.queues == sh.queues && StandsFor(k, pc') == StandsFor(k, pc)
    requires Outstanding(sh'.tags, k) == Outstanding(sh.tags, k)
    ensures NodeLaw(k, sh, me, pc, sh', pc')
  {
  }

  /** A step that leaves the queues alone, and the number of tasks that the thread stands for. */
  lemma QueuesUntouched(x: nat, k: nat, sh: Shared, me: nat, pc: Pc, sh': Shared, pc': Pc)
    requires sh'.queues == sh.queues && Outstanding(sh'.tags, k) == Outstanding(sh.tags, k)
    requires UncountedOf(pc') == UncountedOf(pc) && PlaceOf(x, me, pc') == PlaceOf(x, me, pc)
    requires StandsFor(k, pc') == StandsFor(k, pc)
    ensures QueueLaws(x, k, sh, me, pc, sh', pc')
  {
    QueuedUntouched(sh, me, pc, sh', pc');
    TaskUntouched(x, sh, me, pc, sh', pc');
    NodeUntouched(k, sh, me, pc, sh', pc');
  }

  lemma TakeLaws(x: nat, k: nat, sh: Shared, me: nat, p: TakePc, sh': Shared, pc': Pc)
    requires me < |sh.queues.lanes| && TakeStep(sh, me, p) == Some((sh', pc'))
    ensures QueueLaws(x, k, sh, me, Take(p), sh', pc')
    ensures OtherLaws(k, sh, me, Take(p), sh', pc') && sh'.tags == sh.tags
  {
    var q := sh.queues;
    if pc'.Took? {
      var lane := if p.TryOwn? then me else Victim(me, p.offset, |q.lanes|);
      TookLaws(x, k, sh, me, p, lane);
    } else {
      QueuesUntouched(x, k, sh, me, Take(p), sh', pc');
    }
  }

  lemma TookLaws(x: nat, k: nat, sh: Shared, me: nat, p: TakePc, lane: nat)
    requires lane < |sh.queues.lanes| && sh.queues.lanes[lane] != []
    ensures QueueLaws(x, k, sh, me, Take(p), sh.(queues := PopLane(sh.queues, lane)), Took(sh.queues.lanes[lane][0]))
  {
    PopLaws(x, k, sh.queues, lane);
  }

  lemma IdleLaws(x: nat, k: nat, sh: Shared, me: nat, p: IdlePc, choice: Choice, sh': Shared, pc': Pc)
    requires IdleStep(sh, me, p, choice) == Some((sh', pc'))
    ensures QueueLaws(x, k, sh, me, Idle(p), sh', pc')
    ensures OtherLaws(k, sh, me, Idle(p), sh', pc') && sh'.tags == sh.tags
  {
    QueuesUntouched(x, k, sh, me, Idle(p), sh', pc');
  }

  /** Execution, for a worker or for the drain: the fate is recorded and the node is told in the same step. */
  lemma ExecuteLaws(x: nat, k: nat, sh: Shared, t: Task, p: ExecutePc)
    requires TagMapOk(sh.tags) && Live(sh.tags, t.node)
    ensures var (sh', p') := ExecuteStep(sh, t, p);
      && sh'.queues.lanes == sh.queues.lanes && sh'.queues.queuedCount == sh.queues.queuedCount && sh'.idle == sh.idle
      && FateCount(sh'.queues.fates, x) == FateCount(sh.queues.fates, x) + One(p'.None? && t.id == x)
      && Outstanding(sh'.tags, k) == Outstanding(sh.tags, k) - One(p'.None? && t.node == Some(k))
      && Marked(sh'.tags, k) == Marked(sh.tags, k) && TagsEvolve(sh.tags, sh'.tags)
  {
    CompleteLaws(sh.tags, t.node, k);
    FateCountRecord(sh.queues.fates, t.id, Executed, x);
    FateCountRecord(sh.queues.fates, t.id, Skipped, x);
  }

  lemma AdmitTask(x: nat, sh: Shared, me: nat, lane: nat, tag: nat)
    ensures var (sh', pc') := AdmitStep(sh, me, lane, tag); TaskLaw(x, sh, me, Register(lane, tag), sh', pc')
  {
    FateCountRecord(sh.queues.fates, me, Rejected, x);
  }

  lemma AdmitNode(k: nat, sh: Shared, me: nat, lane: nat, tag: nat)
    requires TagMapOk(sh.tags)
    ensures var (sh', pc') := AdmitStep(sh, me, lane, tag); NodeLaw(k, sh, me, Register(lane, tag), sh', pc')
  {
    RegisterLaws(sh.tags, tag, k);
  }

  lemma AdmitTags(k: nat, sh: Shared, me: nat, lane: nat, tag: nat)
    requires TagMapOk(sh.tags)
    ensures var (sh', pc') := AdmitStep(sh, me, lane, tag);
      OtherLaws(k, sh, me, Register(lane, tag), sh', pc') && TagsEvolve(sh.tags, sh'.tags)
  {
    RegisterLaws(sh.tags, tag, k);
  }

  lemma AdmitLaws(x: nat, k: nat, sh: Shared, me: nat, lane: nat, tag: nat)
    requires TagMapOk(sh.tags)
    ensures var (sh', pc') := AdmitStep(sh, me, lane, tag);
      && QueueLaws(x, k, sh, me, Register(lane, tag), sh', pc')
      && OtherLaws(k, sh, me, Register(lane, tag), sh', pc') && TagsEvolve(sh.tags, sh'.tags)
  {
    AdmitTask(x, sh, me, lane, tag);
    AdmitNode(k, sh, me, lane, tag);
    AdmitTags(k, sh, me, lane, tag);
  }

  lemma SubmitQueued(sh: Shared, me: nat, lane: nat, t: Task, p: SubmitPc, choice: Choice)
    ensures var (sh', pc') := SubmitStep(sh, lane, t, p, choice);
      QueuedLaw(sh, me, Submit(lane, t, p), sh', pc') && |sh'.queues.lanes| == |sh.queues.lanes|
  {
    if p.Push? && lane < |sh.queues.lanes| {
      PushMoves(Queued, sh.queues, lane, t);
    }
  }

  lemma SubmitTask(x: nat, sh: Shared, me: nat, lane: nat, t: Task, p: SubmitPc, choice: Choice)
    ensures var (sh', pc') := SubmitStep(sh, lane, t, p, choice); TaskLaw(x, sh, me, Submit(lane, t, p), sh', pc')
  {
    if p.Push? && lane < |sh.queues.lanes| {
      PushMoves(OfTask(x), sh.queues, lane, t);
    }
    FateCountRecord(sh.queues.fates, t.id, Failed, x);
  }

  lemma SubmitNode(k: nat, sh: Shared, me: nat, lane: nat, t: Task, p: SubmitPc, choice: Choice)
    requires TagMapOk(sh.tags) && Live(sh.tags, t.node)
    ensures var (sh', pc') := SubmitStep(sh, lane, t, p, choice); NodeLaw(k, sh, me, Submit(lane, t, p), sh', pc')
  {
    if p.Push? && lane < |sh.queues.lanes| {
      PushMoves(OfNode(k), sh.queues, lane, t);
    } else if p.Unregister? {
      UnregisterNode(k, sh, me, lane, t, choice);
    }
  }

  lemma UnregisterNode(k: nat, sh: Shared, me: nat, lane: nat, t: Task, choice: Choice)
    requires TagMapOk(sh.tags) && Live(sh.tags, t.node)
    ensures var (sh', pc') := SubmitStep(sh, lane, t, Unregister, choice);
      NodeLaw(k, sh, me, Submit(lane, t, Unregister), sh', pc')
  {
    CompleteLaws(sh.tags, t.node, k);
  }

  lemma SubmitTags(k: nat, sh: Shared, me: nat, lane: nat, t: Task, p: SubmitPc, choice: Choice)
    requires TagMapOk(sh.tags) && Live(sh.tags, t.node)
    ensures var (sh', pc') := SubmitStep(sh, lane, t, p, choice);
      OtherLaws(k, sh, me, Submit(lane, t, p), sh', pc') && TagsEvolve(sh.tags, sh'.tags)
  {
    if p.Unregister? {
      CompleteLaws(sh.tags, t.node, k);
    }
  }

  lemma SubmitLaws(x: nat, k: nat, sh: Shared, me: nat, lane: nat, t: Task, p: SubmitPc, choice: Choice)
    requires TagMapOk(sh.tags) && Live(sh.tags, t.node)
    ensures var (sh', pc') := SubmitStep(sh, lane, t, p, choice);
      && QueueLaws(x, k, sh, me, Submit(lane, t, p), sh', pc')
      && OtherLaws(k, sh, me, Submit(lane, t, p), sh', pc') && TagsEvolve(sh.tags, sh'.tags)
  {
    SubmitQueued(sh, me, lane, t, p, choice);
    SubmitTask(x, sh, me, lane, t, p, choice);
    SubmitNode(k, sh, me, lane, t, p, choice);
    SubmitTags(k, sh, me, lane, t, p, choice);
  }

  lemma MarkQueue(x: nat, k: nat, sh: Shared, me: nat, tag: nat, sh': Shared, pc': Pc)
    requires MarkStep(sh, tag) == Some((sh', pc'))
    ensures QueueLaws(x, k, sh, me, Mark(tag), sh', pc')
  {
    QueuesUntouched(x, k, sh, me, Mark(tag), sh', pc');
  }

  lemma MarkOther(k: nat, sh: Shared, me: nat, tag: nat, sh': Shared, pc': Pc)
    requires MarkStep(sh, tag) == Some((sh', pc')) && TagMapOk(sh.tags)
    ensures OtherLaws(k, sh, me, Mark(tag), sh', pc') && TagsEvolve(sh.tags, sh'.tags)
  {
  }

  lemma RetireQueued(sh: Shared, me: nat, j: nat, removed: nat, p: RetirePc, sh': Shared, pc': Pc)
    requires RetireStep(sh, j, removed, p) == Some((sh', pc'))
    ensures QueuedLaw(sh, me, Pc.Retire(j, removed, p), sh', pc') && |sh'.queues.lanes| == |sh.queues.lanes|
  {
    if p.Sweep? && p.lane < |sh.queues.lanes| {
      SweepMoves(Queued, sh.queues, p.lane, j);
    }
  }

  lemma RetireTask(x: nat, sh: Shared, me: nat, j: nat, removed: nat, p: RetirePc, sh': Shared, pc': Pc)
    requires RetireStep(sh, j, removed, p) == Some((sh', pc'))
    ensures TaskLaw(x, sh, me, Pc.Retire(j, removed, p), sh', pc')
  {
    var q := sh.queues;
    if p.Sweep? && p.lane < |q.lanes| {
      SweepMoves(OfTask(x), q, p.lane, j);
      FateCountConcat(q.fates, RemovedFates(q.lanes[p.lane], j), x);
    }
  }

  lemma RetireOther(k: nat, sh: Shared, me: nat, j: nat, removed: nat, p: RetirePc, sh': Shared, pc': Pc)
    requires RetireStep(sh, j, removed, p) == Some((sh', pc'))
    ensures OtherLaws(k, sh, me, Pc.Retire(j, removed, p), sh', pc')
  {
  }

  lemma RetireTags(sh: Shared, j: nat, removed: nat, p: RetirePc, sh': Shared, pc': Pc)
    requires RetireStep(sh, j, removed, p) == Some((sh', pc')) && TagMapOk(sh.tags)
    ensures TagsEvolve(sh.tags, sh'.tags)
  {
    if !p.SubtractOutstanding? {
      assert sh'.tags == sh.tags;
    }
  }

  lemma RetireNode(k: nat, sh: Shared, me: nat, j: nat, removed: nat, p: RetirePc, sh': Shared, pc': Pc)
    requires RetireStep(sh, j, removed, p) == Some((sh', pc'))
    ensures NodeLaw(k, sh, me, Pc.Retire(j, removed, p), sh', pc')
  {
    if p.Sweep? && p.lane < |sh.queues.lanes| {
      SweepMoves(OfNode(k), sh.queues, p.lane, j);
    }
  }

  lemma AwaitQueue(x: nat, k: nat, sh: Shared, me: nat, j: nat, parked: bool, choice: Choice, sh': Shared, pc': Pc)
    requires AwaitStep(sh, me, j, parked, choice) == Some((sh', pc'))
    ensures QueueLaws(x, k, sh, me, Await(j, parked), sh', pc')
  {
    QueuesUntouched(x, k, sh, me, Await(j, parked), sh', pc');
  }

  lemma AwaitOther(k: nat, sh: Shared, me: nat, j: nat, parked: bool, choice: Choice, sh': Shared, pc': Pc)
    requires AwaitStep(sh, me, j, parked, choice) == Some((sh', pc')) && TagMapOk(sh.tags) && Marked(sh.tags, j) == 1
    ensures OtherLaws(k, sh, me, Await(j, parked), sh', pc') && TagsEvolve(sh.tags, sh'.tags)
  {
  }

  /** A pop, by whoever: the task moves from its lane to the thread that popped it. */
  lemma PopLaws(x: nat, k: nat, q: Queues, lane: nat)
    requires lane < |q.lanes| && q.lanes[lane] != []
    ensures var q', t := PopLane(q, lane), q.lanes[lane][0];
      && LanesSum(Queued, q.lanes) == LanesSum(Queued, q'.lanes) + 1
      && LanesSum(OfTask(x), q.lanes) == LanesSum(OfTask(x), q'.lanes) + One(t.id == x)
      && LanesSum(OfNode(k), q.lanes) == LanesSum(OfNode(k), q'.lanes) + One(t.node == Some(k))
  {
    PopMoves(Queued, q, lane);
    PopMoves(OfTask(x), q, lane);
    PopMoves(OfNode(k), q, lane);
  }

  lemma AbandonPopTakes(x: nat, k: nat, sh: Shared, me: nat, lane: nat)
    requires lane < |sh.queues.lanes| && sh.queues.lanes[lane] != []
    ensures var t := sh.queues.lanes[lane][0];
      QueueLaws(x, k, sh, me, AbandonPop(lane), sh.(queues := PopLane(sh.queues, lane)), AbandonTask(lane, t, false))
  {
    PopLaws(x, k, sh.queues, lane);
  }

  lemma AbandonPopQueue(x: nat, k: nat, sh: Shared, me: nat, lane: nat)
    ensures var (sh', pc') := AbandonPopStep(sh, lane); QueueLaws(x, k, sh, me, AbandonPop(lane), sh', pc')
  {
    if lane < |sh.queues.lanes| && sh.queues.lanes[lane] != [] {
      AbandonPopTakes(x, k, sh, me, lane);
    }
  }

  lemma AbandonPopOther(k: nat, sh: Shared, me: nat, lane: nat)
    ensures var (sh', pc') := AbandonPopStep(sh, lane);
      OtherLaws(k, sh, me, AbandonPop(lane), sh', pc') && sh'.tags == sh.tags
  {
  }

  lemma AbandonTaskQueue(x: nat, k: nat, sh: Shared, me: nat, lane: nat, t: Task, counted: bool)
    requires TagMapOk(sh.tags) && Live(sh.tags, t.node)
    ensures var (sh', pc') := AbandonTaskStep(sh, lane, t, counted);
      QueueLaws(x, k, sh, me, AbandonTask(lane, t, counted), sh', pc')
  {
    CompleteLaws(sh.tags, t.node, k);
    FateCountRecord(sh.queues.fates, t.id, Destroyed, x);
  }

  lemma AbandonTaskOther(k: nat, sh: Shared, me: nat, lane: nat, t: Task, counted: bool)
    requires TagMapOk(sh.tags) && Live(sh.tags, t.node)
    ensures var (sh', pc') := AbandonTaskStep(sh, lane, t, counted);
      OtherLaws(k, sh, me, AbandonTask(lane, t, counted), sh', pc') && TagsEvolve(sh.tags, sh'.tags)
  {
    CompleteLaws(sh.tags, t.node, k);
  }

  lemma DrainPopTakes(x: nat, k: nat, sh: Shared, me: nat, lane: nat, drainedAny: bool)
    requires lane < |sh.queues.lanes| && sh.queues.lanes[lane] != []
    ensures var t := sh.queues.lanes[lane][0];
      QueueLaws(x, k, sh, me, DrainPop(lane, drainedAny), sh.(queues := PopLane(sh.queues, lane)), DrainTook(lane, t))
  {
    PopLaws(x, k, sh.queues, lane);
  }

  lemma DrainPopQueue(x: nat, k: nat, sh: Shared, me: nat, lane: nat, drainedAny: bool)
    ensures var (sh', pc') := DrainPopStep(sh, lane, drainedAny);
      QueueLaws(x, k, sh, me, DrainPop(lane, drainedAny), sh', pc')
  {
    if lane < |sh.queues.lanes| && sh.queues.lanes[lane] != [] {
      DrainPopTakes(x, k, sh, me, lane, drainedAny);
    }
  }

  lemma DrainPopOther(k: nat, sh: Shared, me: nat, lane: nat, drainedAny: bool)
    ensures var (sh', pc') := DrainPopStep(sh, lane, drainedAny);
      OtherLaws(k, sh, me, DrainPop(lane, drainedAny), sh', pc') && sh'.tags == sh.tags
  {
  }

  /** What has to hold of the moving thread for the laws to hold of its step. */
  ghost predicate MayStep(sh: Shared, pc: Pc) {
    && TagMapOk(sh.tags)
    && (Held(pc).Some? ==> Live(sh.tags, Held(pc).value.node))
    && (RetiringNode(pc).Some? ==> Marked(sh.tags, RetiringNode(pc).value) == 1)
  }

  lemma StopQueue(x: nat, k: nat, sh: Shared, me: nat, kind: StopKind, p: StopPc, allExited: bool, sh': Shared, pc': Pc)
    requires StopStep(sh, kind, p, allExited) == Some((sh', pc'))
    ensures QueueLaws(x, k, sh, me, Stop(kind, p), sh', pc')
  {
    QueuesUntouched(x, k, sh, me, Stop(kind, p), sh', pc');
  }

  lemma StopOther(k: nat, sh: Shared, me: nat, kind: StopKind, p: StopPc, allExited: bool, sh': Shared, pc': Pc)
    requires StopStep(sh, kind, p, allExited) == Some((sh', pc'))
    ensures OtherLaws(k, sh, me, Stop(kind, p), sh', pc') && sh'.tags == sh.tags
  {
  }

  lemma NotifyLaws(x: nat, k: nat, sh: Shared, me: nat, choice: Choice, sh': Shared, pc': Pc)
    requires NotifyStep(sh, choice) == Some((sh', pc'))
    ensures QueueLaws(x, k, sh, me, Notify, sh', pc') && OtherLaws(k, sh, me, Notify, sh', pc') && sh'.tags == sh.tags
  {
    QueuesUntouched(x, k, sh, me, Notify, sh', pc');
  }

  ghost predicate Laws(x: nat, k: nat, sh: Shared, me: nat, pc: Pc, sh': Shared, pc': Pc) {
    QueueLaws(x, k, sh, me, pc, sh', pc') && OtherLaws(k, sh, me, pc, sh', pc') && TagsEvolve(sh.tags, sh'.tags)
  }

  lemma WorkerLaws(x: nat, k: nat, sh: Shared, me: nat, pc: Pc, choice: Choice, allExited: bool, sh': Shared, pc': Pc)
    requires LocalStep(sh, me, pc, choice, allExited) == Some((sh', pc')) && MayStep(sh, pc)
    requires pc.Take? || pc.Took? || pc.Execute? || pc.Idle? || pc.Exited?
    ensures Laws(x, k, sh, me, pc, sh', pc')
  {
    match pc {
      case Take(p) => TakeLaws(x, k, sh, me, p, sh', pc');
      case Took(t) => TookTaskLaws(x, k, sh, me, t);
      case Execute(t, p) => ExecuteTaskLaws(x, k, sh, me, t, p);
      case Idle(p) => IdleLaws(x, k, sh, me, p, choice, sh', pc');
      case Exited =>
    }
  }

  lemma TookTaskLaws(x: nat, k: nat, sh: Shared, me: nat, t: Task)
    requires TagMapOk(sh.tags)
    ensures Laws(x, k, sh, me, Took(t), sh.(queues := Count(sh.queues, -1)), Execute(t, CheckRun))
  {
  }

  lemma ExecuteTaskLaws(x: nat, k: nat, sh: Shared, me: nat, t: Task, p: ExecutePc)
    requires TagMapOk(sh.tags) && Live(sh.tags, t.node)
    ensures var (sh', p') := ExecuteStep(sh, t, p);
      Laws(x, k, sh, me, Execute(t, p), sh', if p'.Some? then Execute(t, p'.value) else Take(LoopHead))
  {
    ExecuteLaws(x, k, sh, t, p);
  }

  lemma EnqueuerLaws(x: nat, k: nat, sh: Shared, me: nat, pc: Pc, choice: Choice, allExited: bool, sh': Shared, pc': Pc)
    requires LocalStep(sh, me, pc, choice, allExited) == Some((sh', pc')) && MayStep(sh, pc)
    requires pc.Ticket? || pc.Register? || pc.Submit? || pc.Gate? || pc.Notify? || pc.EnqueueDone?
    ensures Laws(x, k, sh, me, pc, sh', pc')
  {
    match pc {
      case Ticket(tag) => TicketLaws(x, k, sh, me, tag, sh', pc');
      case Register(lane, tag) => AdmitLaws(x, k, sh, me, lane, tag);
      case Submit(lane, t, p) => SubmitLaws(x, k, sh, me, lane, t, p, choice);
      case Gate => QueuesUntouched(x, k, sh, me, Gate, sh', pc');
      case Notify => NotifyLaws(x, k, sh, me, choice, sh', pc');
      case EnqueueDone =>
    }
  }

  lemma TicketLaws(x: nat, k: nat, sh: Shared, me: nat, tag: nat, sh': Shared, pc': Pc)
    requires sh' == sh.(queues := sh.queues.(laneSelector := sh'.queues.laneSelector)) && pc'.Register?
    ensures QueueLaws(x, k, sh, me, Ticket(tag), sh', pc') && OtherLaws(k, sh, me, Ticket(tag), sh', pc')
  {
  }

  lemma RetirerLaws(x: nat, k: nat, sh: Shared, me: nat, pc: Pc, choice: Choice, allExited: bool, sh': Shared, pc': Pc)
    requires LocalStep(sh, me, pc, choice, allExited) == Some((sh', pc')) && MayStep(sh, pc)
    requires pc.Mark? || pc.Retire? || pc.Await? || pc.RetireDone?
    ensures Laws(x, k, sh, me, pc, sh', pc')
  {
    match pc {
      case Mark(tag) =>
        MarkQueue(x, k, sh, me, tag, sh', pc');
        MarkOther(k, sh, me, tag, sh', pc');
      case Retire(j, removed, p) =>
        RetireQueued(sh, me, j, removed, p, sh', pc');
        RetireTask(x, sh, me, j, removed, p, sh', pc');
        RetireNode(k, sh, me, j, removed, p, sh', pc');
        RetireOther(k, sh, me, j, removed, p, sh', pc');
        RetireTags(sh, j, removed, p, sh', pc');
      case Await(j, parked) =>
        AwaitQueue(x, k, sh, me, j, parked, choice, sh', pc');
        AwaitOther(k, sh, me, j, parked, choice, sh', pc');
      case RetireDone(_) =>
    }
  }

  lemma StopperLaws(x: nat, k: nat, sh: Shared, me: nat, pc: Pc, choice: Choice, allExited: bool, sh': Shared, pc': Pc)
    requires LocalStep(sh, me, pc, choice, allExited) == Some((sh', pc')) && MayStep(sh, pc)
    requires pc.Stop? || pc.AbandonPop? || pc.AbandonTask? || pc.Stopped?
    ensures Laws(x, k, sh, me, pc, sh', pc')
  {
    match pc {
      case Stop(kind, p) =>
        StopQueue(x, k, sh, me, kind, p, allExited, sh', pc');
        StopOther(k, sh, me, kind, p, allExited, sh', pc');
      case AbandonPop(lane) =>
        AbandonPopQueue(x, k, sh, me, lane);
        AbandonPopOther(k, sh, me, lane);
      case AbandonTask(lane, t, counted) =>
        AbandonTaskQueue(x, k, sh, me, lane, t, counted);
        AbandonTaskOther(k, sh, me, lane, t, counted);
      case Stopped(_) =>
    }
  }

  lemma DrainTaskQueue(x: nat, k: nat, sh: Shared, me: nat, lane: nat, t: Task, p: ExecutePc)
    requires TagMapOk(sh.tags) && Live(sh.tags, t.node)
    ensures var (sh', p') := ExecuteStep(sh, t, p);
      QueueLaws(x, k, sh, me, DrainTask(lane, t, p), sh',
                if p'.Some? then DrainTask(lane, t, p'.value) else DrainPop(lane, true))
  {
    ExecuteLaws(x, k, sh, t, p);
  }

  lemma DrainTaskOther(k: nat, sh: Shared, me: nat, lane: nat, t: Task, p: ExecutePc)
    requires TagMapOk(sh.tags) && Live(sh.tags, t.node)
    ensures var (sh', p') := ExecuteStep(sh, t, p);
      OtherLaws(k, sh, me, DrainTask(lane, t, p), sh',
                if p'.Some? then DrainTask(lane, t, p'.value) else DrainPop(lane, true)) &&
      TagsEvolve(sh.tags, sh'.tags)
  {
    ExecuteLaws(0, k, sh, t, p);
  }

  lemma DrainTookLaws(x: nat, k: nat, sh: Shared, me: nat, lane: nat, t: Task)
    requires TagMapOk(sh.tags)
    ensures Laws(x, k, sh, me, DrainTook(lane, t), sh.(queues := Count(sh.queues, -1)), DrainTask(lane, t, CheckRun))
  {
  }

  lemma DrainLaws(x: nat, k: nat, sh: Shared, me: nat, pc: Pc, choice: Choice, allExited: bool, sh': Shared, pc': Pc)
    requires LocalStep(sh, me, pc, choice, allExited) == Some((sh', pc')) && MayStep(sh, pc)
    requires pc.DrainPop? || pc.DrainTook? || pc.DrainTask?
    ensures Laws(x, k, sh, me, pc, sh', pc')
  {
    match pc {
      case DrainPop(lane, drainedAny) =>
        DrainPopQueue(x, k, sh, me, lane, drainedAny);
        DrainPopOther(k, sh, me, lane, drainedAny);
      case DrainTook(lane, t) => DrainTookLaws(x, k, sh, me, lane, t);
      case DrainTask(lane, t, p) =>
        DrainTaskQueue(x, k, sh, me, lane, t, p);
        DrainTaskOther(k, sh, me, lane, t, p);
    }
  }

  /** All laws, for every step. */
  lemma StepLaws(x: nat, k: nat, sh: Shared, me: nat, pc: Pc, choice: Choice, allExited: bool, sh': Shared, pc': Pc)
    requires LocalStep(sh, me, pc, choice, allExited) == Some((sh', pc')) && MayStep(sh, pc)
    ensures Laws(x, k, sh, me, pc, sh', pc')
  {
    if pc.Take? || pc.Took? || pc.Execute? || pc.Idle? || pc.Exited? {
      WorkerLaws(x, k, sh, me, pc, choice, allExited, sh', pc');
    } else if pc.DrainPop? || pc.DrainTook? || pc.DrainTask? {
      DrainLaws(x, k, sh, me, pc, choice, allExited, sh', pc');
    } else if pc.Stop? || pc.AbandonPop? || pc.AbandonTask? || pc.Stopped? {
      StopperLaws(x, k, sh, me, pc, choice, allExited, sh', pc');
    } else if pc.Mark? || pc.Retire? || pc.Await? || pc.RetireDone? {
      RetirerLaws(x, k, sh, me, pc, choice, allExited, sh', pc');
    } else {
      EnqueuerLaws(x, k, sh, me, pc, choice, allExited, sh', pc');
    }
  }
}
