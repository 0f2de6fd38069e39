/** What every reachable state of the pool satisfies, and the proof that every step keeps it. */
module PoolInvariants {
  import opened Basics
  import opened Pool
  import opened PoolSums
  import opened PoolLaws

  // ---- The invariant ----

  predicate IsWorker(pc: Pc) {
    pc.Take? || pc.Took? || pc.Execute? || pc.Idle? || pc.Exited?
  }

  predicate IsEnqueuer(pc: Pc) {
    pc.Ticket? || pc.Register? || pc.Submit? || pc.Gate? || pc.Notify? || pc.EnqueueDone?
  }

  /** A stopper that has set `terminate`, and one that has also notified all workers. */
  predicate HasStopped(pc: Pc) {
    (pc.Stop? && !pc.stop.SetTerminate?) || HasNotified(pc)
  }

  predicate HasNotified(pc: Pc) {
    (pc.Stop? && pc.stop.Join?) || pc.AbandonPop? || pc.AbandonTask? || pc.DrainPop? || pc.DrainTook? ||
    pc.DrainTask? || pc.Stopped?
  }

  /** The worker owns idleMutex: it evaluates the wait predicate, or has found it false. */
  predicate InCriticalSection(pc: Pc) {
    pc.Idle? && (pc.idle.EvalTerminate? || pc.idle.EvalCount? || pc.idle.Blocking?)
  }

  /** The worker has read `terminate` as false and may be about to block. */
  predicate MissedStop(pc: Pc) {
    pc.Idle? && (pc.idle.EvalCount? || pc.idle.Blocking?)
  }

  ghost predicate RolesOk(s: State) {
    && 0 < |s.sh.queues.lanes| <= |s.threads|
    && forall i :: 0 <= i < |s.threads| ==> (IsWorker(s.threads[i]) <==> i < |s.sh.queues.lanes|)
  }

  ghost predicate CountersOk(s: State) {
    s.sh.queues.queuedCount == Total(Queued, s) && s.sh.idle.count == Sum(InIdle, s.threads)
  }

  ghost predicate NodesOk(s: State) {
    && TagMapOk(s.sh.tags)
    && (forall k: nat :: Outstanding(s.sh.tags, k) == Total(OfNode(k), s))
    && (forall k: nat :: Marked(s.sh.tags, k) == Sum(RetirerOf(k), s.threads))
  }

  ghost predicate TasksOk(s: State) {
    forall x: nat :: Total(OfTask(x), s) + FateCount(s.sh.queues.fates, x) ==
      One(x < |s.threads| && IsEnqueuer(s.threads[x]))
  }

  ghost predicate MutexOk(s: State) {
    && (forall i :: 0 <= i < |s.threads| ==> (InCriticalSection(s.threads[i]) <==> s.sh.idle.mutex == Some(i)))
    && (s.sh.idle.mutex.Some? ==> s.sh.idle.mutex.value < |s.threads|)
  }

  ghost predicate WaitersOk(s: State) {
    forall w :: w in s.sh.idle.waiters ==> w < |s.threads| && s.threads[w] == Idle(Blocked)
  }

  /** Worker w is blocked and not notified, or has found the wait predicate false and is about to block. */
  ghost predicate Parked(s: State, w: nat) {
    w < |s.threads| && (s.threads[w] == Idle(Blocking) || w in s.sh.idle.waiters)
  }

  ghost predicate SomeParked(s: State) {
    exists w :: Parked(s, w)
  }

  /** If some worker is parked, the queued tasks are no more than those who will see to them. */
  ghost predicate WakeupsOk(s: State) {
    !s.sh.terminate && SomeParked(s) ==>
      LanesSum(Queued, s.sh.queues.lanes) + |s.sh.idle.waiters| <= Sum(Ready, s.threads)
  }

  /** A worker is blocked and not notified, or has read `terminate` as false and may be about to block. */
  ghost predicate SomeAsleep(s: State) {
    SomeParked(s) || exists w :: 0 <= w < |s.threads| && MissedStop(s.threads[w])
  }

  ghost predicate StopOk(s: State) {
    forall i :: 0 <= i < |s.threads| ==>
      (HasStopped(s.threads[i]) ==> s.sh.terminate) && (HasNotified(s.threads[i]) ==> !SomeAsleep(s))
  }

  /** A retirer that is blocked and not notified has something to wait for. */
  ghost predicate RetirersOk(s: State) {
    forall w :: w in s.sh.tags.waiters ==>
      w < |s.threads| && s.threads[w].Await? && s.threads[w].parked &&
      s.threads[w].node in s.sh.tags.nodes && s.sh.tags.nodes[s.threads[w].node].outstanding != 0
  }

  ghost predicate Inv(s: State) {
    RolesOk(s) && CountersOk(s) && NodesOk(s) && TasksOk(s) && MutexOk(s) && WaitersOk(s) && WakeupsOk(s) &&
    StopOk(s) && RetirersOk(s)
  }

  // ---- Consequences of the invariant, used by the steps ----

  lemma ThreadMayStep(s: State, me: nat)
    requires NodesOk(s) && me < |s.threads|
    ensures MayStep(s.sh, s.threads[me])
  {
    var pc := s.threads[me];
    if Held(pc).Some? && Held(pc).value.node.Some? {
      var k := Held(pc).value.node.value;
      SumUpdate(OfNode(k), s.threads, me, Exited);
      assert Outstanding(s.sh.tags, k) == Total(OfNode(k), s);
    }
    if RetiringNode(pc).Some? {
      var k := RetiringNode(pc).value;
      SumUpdate(RetirerOf(k), s.threads, me, Exited);
      assert Marked(s.sh.tags, k) == Sum(RetirerOf(k), s.threads);
    }
  }

  /** A step of one thread, as the invariant proofs see it. */
  ghost predicate Moves(s: State, me: nat, s': State) {
    && me < |s.threads| && |s'.threads| == |s.threads|
    && s'.threads == s.threads[me := s'.threads[me]]
    && exists choice :: LocalStep(s.sh, me, s.threads[me], choice, AllExited(s)) == Some((s'.sh, s'.threads[me]))
  }

  lemma TotalsMove(m: Measure, s: State, me: nat, s': State)
    requires Moves(s, me, s')
    ensures Sum(m, s'.threads) - Sum(m, s.threads) == Weight(m, me, s'.threads[me]) - Weight(m, me, s.threads[me])
    ensures Total(m, s') - Total(m, s) ==
      LocalTotal(m, s'.sh.queues, me, s'.threads[me]) - LocalTotal(m, s.sh.queues, me, s.threads[me])
  {
    SumUpdate(m, s.threads, me, s'.threads[me]);
  }

  lemma LawsOf(x: nat, k: nat, s: State, me: nat, s': State)
    requires Moves(s, me, s') && NodesOk(s)
    ensures Laws(x, k, s.sh, me, s.threads[me], s'.sh, s'.threads[me])
  {
    ThreadMayStep(s, me);
    var choice :| LocalStep(s.sh, me, s.threads[me], choice, AllExited(s)) == Some((s'.sh, s'.threads[me]));
    StepLaws(x, k, s.sh, me, s.threads[me], choice, AllExited(s), s'.sh, s'.threads[me]);
  }

  // ---- Every step keeps the counters ----

  lemma CountersKept(s: State, me: nat, s': State)
    requires Moves(s, me, s') && NodesOk(s) && CountersOk(s)
    ensures CountersOk(s')
  {
    LawsOf(0, 0, s, me, s');
    TotalsMove(Queued, s, me, s');
    TotalsMove(InIdle, s, me, s');
  }

  lemma NodesKept(s: State, me: nat, s': State)
    requires Moves(s, me, s') && NodesOk(s)
    ensures NodesOk(s') && TagsEvolve(s.sh.tags, s'.sh.tags)
  {
    LawsOf(0, 0, s, me, s');
    forall k: nat ensures Outstanding(s'.sh.tags, k) == Total(OfNode(k), s') {
      LawsOf(0, k, s, me, s');
      TotalsMove(OfNode(k), s, me, s');
      assert Outstanding(s.sh.tags, k) == Total(OfNode(k), s);
    }
    forall k: nat ensures Marked(s'.sh.tags, k) == Sum(RetirerOf(k), s'.threads) {
      LawsOf(0, k, s, me, s');
      TotalsMove(RetirerOf(k), s, me, s');
      assert Marked(s.sh.tags, k) == Sum(RetirerOf(k), s.threads);
    }
  }

  lemma WorkerStays(sh: Shared, me: nat, pc: Pc, choice: Choice, allExited: bool, sh': Shared, pc': Pc)
    requires LocalStep(sh, me, pc, choice, allExited) == Some((sh', pc')) && IsWorker(pc)
    ensures IsWorker(pc')
  {
  }

  lemma EnqueuerStays(sh: Shared, me: nat, pc: Pc, choice: Choice, allExited: bool, sh': Shared, pc': Pc)
    requires LocalStep(sh, me, pc, choice, allExited) == Some((sh', pc')) && IsEnqueuer(pc)
    ensures IsEnqueuer(pc')
  {
  }

  lemma OtherStays(sh: Shared, me: nat, pc: Pc, choice: Choice, allExited: bool, sh': Shared, pc': Pc)
    requires LocalStep(sh, me, pc, choice, allExited) == Some((sh', pc')) && !IsWorker(pc) && !IsEnqueuer(pc)
    ensures !IsWorker(pc') && !IsEnqueuer(pc')
  {
  }

  /** A thread stays in the function that it entered. */
  lemma RolesLocal(sh: Shared, me: nat, pc: Pc, choice: Choice, allExited: bool, sh': Shared, pc': Pc)
    requires LocalStep(sh, me, pc, choice, allExited) == Some((sh', pc'))
    ensures IsWorker(pc') == IsWorker(pc) && IsEnqueuer(pc') == IsEnqueuer(pc)
  {
    if IsWorker(pc) {
      WorkerStays(sh, me, pc, choice, allExited, sh', pc');
    } else if IsEnqueuer(pc) {
      EnqueuerStays(sh, me, pc, choice, allExited, sh', pc');
    } else {
      OtherStays(sh, me, pc, choice, allExited, sh', pc');
    }
  }

  lemma RolesOf(s: State, me: nat, s': State)
    requires Moves(s, me, s')
    ensures IsWorker(s'.threads[me]) == IsWorker(s.threads[me])
    ensures IsEnqueuer(s'.threads[me]) == IsEnqueuer(s.threads[me])
  {
    var choice :| LocalStep(s.sh, me, s.threads[me], choice, AllExited(s)) == Some((s'.sh, s'.threads[me]));
    RolesLocal(s.sh, me, s.threads[me], choice, AllExited(s), s'.sh, s'.threads[me]);
  }

  lemma RolesKept(s: State, me: nat, s': State)
    requires Moves(s, me, s') && NodesOk(s) && RolesOk(s)
    ensures RolesOk(s')
  {
    RolesOf(s, me, s');
    LawsOf(0, 0, s, me, s');
  }

  lemma TasksKept(s: State, me: nat, s': State)
    requires Moves(s, me, s') && NodesOk(s) && TasksOk(s)
    ensures TasksOk(s')
  {
    RolesOf(s, me, s');
    forall x: nat ensures Total(OfTask(x), s') + FateCount(s'.sh.queues.fates, x) ==
      One(x < |s'.threads| && IsEnqueuer(s'.threads[x]))
    {
      LawsOf(x, 0, s, me, s');
      TotalsMove(OfTask(x), s, me, s');
      assert Total(OfTask(x), s) + FateCount(s.sh.queues.fates, x) ==
        One(x < |s.threads| && IsEnqueuer(s.threads[x]));
    }
  }

  // ---- Every step keeps the idle wait in order ----

  /** What a step does to idleMutex and to the blocked workers. */
  ghost predicate IdleEffect(sh: Shared, me: nat, pc: Pc, sh': Shared, pc': Pc) {
    var w, w' := sh.idle, sh'.idle;
    && (if InCriticalSection(pc) then w'.mutex == (if InCriticalSection(pc') then w.mutex else None)
        else if InCriticalSection(pc') then w.mutex.None? && w'.mutex == Some(me)
        else w'.mutex == w.mutex)
    && (w'.waiters <= w.waiters || (pc == Idle(Blocking) && w'.waiters == w.waiters + {me}))
    && (pc' == Idle(Blocked) && pc != Idle(Blocking) ==> pc == pc')
    && (pc == Idle(Blocked) && pc' != pc ==> me !in w'.waiters)
    && (pc == Idle(Blocking) ==> pc' == Idle(Blocked))
    && (pc' == Idle(Blocking) ==> pc.Idle? && pc.idle.EvalCount? && sh' == sh && sh.queues.queuedCount <= 0)
    && (MissedStop(pc') ==> MissedStop(pc) || !sh.terminate)
    && (sh.terminate ==> sh'.terminate)
  }

  lemma IdleEffectIdle(sh: Shared, me: nat, p: IdlePc, choice: Choice, sh': Shared, pc': Pc)
    requires IdleStep(sh, me, p, choice) == Some((sh', pc'))
    ensures IdleEffect(sh, me, Idle(p), sh', pc')
  {
  }

  /** What a thread outside of the idle region does to it. */
  ghost predicate OutsideEffect(sh: Shared, sh': Shared, pc': Pc) {
    && sh'.idle.mutex == sh.idle.mutex && sh'.idle.waiters <= sh.idle.waiters
    && (pc'.Idle? ==> pc'.idle.Locking?) && (sh.terminate ==> sh'.terminate)
  }

  lemma IdleEffectWorker(sh: Shared, me: nat, pc: Pc, choice: Choice, allExited: bool, sh': Shared, pc': Pc)
    requires LocalStep(sh, me, pc, choice, allExited) == Some((sh', pc')) && IsWorker(pc) && !pc.Idle?
    ensures OutsideEffect(sh, sh', pc')
  {
  }

  lemma IdleEffectEnqueuer(sh: Shared, me: nat, pc: Pc, choice: Choice, allExited: bool, sh': Shared, pc': Pc)
    requires LocalStep(sh, me, pc, choice, allExited) == Some((sh', pc')) && IsEnqueuer(pc)
    ensures OutsideEffect(sh, sh', pc')
  {
  }

  lemma IdleEffectCaller(sh: Shared, me: nat, pc: Pc, choice: Choice, allExited: bool, sh': Shared, pc': Pc)
    requires LocalStep(sh, me, pc, choice, allExited) == Some((sh', pc')) && !IsWorker(pc) && !IsEnqueuer(pc)
    ensures OutsideEffect(sh, sh', pc')
  {
  }

  lemma IdleEffectOther(sh: Shared, me: nat, pc: Pc, choice: Choice, allExited: bool, sh': Shared, pc': Pc)
    requires LocalStep(sh, me, pc, choice, allExited) == Some((sh', pc')) && !pc.Idle?
    ensures OutsideEffect(sh, sh', pc')
  {
    if IsWorker(pc) {
      IdleEffectWorker(sh, me, pc, choice, allExited, sh', pc');
    } else if IsEnqueuer(pc) {
      IdleEffectEnqueuer(sh, me, pc, choice, allExited, sh', pc');
    } else {
      IdleEffectCaller(sh, me, pc, choice, allExited, sh', pc');
    }
  }

  lemma IdleEffectLocal(sh: Shared, me: nat, pc: Pc, choice: Choice, allExited: bool, sh': Shared, pc': Pc)
    requires LocalStep(sh, me, pc, choice, allExited) == Some((sh', pc'))
    ensures IdleEffect(sh, me, pc, sh', pc')
  {
    if pc.Idle? {
      IdleEffectIdle(sh, me, pc.idle, choice, sh', pc');
    } else {
      IdleEffectOther(sh, me, pc, choice, allExited, sh', pc');
    }
  }

  lemma IdleEffectOf(s: State, me: nat, s': State)
    requires Moves(s, me, s')
    ensures IdleEffect(s.sh, me, s.threads[me], s'.sh, s'.threads[me])
  {
    var choice :| LocalStep(s.sh, me, s.threads[me], choice, AllExited(s)) == Some((s'.sh, s'.threads[me]));
    IdleEffectLocal(s.sh, me, s.threads[me], choice, AllExited(s), s'.sh, s'.threads[me]);
  }

  lemma MutexKept(s: State, me: nat, s': State)
    requires Moves(s, me, s') && MutexOk(s)
    ensures MutexOk(s')
  {
    IdleEffectOf(s, me, s');
  }

  lemma WaitersKept(s: State, me: nat, s': State)
    requires Moves(s, me, s') && WaitersOk(s)
    ensures WaitersOk(s')
  {
    IdleEffectOf(s, me, s');
  }

  /** Blocked workers are counted by a sum. */
  lemma WaitersAreBlocked(s: State)
    requires WaitersOk(s)
    ensures |s.sh.idle.waiters| <= Sum(BlockedWorker, s.threads) <= Sum(Ready, s.threads)
  {
    var b := set i | 0 <= i < |s.threads| && Weight(BlockedWorker, i, s.threads[i]) == 1;
    SumCountsSet(BlockedWorker, s.threads, b);
    assert s.sh.idle.waiters <= b;
    SubsetSize(s.sh.idle.waiters, b);
    SumMonotone(BlockedWorker, Ready, s.threads);
  }

  /** The queued tasks and the blocked workers never gain on those who are ready, unless a producer gives up
      its turn at the gate or at an empty condition variable, or a worker sees the predicate false or exits. */
  ghost predicate ReadyLaw(sh: Shared, me: nat, pc: Pc, sh': Shared, pc': Pc) {
    LanesSum(Queued, sh'.queues.lanes) + |sh'.idle.waiters| + Weight(Ready, me, pc) <=
    LanesSum(Queued, sh.queues.lanes) + |sh.idle.waiters| + Weight(Ready, me, pc')
  }

  predicate GivesUp(sh: Shared, pc: Pc, pc': Pc) {
    || (pc.Gate? && pc'.EnqueueDone? && sh.idle.count <= 0)
    || (pc.Notify? && pc'.EnqueueDone? && sh.idle.waiters == {} && sh.idle.mutex.None?)
    || pc' == Idle(Blocking)
    || pc'.Exited?
  }

  lemma ReadyBlock(sh: Shared, me: nat, sh': Shared, pc': Pc)
    requires IdleStep(sh, me, Blocking, Normal) == Some((sh', pc'))
    ensures ReadyLaw(sh, me, Idle(Blocking), sh', pc')
  {
    assert |sh.idle.waiters + {me}| <= |sh.idle.waiters| + 1;
  }

  lemma ReadyWake(sh: Shared, me: nat, choice: Choice, sh': Shared, pc': Pc)
    requires IdleStep(sh, me, Blocked, choice) == Some((sh', pc'))
    ensures ReadyLaw(sh, me, Idle(Blocked), sh', pc')
  {
    SubsetSize(sh'.idle.waiters, sh.idle.waiters);
  }

  lemma ReadyIdle(sh: Shared, me: nat, p: IdlePc, choice: Choice, sh': Shared, pc': Pc)
    requires IdleStep(sh, me, p, choice) == Some((sh', pc'))
    ensures GivesUp(sh, Idle(p), pc') || ReadyLaw(sh, me, Idle(p), sh', pc')
  {
    if p.Blocking? {
      ReadyBlock(sh, me, sh', pc');
    } else if p.Blocked? {
      ReadyWake(sh, me, choice, sh', pc');
    } else {
      assert sh'.queues == sh.queues && sh'.idle.waiters == sh.idle.waiters;
    }
  }

  lemma ReadyTake(sh: Shared, me: nat, p: TakePc, sh': Shared, pc': Pc)
    requires me < |sh.queues.lanes| && TakeStep(sh, me, p) == Some((sh', pc'))
    ensures GivesUp(sh, Take(p), pc') || ReadyLaw(sh, me, Take(p), sh', pc')
  {
    if pc'.Took? {
      PopMoves(Queued, sh.queues, if p.TryOwn? then me else Victim(me, p.offset, |sh.queues.lanes|));
    }
  }

  lemma ReadyNotify(sh: Shared, me: nat, choice: Choice, sh': Shared, pc': Pc)
    requires NotifyStep(sh, choice) == Some((sh', pc'))
    ensures GivesUp(sh, Notify, pc') || ReadyLaw(sh, me, Notify, sh', pc')
  {
    if sh.idle.waiters != {} {
      assert |sh'.idle.waiters| == |sh.idle.waiters| - 1;
    }
  }

  lemma ReadySubmit(sh: Shared, me: nat, lane: nat, t: Task, p: SubmitPc, choice: Choice)
    ensures var (sh', pc') := SubmitStep(sh, lane, t, p, choice); ReadyLaw(sh, me, Submit(lane, t, p), sh', pc')
  {
    if p.Push? && lane < |sh.queues.lanes| {
      PushMoves(Queued, sh.queues, lane, t);
    }
  }

  lemma ReadyEnqueuer(sh: Shared, me: nat, pc: Pc, choice: Choice, allExited: bool, sh': Shared, pc': Pc)
    requires LocalStep(sh, me, pc, choice, allExited) == Some((sh', pc')) && IsEnqueuer(pc)
    ensures GivesUp(sh, pc, pc') || ReadyLaw(sh, me, pc, sh', pc')
  {
    if pc.Submit? {
      ReadySubmit(sh, me, pc.lane, pc.task, pc.submit, choice);
    } else if pc.Notify? {
      ReadyNotify(sh, me, choice, sh', pc');
    }
  }

  /** A thread that is not one of the ready, and touches neither the lanes nor the blocked workers. */
  lemma ReadyUntouched(sh: Shared, me: nat, pc: Pc, sh': Shared, pc': Pc)
    requires sh'.queues.lanes == sh.queues.lanes && sh'.idle == sh.idle && !IsReady(pc) && pc != Idle(Blocked)
    ensures ReadyLaw(sh, me, pc, sh', pc')
  {
  }

  lemma ReadyRemoval(sh: Shared, me: nat, k: nat, removed: nat, p: RetirePc, sh': Shared, pc': Pc)
    requires RetireStep(sh, k, removed, p) == Some((sh', pc'))
    ensures ReadyLaw(sh, me, Pc.Retire(k, removed, p), sh', pc')
  {
    if p.Sweep? && p.lane < |sh.queues.lanes| {
      SweepMoves(Queued, sh.queues, p.lane, k);
    } else {
      ReadyUntouched(sh, me, Pc.Retire(k, removed, p), sh', pc');
    }
  }

  lemma ReadyRetirer(sh: Shared, me: nat, pc: Pc, choice: Choice, allExited: bool, sh': Shared, pc': Pc)
    requires LocalStep(sh, me, pc, choice, allExited) == Some((sh', pc'))
    requires pc.Mark? || pc.Retire? || pc.Await?
    ensures ReadyLaw(sh, me, pc, sh', pc')
  {
    if pc.Retire? {
      ReadyRemoval(sh, me, pc.node, pc.removed, pc.retire, sh', pc');
    } else {
      ReadyUntouched(sh, me, pc, sh', pc');
    }
  }

  lemma ReadyRunner(sh: Shared, me: nat, pc: Pc, choice: Choice, allExited: bool, sh': Shared, pc': Pc)
    requires LocalStep(sh, me, pc, choice, allExited) == Some((sh', pc')) && (pc.Took? || pc.Execute?)
    ensures ReadyLaw(sh, me, pc, sh', pc')
  {
  }

  lemma ReadyStop(sh: Shared, me: nat, pc: Pc, choice: Choice, allExited: bool, sh': Shared, pc': Pc)
    requires LocalStep(sh, me, pc, choice, allExited) == Some((sh', pc')) && pc.Stop?
    ensures ReadyLaw(sh, me, pc, sh', pc')
  {
    assert sh'.queues == sh.queues;
  }

  lemma ReadyPopped(sh: Shared, me: nat, pc: Pc, lane: nat, pc': Pc)
    requires lane < |sh.queues.lanes| && sh.queues.lanes[lane] != [] && !IsReady(pc) && pc != Idle(Blocked)
    ensures ReadyLaw(sh, me, pc, sh.(queues := PopLane(sh.queues, lane)), pc')
  {
    PopMoves(Queued, sh.queues, lane);
  }

  lemma ReadyDrain(sh: Shared, me: nat, pc: Pc, choice: Choice, allExited: bool, sh': Shared, pc': Pc)
    requires LocalStep(sh, me, pc, choice, allExited) == Some((sh', pc')) && HasNotified(pc) && !pc.Stop?
    ensures ReadyLaw(sh, me, pc, sh', pc')
  {
    if (pc.AbandonPop? || pc.DrainPop?) && pc.lane < |sh.queues.lanes| && sh.queues.lanes[pc.lane] != [] {
      ReadyPopped(sh, me, pc, pc.lane, pc');
    } else {
      ReadyUntouched(sh, me, pc, sh', pc');
    }
  }

  lemma ReadyLocal(sh: Shared, me: nat, pc: Pc, choice: Choice, allExited: bool, sh': Shared, pc': Pc)
    requires LocalStep(sh, me, pc, choice, allExited) == Some((sh', pc'))
    ensures GivesUp(sh, pc, pc') || ReadyLaw(sh, me, pc, sh', pc')
    ensures pc'.Exited? ==> sh.terminate
  {
    if pc.Idle? {
      ReadyIdle(sh, me, pc.idle, choice, sh', pc');
    } else if pc.Take? {
      ReadyTake(sh, me, pc.take, sh', pc');
    } else if IsEnqueuer(pc) {
      ReadyEnqueuer(sh, me, pc, choice, allExited, sh', pc');
    } else if pc.Mark? || pc.Retire? || pc.Await? {
      ReadyRetirer(sh, me, pc, choice, allExited, sh', pc');
    } else if pc.Took? || pc.Execute? {
      ReadyRunner(sh, me, pc, choice, allExited, sh', pc');
    } else if pc.Stop? {
      ReadyStop(sh, me, pc, choice, allExited, sh', pc');
    } else if HasNotified(pc) {
      ReadyDrain(sh, me, pc, choice, allExited, sh', pc');
    }
  }

  /** No worker is parked when no worker is in the idle region, or when nobody owns the mutex and nobody waits. */
  lemma NobodyParked(s: State)
    requires CountersOk(s) && MutexOk(s) && WaitersOk(s)
    requires s.sh.idle.count <= 0 || (s.sh.idle.mutex.None? && s.sh.idle.waiters == {})
    ensures !SomeParked(s)
  {
    forall w: nat ensures !Parked(s, w) {
      if Parked(s, w) {
        SumUpdate(InIdle, s.threads, w, Exited);
      }
    }
  }

  /** A step parks a worker only when it has seen that there is nothing to do. */
  lemma ParkedBefore(s: State, me: nat, s': State)
    requires Moves(s, me, s') && MutexOk(s) && WaitersOk(s) && SomeParked(s') && s'.threads[me] != Idle(Blocking)
    ensures SomeParked(s)
  {
    IdleEffectOf(s, me, s');
    var w :| Parked(s', w);
    if w == me {
      assert Parked(s, me);
    } else {
      assert Parked(s, w);
    }
  }

  lemma WakeupsKept(s: State, me: nat, s': State)
    requires Moves(s, me, s') && Inv(s)
    ensures WakeupsOk(s')
  {
    WaitersKept(s, me, s');
    CountersKept(s, me, s');
    IdleEffectOf(s, me, s');
    if !s'.sh.terminate && SomeParked(s') {
      if s'.threads[me] == Idle(Blocking) {
        assert Total(Queued, s') == s'.sh.queues.queuedCount;
        WaitersAreBlocked(s');
      } else {
        ParkedBefore(s, me, s');
        var choice :| LocalStep(s.sh, me, s.threads[me], choice, AllExited(s)) == Some((s'.sh, s'.threads[me]));
        ReadyLocal(s.sh, me, s.threads[me], choice, AllExited(s), s'.sh, s'.threads[me]);
        if GivesUp(s.sh, s.threads[me], s'.threads[me]) {
          NobodyParked(s);
        }
        TotalsMove(Ready, s, me, s');
      }
    }
  }

  // ---- Every step keeps the stop request and the retirers in order ----

  lemma StoppedLocal(sh: Shared, me: nat, pc: Pc, choice: Choice, allExited: bool, sh': Shared, pc': Pc)
    requires LocalStep(sh, me, pc, choice, allExited) == Some((sh', pc')) && HasStopped(pc')
    ensures HasStopped(pc) || sh'.terminate
  {
  }

  lemma NotifiedLocal(sh: Shared, me: nat, pc: Pc, choice: Choice, allExited: bool, sh': Shared, pc': Pc)
    requires LocalStep(sh, me, pc, choice, allExited) == Some((sh', pc')) && HasNotified(pc') && !HasNotified(pc)
    ensures sh'.idle.waiters == {} && sh'.idle.mutex.None? && HasStopped(pc)
  {
  }

  lemma StopLocal(sh: Shared, me: nat, pc: Pc, choice: Choice, allExited: bool, sh': Shared, pc': Pc)
    requires LocalStep(sh, me, pc, choice, allExited) == Some((sh', pc'))
    ensures HasStopped(pc') ==> HasStopped(pc) || sh'.terminate
    ensures HasNotified(pc') && !HasNotified(pc) ==> sh'.idle.waiters == {} && sh'.idle.mutex.None? && HasStopped(pc)
  {
    if HasStopped(pc') {
      StoppedLocal(sh, me, pc, choice, allExited, sh', pc');
    }
    if HasNotified(pc') && !HasNotified(pc) {
      NotifiedLocal(sh, me, pc, choice, allExited, sh', pc');
    }
  }

  /** After the stop request, no step puts a worker to sleep that was not on its way there. */
  lemma AsleepBefore(s: State, me: nat, s': State)
    requires Moves(s, me, s') && MutexOk(s) && WaitersOk(s) && SomeAsleep(s') && s.sh.terminate
    ensures SomeAsleep(s)
  {
    IdleEffectOf(s, me, s');
    if w :| 0 <= w < |s'.threads| && MissedStop(s'.threads[w]) {
      assert MissedStop(s.threads[w]);
    } else {
      ParkedBefore(s, me, s');
    }
  }

  lemma StopKept(s: State, me: nat, s': State)
    requires Moves(s, me, s') && StopOk(s) && MutexOk(s) && WaitersOk(s)
    ensures StopOk(s')
  {
    IdleEffectOf(s, me, s');
    MutexKept(s, me, s');
    var choice :| LocalStep(s.sh, me, s.threads[me], choice, AllExited(s)) == Some((s'.sh, s'.threads[me]));
    StopLocal(s.sh, me, s.threads[me], choice, AllExited(s), s'.sh, s'.threads[me]);
    forall i | 0 <= i < |s'.threads| && HasNotified(s'.threads[i]) ensures !SomeAsleep(s') {
      if HasNotified(s.threads[i]) {
        if SomeAsleep(s') {
          AsleepBefore(s, me, s');
        }
      } else {
        assert forall w: nat :: w < |s'.threads| ==> !MissedStop(s'.threads[w]);
      }
    }
  }

  ghost predicate NoNegativeCount(tags: Tags) {
    forall k :: k in tags.nodes ==> tags.nodes[k].outstanding >= 0
  }

  /** What a step does to the retirers that are blocked: one that still waits, for a node that the moving
      thread does not retire, still has something to wait for. */
  ghost predicate RetirerEffect(sh: Shared, me: nat, pc: Pc, sh': Shared, pc': Pc) {
    var t, t' := sh.tags, sh'.tags;
    && t'.waiters <= t.waiters + {me}
    && (me in t'.waiters && pc' != pc ==>
          pc'.Await? && pc'.parked && pc'.node in t'.nodes && t'.nodes[pc'.node].outstanding != 0)
    && (forall k :: k in t.nodes && t.nodes[k].outstanding != 0 && RetiringNode(pc) != Some(k) && t'.waiters != {} ==>
          k in t'.nodes && t'.nodes[k].outstanding != 0)
  }

  lemma RemovalEffect(sh: Shared, me: nat, k: nat, removed: nat, p: RetirePc, sh': Shared, pc': Pc)
    requires RetireStep(sh, k, removed, p) == Some((sh', pc')) && me !in sh.tags.waiters
    ensures RetirerEffect(sh, me, Pc.Retire(k, removed, p), sh', pc')
  {
  }

  lemma AwaitEffect(sh: Shared, me: nat, k: nat, parked: bool, choice: Choice, sh': Shared, pc': Pc)
    requires AwaitStep(sh, me, k, parked, choice) == Some((sh', pc')) && (me in sh.tags.waiters ==> parked)
    ensures RetirerEffect(sh, me, Await(k, parked), sh', pc')
  {
  }

  lemma MarkEffect(sh: Shared, me: nat, tag: nat, sh': Shared, pc': Pc)
    requires MarkStep(sh, tag) == Some((sh', pc')) && me !in sh.tags.waiters
    ensures RetirerEffect(sh, me, Mark(tag), sh', pc')
  {
  }

  lemma RetirerEffectRetirer(sh: Shared, me: nat, pc: Pc, choice: Choice, allExited: bool, sh': Shared, pc': Pc)
    requires LocalStep(sh, me, pc, choice, allExited) == Some((sh', pc'))
    requires pc.Mark? || pc.Retire? || pc.Await?
    requires me in sh.tags.waiters ==> pc.Await? && pc.parked
    ensures RetirerEffect(sh, me, pc, sh', pc')
  {
    match pc {
      case Mark(tag) => MarkEffect(sh, me, tag, sh', pc');
      case Retire(k, removed, p) => RemovalEffect(sh, me, k, removed, p, sh', pc');
      case Await(k, parked) => AwaitEffect(sh, me, k, parked, choice, sh', pc');
    }
  }

  /** A change to the tag map that leaves a blocked retirer something to wait for. */
  ghost predicate KeepsWaiting(t: Tags, t': Tags) {
    && t'.waiters <= t.waiters
    && (forall k :: k in t.nodes && t.nodes[k].outstanding != 0 && t'.waiters != {} ==>
          k in t'.nodes && t'.nodes[k].outstanding != 0)
  }

  lemma CompleteKeepsWaiting(t: Tags, node: Option<nat>)
    ensures KeepsWaiting(t, CompleteTagged(t, node))
  {
  }

  lemma RegisterKeepsWaiting(t: Tags, tag: nat)
    requires NoNegativeCount(t) && TagMapOk(t)
    ensures KeepsWaiting(t, RegisterTask(t, tag).0)
  {
  }

  lemma RetirerEffectOther(sh: Shared, me: nat, pc: Pc, choice: Choice, allExited: bool, sh': Shared, pc': Pc)
    requires LocalStep(sh, me, pc, choice, allExited) == Some((sh', pc'))
    requires !pc.Mark? && !pc.Retire? && !pc.Await? && NoNegativeCount(sh.tags) && TagMapOk(sh.tags)
    ensures KeepsWaiting(sh.tags, sh'.tags)
  {
    if Held(pc).Some? {
      CompleteKeepsWaiting(sh.tags, Held(pc).value.node);
      OtherTags(sh, me, pc, choice, allExited, sh', pc');
    } else if pc.Register? {
      RegisterKeepsWaiting(sh.tags, pc.tag);
    } else {
      OtherTags(sh, me, pc, choice, allExited, sh', pc');
    }
  }

  /** The tags are as they were, or told of the completion of the task that the thread holds. */
  ghost predicate TagsTold(t: Tags, pc: Pc, t': Tags) {
    t' == t || (Held(pc).Some? && t' == CompleteTagged(t, Held(pc).value.node))
  }

  lemma WorkerTags(sh: Shared, me: nat, pc: Pc, choice: Choice, allExited: bool, sh': Shared, pc': Pc)
    requires LocalStep(sh, me, pc, choice, allExited) == Some((sh', pc')) && IsWorker(pc)
    ensures TagsTold(sh.tags, pc, sh'.tags)
  {
  }

  lemma EnqueuerTags(sh: Shared, me: nat, pc: Pc, choice: Choice, allExited: bool, sh': Shared, pc': Pc)
    requires LocalStep(sh, me, pc, choice, allExited) == Some((sh', pc')) && IsEnqueuer(pc) && !pc.Register?
    ensures TagsTold(sh.tags, pc, sh'.tags)
  {
  }

  lemma StopperTags(sh: Shared, me: nat, pc: Pc, choice: Choice, allExited: bool, sh': Shared, pc': Pc)
    requires LocalStep(sh, me, pc, choice, allExited) == Some((sh', pc')) && (pc.Stop? || HasNotified(pc))
    ensures TagsTold(sh.tags, pc, sh'.tags)
  {
  }

  lemma OtherTags(sh: Shared, me: nat, pc: Pc, choice: Choice, allExited: bool, sh': Shared, pc': Pc)
    requires LocalStep(sh, me, pc, choice, allExited) == Some((sh', pc'))
    requires !pc.Mark? && !pc.Retire? && !pc.Await? && !pc.Register?
    ensures TagsTold(sh.tags, pc, sh'.tags)
  {
    if IsWorker(pc) {
      WorkerTags(sh, me, pc, choice, allExited, sh', pc');
    } else if IsEnqueuer(pc) {
      EnqueuerTags(sh, me, pc, choice, allExited, sh', pc');
    } else if pc.Stop? || HasNotified(pc) {
      StopperTags(sh, me, pc, choice, allExited, sh', pc');
    }
  }

  lemma CountsNotNegative(s: State)
    requires NodesOk(s)
    ensures NoNegativeCount(s.sh.tags)
  {
    forall k | k in s.sh.tags.nodes ensures s.sh.tags.nodes[k].outstanding >= 0 {
      assert Outstanding(s.sh.tags, k) == Total(OfNode(k), s);
    }
  }

  lemma OneRetirer(s: State, w: nat, me: nat, k: nat)
    requires NodesOk(s) && w < |s.threads| && me < |s.threads| && w != me && RetiringNode(s.threads[w]) == Some(k)
    ensures RetiringNode(s.threads[me]) != Some(k)
  {
    SumOfTwo(RetirerOf(k), s.threads, w, me);
    assert Marked(s.sh.tags, k) == Sum(RetirerOf(k), s.threads);
  }

  lemma RetirersEffect(s: State, me: nat, s': State)
    requires Moves(s, me, s') && NodesOk(s) && RetirersOk(s)
    ensures RetirerEffect(s.sh, me, s.threads[me], s'.sh, s'.threads[me])
  {
    var pc, pc' := s.threads[me], s'.threads[me];
    var choice :| LocalStep(s.sh, me, pc, choice, AllExited(s)) == Some((s'.sh, pc'));
    if pc.Mark? || pc.Retire? || pc.Await? {
      RetirerEffectRetirer(s.sh, me, pc, choice, AllExited(s), s'.sh, pc');
    } else {
      CountsNotNegative(s);
      RetirerEffectOther(s.sh, me, pc, choice, AllExited(s), s'.sh, pc');
      assert me !in s.sh.tags.waiters;
    }
  }

  lemma RetirersKept(s: State, me: nat, s': State)
    requires Moves(s, me, s') && NodesOk(s) && RetirersOk(s)
    ensures RetirersOk(s')
  {
    RetirersEffect(s, me, s');
    forall w | w in s'.sh.tags.waiters && w in s.sh.tags.waiters && w != me
      ensures s.threads[w].node in s'.sh.tags.nodes && s'.sh.tags.nodes[s.threads[w].node].outstanding != 0
    {
      OneRetirer(s, w, me, s.threads[w].node);
    }
  }

  // ---- The invariant holds in every reachable state ----

  lemma InvKept(s: State, me: nat, s': State)
    requires Moves(s, me, s') && Inv(s)
    ensures Inv(s')
  {
    RolesKept(s, me, s');
    CountersKept(s, me, s');
    NodesKept(s, me, s');
    TasksKept(s, me, s');
    MutexKept(s, me, s');
    WaitersKept(s, me, s');
    WakeupsKept(s, me, s');
    StopKept(s, me, s');
    RetirersKept(s, me, s');
  }

  lemma CallKeeps(s: State, entry: Pc, s': State)
    requires Inv(s) && IsEntry(entry) && s' == s.(threads := s.threads + [entry])
    ensures Inv(s')
  {
    CallKeepsSums(s, entry, s');
    CallKeepsNodes(s, entry, s');
    CallKeepsTasks(s, entry, s');
    CallKeepsThreads(s, entry, s');
    CallKeepsStop(s, entry, s');
  }

  lemma CallKeepsSums(s: State, entry: Pc, s': State)
    requires Inv(s) && IsEntry(entry) && s' == s.(threads := s.threads + [entry])
    ensures CountersOk(s') && WakeupsOk(s')
  {
    SumAppend(Queued, s.threads, entry);
    SumAppend(InIdle, s.threads, entry);
    SumAppend(Ready, s.threads, entry);
    CallParks(s, entry, s');
  }

  lemma CallParks(s: State, entry: Pc, s': State)
    requires WaitersOk(s) && IsEntry(entry) && s' == s.(threads := s.threads + [entry])
    ensures SomeParked(s') == SomeParked(s) && SomeAsleep(s') == SomeAsleep(s)
  {
    assert forall w: nat :: Parked(s', w) == Parked(s, w);
    if w :| 0 <= w < |s.threads| && MissedStop(s.threads[w]) {
      assert MissedStop(s'.threads[w]);
    }
  }

  lemma CallKeepsStop(s: State, entry: Pc, s': State)
    requires StopOk(s) && WaitersOk(s) && IsEntry(entry) && s' == s.(threads := s.threads + [entry])
    ensures StopOk(s')
  {
    CallParks(s, entry, s');
  }

  lemma CallKeepsThreads(s: State, entry: Pc, s': State)
    requires Inv(s) && IsEntry(entry) && s' == s.(threads := s.threads + [entry])
    ensures RolesOk(s') && MutexOk(s') && WaitersOk(s') && RetirersOk(s')
  {
  }

  lemma CallKeepsNode(s: State, entry: Pc, k: nat)
    requires NodesOk(s) && IsEntry(entry)
    ensures var s' := s.(threads := s.threads + [entry]);
      Outstanding(s'.sh.tags, k) == Total(OfNode(k), s') && Marked(s'.sh.tags, k) == Sum(RetirerOf(k), s'.threads)
  {
    SumAppend(OfNode(k), s.threads, entry);
    SumAppend(RetirerOf(k), s.threads, entry);
    assert Outstanding(s.sh.tags, k) == Total(OfNode(k), s);
    assert Marked(s.sh.tags, k) == Sum(RetirerOf(k), s.threads);
  }

  lemma CallKeepsNodes(s: State, entry: Pc, s': State)
    requires Inv(s) && IsEntry(entry) && s' == s.(threads := s.threads + [entry])
    ensures NodesOk(s')
  {
    forall k: nat ensures Outstanding(s'.sh.tags, k) == Total(OfNode(k), s')
      ensures Marked(s'.sh.tags, k) == Sum(RetirerOf(k), s'.threads)
    {
      CallKeepsNode(s, entry, k);
    }
  }

  lemma CallKeepsTasks(s: State, entry: Pc, s': State)
    requires Inv(s) && IsEntry(entry) && s' == s.(threads := s.threads + [entry])
    ensures TasksOk(s')
  {
    forall x: nat ensures Total(OfTask(x), s') + FateCount(s'.sh.queues.fates, x) ==
      One(x < |s'.threads| && IsEnqueuer(s'.threads[x]))
    {
      SumAppend(OfTask(x), s.threads, entry);
      assert Total(OfTask(x), s) + FateCount(s.sh.queues.fates, x) ==
        One(x < |s.threads| && IsEnqueuer(s.threads[x]));
    }
  }

  lemma StepKeeps(s: State, s': State)
    requires Inv(s) && IsStep(s, s')
    ensures Inv(s')
  {
    var e :| Next(s, e) == Some(s');
    match e {
      case Call(entry) => CallKeeps(s, entry, s');
      case Step(me, choice) => InvKept(s, me, s');
    }
  }

  lemma InitialSum(m: Measure, workers: nat)
    requires !m.BlockedWorker? && !m.Ready?
    ensures LanesSum(m, Initial(workers).sh.queues.lanes) == 0 && Sum(m, Initial(workers).threads) == 0
  {
    SumZero(m, Initial(workers).threads);
    InitialLanes(m, Initial(workers).sh.queues.lanes);
  }

  lemma InitialNodes(workers: nat)
    ensures CountersOk(Initial(workers)) && NodesOk(Initial(workers))
  {
    var s := Initial(workers);
    InitialSum(Queued, workers);
    InitialSum(InIdle, workers);
    forall k: nat ensures Total(OfNode(k), s) == 0 && Sum(RetirerOf(k), s.threads) == 0 {
      InitialSum(OfNode(k), workers);
      InitialSum(RetirerOf(k), workers);
    }
  }

  lemma InitialTasks(workers: nat)
    ensures TasksOk(Initial(workers))
  {
    var s := Initial(workers);
    forall x: nat ensures Total(OfTask(x), s) == 0 {
      InitialSum(OfTask(x), workers);
    }
  }

  lemma InitialThreads(workers: nat)
    requires workers > 0
    ensures RolesOk(Initial(workers)) && MutexOk(Initial(workers)) && WaitersOk(Initial(workers))
    ensures !SomeAsleep(Initial(workers)) && StopOk(Initial(workers)) && RetirersOk(Initial(workers))
  {
  }

  lemma InitialInv(workers: nat)
    requires workers > 0
    ensures Inv(Initial(workers))
  {
    InitialNodes(workers);
    InitialTasks(workers);
    InitialThreads(workers);
  }

  /** Safety over whole runs: every state of every run satisfies the invariant. */
  lemma {:induction false} RunInv(workers: nat, run: seq<State>, i: nat)
    requires IsRun(workers, run) && i < |run|
    ensures Inv(run[i])
  {
    if i == 0 {
      InitialInv(workers);
    } else {
      RunInv(workers, run, i - 1);
      assert StepAt(run, i);
      StepKeeps(run[i - 1], run[i]);
    }
  }
}
