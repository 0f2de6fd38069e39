/** Stealing overlooks nothing: what a failed tryGetTask tells about the lanes, whatever ran in between. */
module PoolSweep {
  import opened Basics
  import opened Pool
  import opened PoolSums
  import opened PoolLaws
  import opened PoolInvariants
  import opened PoolTheorems

  /** The sweep visits every other lane, and none twice. */
  lemma SweepVisitsEachOnce(me: nat, n: nat, v: nat)
    requires me < n && v < n && v != me
    ensures exists q :: 1 <= q < n && Victim(me, q, n) == v
    ensures forall q, q' :: 1 <= q < n && 1 <= q' < n && Victim(me, q, n) == Victim(me, q', n) ==> q == q'
    ensures forall q :: 1 <= q < n ==> Victim(me, q, n) != me
  {
    forall q | 1 <= q < n ensures Victim(me, q, n) == if me + q < n then me + q else me + q - n {
      Wrap(me + q, n);
    }
    assert Victim(me, if v > me then v - me else v - me + n, n) == v;
  }

  lemma Wrap(a: nat, n: nat)
    requires 0 < n && a < 2 * n
    ensures a % n == if a < n then a else a - n
  {
  }

  // ---- Tasks do not change lanes ----

  ghost predicate OnLane(s: State, t: Task, l: nat) {
    l < |s.sh.queues.lanes| && t in s.sh.queues.lanes[l]
  }

  ghost predicate InSomeLane(s: State, t: Task) {
    exists l :: OnLane(s, t, l)
  }

  lemma OneLane(s: State, t: Task, l: nat, l': nat)
    requires Inv(s) && OnLane(s, t, l) && OnLane(s, t, l')
    ensures l == l'
  {
    var m, lanes := OfTask(t.id), s.sh.queues.lanes;
    assert Total(m, s) + FateCount(s.sh.queues.fates, t.id) == One(t.id < |s.threads| && IsEnqueuer(s.threads[t.id]));
    if l != l' {
      var p :| 0 <= p < |lanes[l]| && lanes[l][p] == t;
      var p' :| 0 <= p' < |lanes[l']| && lanes[l'][p'] == t;
      LanesSumUpdate(m, lanes, l, []);
      LaneTaskWeighs(m, lanes[l], p);
      TaskWeighs(m, lanes[l := []], l', p');
    }
  }

  lemma {:induction false} WithoutIsPart(lane: seq<Task>, k: nat, t: Task)
    ensures t in Without(lane, k) ==> t in lane
  {
    if lane != [] {
      WithoutIsPart(lane[1..], k, t);
    }
  }

  lemma PopGains(q: Queues, lane: nat, t: Task, l: nat)
    requires lane < |q.lanes| && q.lanes[lane] != [] && l < |q.lanes| && t in PopLane(q, lane).lanes[l]
    ensures t in q.lanes[l]
  {
  }

  lemma WorkerGains(sh: Shared, me: nat, pc: Pc, choice: Choice, allExited: bool, sh': Shared, pc': Pc, t: Task, l: nat)
    requires LocalStep(sh, me, pc, choice, allExited) == Some((sh', pc')) && IsWorker(pc)
    requires l < |sh.queues.lanes| == |sh'.queues.lanes| && t in sh'.queues.lanes[l]
    ensures t in sh.queues.lanes[l]
  {
    if pc'.Took? {
      PopGains(sh.queues, if pc.take.TryOwn? then me else Victim(me, pc.take.offset, |sh.queues.lanes|), t, l);
    } else {
      assert sh'.queues.lanes == sh.queues.lanes;
    }
  }

  lemma EnqueuerGains(
    sh: Shared, me: nat, pc: Pc, choice: Choice, allExited: bool, sh': Shared, pc': Pc, t: Task, l: nat)
    requires LocalStep(sh, me, pc, choice, allExited) == Some((sh', pc')) && IsEnqueuer(pc)
    requires l < |sh.queues.lanes| == |sh'.queues.lanes| && t in sh'.queues.lanes[l]
    ensures t in sh.queues.lanes[l] || (pc.Submit? && pc.task == t)
  {
    if !pc.Submit? || !pc.submit.Push? {
      assert sh'.queues.lanes == sh.queues.lanes;
    }
  }

  lemma StopperGains(
    sh: Shared, me: nat, pc: Pc, choice: Choice, allExited: bool, sh': Shared, pc': Pc, t: Task, l: nat)
    requires LocalStep(sh, me, pc, choice, allExited) == Some((sh', pc')) && (pc.Stop? || HasNotified(pc))
    requires l < |sh.queues.lanes| == |sh'.queues.lanes| && t in sh'.queues.lanes[l]
    ensures t in sh.queues.lanes[l]
  {
    if (pc.AbandonPop? || pc.DrainPop?) && pc.lane < |sh.queues.lanes| && sh.queues.lanes[pc.lane] != [] {
      PopGains(sh.queues, pc.lane, t, l);
    } else {
      assert sh'.queues.lanes == sh.queues.lanes;
    }
  }

  lemma RetirerGains(
    sh: Shared, me: nat, pc: Pc, choice: Choice, allExited: bool, sh': Shared, pc': Pc, t: Task, l: nat)
    requires LocalStep(sh, me, pc, choice, allExited) == Some((sh', pc')) && (pc.Mark? || pc.Retire? || pc.Await?)
    requires l < |sh.queues.lanes| == |sh'.queues.lanes| && t in sh'.queues.lanes[l]
    ensures t in sh.queues.lanes[l]
  {
    if pc.Retire? && pc.retire.Sweep? {
      WithoutIsPart(sh.queues.lanes[l], pc.node, t);
    } else {
      assert sh'.queues.lanes == sh.queues.lanes;
    }
  }

  /** A lane gains only what a producer pushes. */
  lemma LaneGains(sh: Shared, me: nat, pc: Pc, choice: Choice, allExited: bool, sh': Shared, pc': Pc, t: Task, l: nat)
    requires LocalStep(sh, me, pc, choice, allExited) == Some((sh', pc'))
    requires l < |sh.queues.lanes| == |sh'.queues.lanes| && t in sh'.queues.lanes[l]
    ensures t in sh.queues.lanes[l] || (pc.Submit? && pc.task == t)
  {
    if IsWorker(pc) {
      WorkerGains(sh, me, pc, choice, allExited, sh', pc', t, l);
    } else if IsEnqueuer(pc) {
      EnqueuerGains(sh, me, pc, choice, allExited, sh', pc', t, l);
    } else if pc.Stop? || HasNotified(pc) {
      StopperGains(sh, me, pc, choice, allExited, sh', pc', t, l);
    } else if !pc.RetireDone? {
      RetirerGains(sh, me, pc, choice, allExited, sh', pc', t, l);
    }
  }

  lemma StaysOnLane(s: State, s': State, t: Task, l: nat, l': nat)
    requires Inv(s) && IsStep(s, s') && OnLane(s, t, l) && OnLane(s', t, l')
    ensures l == l'
  {
    var e :| Next(s, e) == Some(s');
    match e {
      case Call(entry) => OneLane(s, t, l, l');
      case Step(me, choice) =>
        LawsOf(0, 0, s, me, s');
        LaneGains(s.sh, me, s.threads[me], choice, AllExited(s), s'.sh, s'.threads[me], t, l');
        if OnLane(s, t, l') {
          OneLane(s, t, l, l');
        } else {
          PushedIsNowhere(s, t, l, me);
        }
    }
  }

  lemma PushedIsNowhere(s: State, t: Task, l: nat, me: nat)
    requires Inv(s) && OnLane(s, t, l) && me < |s.threads| && s.threads[me].Submit?
    ensures s.threads[me].task != t
  {
    var m := OfTask(t.id);
    assert Total(m, s) + FateCount(s.sh.queues.fates, t.id) == One(t.id < |s.threads| && IsEnqueuer(s.threads[t.id]));
    var p :| 0 <= p < |s.sh.queues.lanes[l]| && s.sh.queues.lanes[l][p] == t;
    TaskWeighs(m, s.sh.queues.lanes, l, p);
    SumUpdate(m, s.threads, me, Exited);
  }

  /** A task that is in the lanes throughout a stretch of a run is on one lane throughout. */
  lemma {:induction false} SameLane(workers: nat, run: seq<State>, i: nat, j: nat, t: Task) returns (l: nat)
    requires IsRun(workers, run) && i <= j < |run|
    requires forall m :: i <= m <= j ==> InSomeLane(run[m], t)
    ensures forall m :: i <= m <= j ==> OnLane(run[m], t, l)
  {
    if i == j {
      l :| OnLane(run[i], t, l);
    } else {
      l := SameLane(workers, run, i, j - 1, t);
      var l' :| OnLane(run[j], t, l');
      RunStays(workers, run, j, t, l, l');
    }
  }

  lemma RunStays(workers: nat, run: seq<State>, j: nat, t: Task, l: nat, l': nat)
    requires IsRun(workers, run) && 0 < j < |run| && OnLane(run[j - 1], t, l) && OnLane(run[j], t, l')
    ensures l == l'
  {
    RunInv(workers, run, j - 1);
    assert StepAt(run, j);
    StaysOnLane(run[j - 1], run[j], t, l, l');
  }

  // ---- What the sweep has seen ----

  /** Lane v was empty at some moment from i to m. */
  ghost predicate SeenEmpty(run: seq<State>, i: nat, m: nat, v: nat)
    requires i <= m < |run|
  {
    exists h :: i <= h <= m && EmptyAt(run, h, v)
  }

  ghost predicate EmptyAt(run: seq<State>, h: nat, v: nat)
    requires h < |run|
  {
    v < |run[h].sh.queues.lanes| && run[h].sh.queues.lanes[v] == []
  }

  /** Worker w is inside one call of tryGetTask. */
  predicate InTryGetTask(pc: Pc) {
    pc.Take? && (pc.take.TryOwn? || pc.take.CheckCount? || pc.take.Steal?)
  }

  /** What worker w knows at moment m of the call that began at moment i. */
  ghost predicate SweepKnows(workers: nat, run: seq<State>, i: nat, m: nat, w: nat)
    requires i <= m < |run| && w < |run[m].threads|
  {
    var pc := run[m].threads[w];
    && (pc == Take(CheckCount) ==> SeenEmpty(run, i, m, w))
    && (pc.Take? && pc.take.Steal? ==>
          SeenEmpty(run, i, m, w) &&
          forall q {:trigger Victim(w, q, workers)} :: 1 <= q < pc.take.offset && q < workers ==>
            SeenEmpty(run, i, m, Victim(w, q, workers)))
    && (pc == Take(FoundNothing) ==> forall v :: 0 <= v < workers ==> SeenEmpty(run, i, m, v))
  }

  lemma SeenEarlier(run: seq<State>, i: nat, m: nat, v: nat)
    requires i < m < |run| && SeenEmpty(run, i, m - 1, v)
    ensures SeenEmpty(run, i, m, v)
  {
  }

  lemma LanesStay(s: State, s': State)
    requires Inv(s) && IsStep(s, s')
    ensures |s'.sh.queues.lanes| == |s.sh.queues.lanes| && |s.threads| <= |s'.threads|
  {
    var e :| Next(s, e) == Some(s');
    match e {
      case Call(entry) =>
      case Step(me, choice) => LawsOf(0, 0, s, me, s');
    }
  }

  lemma LanesStayInRun(workers: nat, run: seq<State>, m: nat)
    requires IsRun(workers, run) && 0 < m < |run|
    ensures |run[m].sh.queues.lanes| == |run[m - 1].sh.queues.lanes| && |run[m - 1].threads| <= |run[m].threads|
  {
    RunInv(workers, run, m - 1);
    assert StepAt(run, m);
    LanesStay(run[m - 1], run[m]);
  }

  lemma {:induction false} LaneCount(workers: nat, run: seq<State>, m: nat)
    requires IsRun(workers, run) && m < |run|
    ensures |run[m].sh.queues.lanes| == workers && workers <= |run[m].threads|
  {
    if m > 0 {
      LaneCount(workers, run, m - 1);
      LanesStayInRun(workers, run, m);
    }
  }

  lemma NothingQueued(s: State, v: nat)
    requires CountersOk(s) && s.sh.queues.queuedCount == 0 && v < |s.sh.queues.lanes|
    ensures s.sh.queues.lanes[v] == []
  {
    LanesSumUpdate(Queued, s.sh.queues.lanes, v, []);
    LaneLength(s.sh.queues.lanes[v]);
  }

  /** How worker w can get from one point of the call to the next. */
  lemma TakeMoves(s: State, s': State, w: nat)
    requires IsStep(s, s') && w < |s.sh.queues.lanes| && w < |s.threads| && w < |s'.threads|
    requires InTryGetTask(s.threads[w])
    ensures s'.threads[w] == s.threads[w] || TakeStep(s.sh, w, s.threads[w].take) == Some((s'.sh, s'.threads[w]))
  {
    var e :| Next(s, e) == Some(s');
  }

  lemma SweepLearns(workers: nat, run: seq<State>, i: nat, m: nat, w: nat)
    requires IsRun(workers, run) && i < m < |run| && w < workers <= |run[m - 1].threads| && workers <= |run[m].threads|
    requires |run[m - 1].sh.queues.lanes| == workers
    requires InTryGetTask(run[m - 1].threads[w]) && SweepKnows(workers, run, i, m - 1, w)
    ensures SweepKnows(workers, run, i, m, w)
  {
    var s, s' := run[m - 1], run[m];
    assert StepAt(run, m);
    TakeMoves(s, s', w);
    forall v | 0 <= v < workers && SeenEmpty(run, i, m - 1, v) ensures SeenEmpty(run, i, m, v) {
      SeenEarlier(run, i, m, v);
    }
    if s'.threads[w] != s.threads[w] {
      SweepLearnsStep(workers, run, i, m, w);
    }
  }

  lemma SweepLearnsStep(workers: nat, run: seq<State>, i: nat, m: nat, w: nat)
    requires IsRun(workers, run) && i < m < |run| && w < workers <= |run[m - 1].threads| && workers <= |run[m].threads|
    requires |run[m - 1].sh.queues.lanes| == workers
    requires InTryGetTask(run[m - 1].threads[w]) && SweepKnows(workers, run, i, m - 1, w)
    requires TakeStep(run[m - 1].sh, w, run[m - 1].threads[w].take) == Some((run[m].sh, run[m].threads[w]))
    requires forall v :: 0 <= v < workers && SeenEmpty(run, i, m - 1, v) ==> SeenEmpty(run, i, m, v)
    ensures SweepKnows(workers, run, i, m, w)
  {
    var s, s' := run[m - 1], run[m];
    match s.threads[w].take {
      case TryOwn =>
        if s'.threads[w] == Take(CheckCount) {
          assert EmptyAt(run, m - 1, w);
        }
      case CheckCount =>
        if s'.threads[w] == Take(FoundNothing) {
          RunInv(workers, run, m - 1);
          forall v | 0 <= v < workers ensures SeenEmpty(run, i, m, v) {
            NothingQueued(s, v);
            assert EmptyAt(run, m - 1, v);
          }
        }
      case Steal(offset) =>
        if offset >= workers {
          forall v | 0 <= v < workers ensures SeenEmpty(run, i, m, v) {
            if v != w {
              SweepVisitsEachOnce(w, workers, v);
              var q :| 1 <= q < workers && Victim(w, q, workers) == v;
              assert SeenEmpty(run, i, m - 1, Victim(w, q, workers));
            }
          }
        } else if s'.threads[w] == Take(Steal(offset + 1)) {
          assert EmptyAt(run, m - 1, Victim(w, offset, workers));
        }
    }
  }

  lemma {:induction false} SweepHistory(workers: nat, run: seq<State>, i: nat, m: nat, w: nat)
    requires IsRun(workers, run) && i <= m < |run| && w < workers
    requires forall h :: i <= h < |run| ==> workers <= |run[h].threads| && |run[h].sh.queues.lanes| == workers
    requires run[i].threads[w] == Take(TryOwn) && forall h :: i <= h < m ==> InTryGetTask(run[h].threads[w])
    ensures SweepKnows(workers, run, i, m, w)
  {
    if i < m {
      SweepHistory(workers, run, i, m - 1, w);
      SweepLearns(workers, run, i, m, w);
    }
  }

  /** When tryGetTask returns false, no task sat in the lanes throughout the call. */
  lemma FailedSweepOverlooksNothing(workers: nat, run: seq<State>, i: nat, j: nat, w: nat, t: Task)
    requires IsRun(workers, run) && i <= j < |run| && w < workers
    requires forall h :: i <= h <= j ==> w < |run[h].threads|
    requires run[i].threads[w] == Take(TryOwn) && run[j].threads[w] == Take(FoundNothing)
    requires forall h :: i <= h < j ==> InTryGetTask(run[h].threads[w])
    ensures exists m :: i <= m <= j && !InSomeLane(run[m], t)
  {
    if forall m :: i <= m <= j ==> InSomeLane(run[m], t) {
      var l := SameLane(workers, run, i, j, t);
      forall h | i <= h < |run| ensures workers <= |run[h].threads| && |run[h].sh.queues.lanes| == workers {
        LaneCount(workers, run, h);
      }
      SweepHistory(workers, run, i, j, w);
      LaneOf(run[i], t, l);
      WasMissing(run, i, j, l, t);
    }
  }

  lemma LaneOf(s: State, t: Task, l: nat)
    requires OnLane(s, t, l)
    ensures l < |s.sh.queues.lanes|
  {
  }

  lemma WasMissing(run: seq<State>, i: nat, j: nat, l: nat, t: Task)
    requires i <= j < |run| && SeenEmpty(run, i, j, l)
    ensures exists m :: i <= m <= j && !OnLane(run[m], t, l)
  {
    var h :| i <= h <= j && EmptyAt(run, h, l);
    assert !OnLane(run[h], t, l);
  }
}
