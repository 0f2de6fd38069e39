/** What the counters of the pool ought to count: weights of tasks and program counters, and their sums. */
module PoolSums {
  import opened Basics
  import opened Pool

  datatype Measure =
    | Queued            // pushed or about to be, and not yet subtracted from queuedCount
    | InIdle            // inside the idle region
    | OfNode(node: nat) // registered with a tag node
    | OfTask(id: nat)   // a place where one task is
    | RetirerOf(node: nat)
    | BlockedWorker
    | Ready             // workers that are not executing, and producers between push and notification

  function TaskWeight(m: Measure, t: Task): nat {
    match m
    case Queued => 1
    case OfNode(k) => One(t.node == Some(k))
    case OfTask(x) => One(t.id == x)
    case _ => 0
  }

  /** The task that a thread holds, from the moment it is taken until its fate is recorded. */
  function Held(pc: Pc): Option<Task> {
    match pc
    case Took(t) => Some(t)
    case Execute(t, _) => Some(t)
    case Submit(_, t, _) => Some(t)
    case AbandonTask(_, t, _) => Some(t)
    case DrainTook(_, t) => Some(t)
    case DrainTask(_, t, _) => Some(t)
    case _ => None
  }

  /** The node that a retirer is working on. */
  function RetiringNode(pc: Pc): Option<nat> {
    match pc
    case Retire(k, _, _) => Some(k)
    case Await(k, _) => Some(k)
    case _ => None
  }

  /** What queuedCount counts of a thread's work in progress. */
  function UncountedOf(pc: Pc): nat {
    match pc
    case Took(_) => 1
    case Submit(_, _, p) => One(p.Push? || p.Uncount?)
    case Retire(_, removed, p) => if p.SubtractOutstanding? then 0 else removed
    case AbandonTask(_, _, counted) => One(!counted)
    case DrainTook(_, _) => 1
    case _ => 0
  }

  /** How many tasks of node k a thread stands for: the one it holds, or those it has removed. */
  function StandsFor(k: nat, pc: Pc): nat {
    match pc
    case Took(t) => One(t.node == Some(k))
    case Execute(t, _) => One(t.node == Some(k))
    case Submit(_, t, _) => One(t.node == Some(k))
    case Retire(j, removed, _) => if j == k then removed else 0
    case AbandonTask(_, t, _) => One(t.node == Some(k))
    case DrainTook(_, t) => One(t.node == Some(k))
    case DrainTask(_, t, _) => One(t.node == Some(k))
    case _ => 0
  }

  /** Whether a thread is the place where task x is: it holds it, or is about to make it. */
  function PlaceOf(x: nat, me: nat, pc: Pc): nat {
    match pc
    case Took(t) => One(t.id == x)
    case Execute(t, _) => One(t.id == x)
    case Ticket(_) => One(me == x)
    case Register(_, _) => One(me == x)
    case Submit(_, t, _) => One(t.id == x)
    case AbandonTask(_, t, _) => One(t.id == x)
    case DrainTook(_, t) => One(t.id == x)
    case DrainTask(_, t, _) => One(t.id == x)
    case _ => 0
  }

  /** An awake worker that is not executing a task and has not seen the wait predicate false; or a producer
      that has pushed and has not passed the idle gate, or has yet to notify. */
  predicate IsReady(pc: Pc) {
    match pc
    case Take(_) => true
    case Idle(p) => !p.Blocking? && !p.Blocked?
    case Gate => true
    case Notify => true
    case _ => false
  }

  function Weight(m: Measure, me: nat, pc: Pc): nat {
    match m
    case Queued => UncountedOf(pc)
    case InIdle => One(pc.Idle?)
    case OfNode(k) => StandsFor(k, pc)
    case OfTask(x) => PlaceOf(x, me, pc)
    case RetirerOf(k) => One(RetiringNode(pc) == Some(k))
    case BlockedWorker => One(pc == Idle(Blocked))
    case Ready => One(IsReady(pc) || pc == Idle(Blocked))
  }

  function Sum(m: Measure, threads: seq<Pc>): nat {
    if threads == [] then 0
    else var n := |threads| - 1; Sum(m, threads[..n]) + Weight(m, n, threads[n])
  }

  function LaneSum(m: Measure, lane: seq<Task>): nat {
    if lane == [] then 0 else TaskWeight(m, lane[0]) + LaneSum(m, lane[1..])
  }

  function LanesSum(m: Measure, lanes: seq<seq<Task>>): nat {
    if lanes == [] then 0 else LaneSum(m, lanes[0]) + LanesSum(m, lanes[1..])
  }

  function FateCount(fates: seq<(nat, Fate)>, x: nat): nat {
    if fates == [] then 0 else One(fates[0].0 == x) + FateCount(fates[1..], x)
  }

  function Total(m: Measure, s: State): nat {
    LanesSum(m, s.sh.queues.lanes) + Sum(m, s.threads)
  }

  // ---- Sums under updates ----

  lemma {:induction false} SumUpdate(m: Measure, threads: seq<Pc>, i: nat, pc: Pc)
    requires i < |threads|
    ensures Sum(m, threads[i := pc]) == Sum(m, threads) - Weight(m, i, threads[i]) + Weight(m, i, pc)
    ensures Sum(m, threads) >= Weight(m, i, threads[i])
  {
    var n := |threads| - 1;
    if i == n {
      assert threads[i := pc][..n] == threads[..n];
    } else {
      SumUpdate(m, threads[..n], i, pc);
      assert threads[i := pc][..n] == threads[..n][i := pc];
    }
  }

  lemma SumAppend(m: Measure, threads: seq<Pc>, pc: Pc)
    ensures Sum(m, threads + [pc]) == Sum(m, threads) + Weight(m, |threads|, pc)
  {
    assert (threads + [pc])[..|threads|] == threads;
  }

  /** Two threads never weigh more than all. */
  lemma SumOfTwo(m: Measure, threads: seq<Pc>, i: nat, j: nat)
    requires i < |threads| && j < |threads| && i != j
    ensures Weight(m, i, threads[i]) + Weight(m, j, threads[j]) <= Sum(m, threads)
  {
    SumUpdate(m, threads, i, EnqueueDone);
    SumUpdate(m, threads[i := EnqueueDone], j, threads[j]);
    assert Weight(m, i, EnqueueDone) == 0;
  }

  lemma {:induction false} SumZero(m: Measure, threads: seq<Pc>)
    requires forall i :: 0 <= i < |threads| ==> Weight(m, i, threads[i]) == 0
    ensures Sum(m, threads) == 0
  {
    if threads != [] {
      SumZero(m, threads[..|threads| - 1]);
    }
  }

  lemma {:induction false} SumMonotone(m: Measure, m': Measure, threads: seq<Pc>)
    requires forall i :: 0 <= i < |threads| ==> Weight(m, i, threads[i]) <= Weight(m', i, threads[i])
    ensures Sum(m, threads) <= Sum(m', threads)
  {
    if threads != [] {
      SumMonotone(m, m', threads[..|threads| - 1]);
    }
  }

  /** A set of threads that each weigh one. */
  lemma {:induction false} SumCountsSet(m: Measure, threads: seq<Pc>, w: set<nat>)
    requires forall i :: i in w <==> 0 <= i < |threads| && Weight(m, i, threads[i]) == 1
    requires forall i :: 0 <= i < |threads| ==> Weight(m, i, threads[i]) <= 1
    ensures Sum(m, threads) == |w|
  {
    if threads == [] {
      assert w == {};
    } else {
      var n := |threads| - 1;
      SumCountsSet(m, threads[..n], w - {n});
    }
  }

  lemma {:induction false} LanesSumUpdate(m: Measure, lanes: seq<seq<Task>>, i: nat, lane: seq<Task>)
    requires i < |lanes|
    ensures LanesSum(m, lanes[i := lane]) == LanesSum(m, lanes) - LaneSum(m, lanes[i]) + LaneSum(m, lane)
    ensures LanesSum(m, lanes) >= LaneSum(m, lanes[i])
  {
    if i == 0 {
      assert lanes[i := lane][1..] == lanes[1..];
    } else {
      LanesSumUpdate(m, lanes[1..], i - 1, lane);
      assert lanes[i := lane][1..] == lanes[1..][i - 1 := lane];
    }
  }

  lemma {:induction false} LaneSumPush(m: Measure, lane: seq<Task>, t: Task)
    ensures LaneSum(m, lane + [t]) == LaneSum(m, lane) + TaskWeight(m, t)
  {
    if lane == [] {
      assert [t][1..] == [];
    } else {
      assert (lane + [t])[1..] == lane[1..] + [t];
      LaneSumPush(m, lane[1..], t);
    }
  }

  lemma {:induction false} FateCountConcat(a: seq<(nat, Fate)>, b: seq<(nat, Fate)>, x: nat)
    ensures FateCount(a + b, x) == FateCount(a, x) + FateCount(b, x)
  {
    if a == [] {
      assert a + b == b;
    } else {
      assert (a + b)[1..] == a[1..] + b;
      FateCountConcat(a[1..], b, x);
    }
  }

  lemma FateCountRecord(fates: seq<(nat, Fate)>, id: nat, fate: Fate, x: nat)
    ensures FateCount(fates + [(id, fate)], x) == FateCount(fates, x) + One(id == x)
  {
    FateCountConcat(fates, [(id, fate)], x);
    assert [(id, fate)][1..] == [];
  }

  /** What `remove_if` takes out of a lane. */
  lemma {:induction false} WithoutSums(lane: seq<Task>, k: nat, m: Measure)
    ensures m.Queued? ==> LaneSum(m, lane) == LaneSum(m, Without(lane, k)) + |RemovedFates(lane, k)|
    ensures m == OfNode(k) ==> LaneSum(m, Without(lane, k)) == 0 && LaneSum(m, lane) == |RemovedFates(lane, k)|
    ensures m.OfNode? && m.node != k ==> LaneSum(m, lane) == LaneSum(m, Without(lane, k))
    ensures m.OfTask? ==> LaneSum(m, lane) == LaneSum(m, Without(lane, k)) + FateCount(RemovedFates(lane, k), m.id)
  {
    if lane != [] {
      WithoutSums(lane[1..], k, m);
      if lane[0].node != Some(k) {
        assert ([lane[0]] + Without(lane[1..], k))[1..] == Without(lane[1..], k);
      } else {
        var r := RemovedFates(lane[1..], k);
        assert ([(lane[0].id, Removed)] + r)[1..] == r;
      }
    }
  }

  lemma {:induction false} InitialLanes(m: Measure, lanes: seq<seq<Task>>)
    requires forall i :: 0 <= i < |lanes| ==> lanes[i] == []
    ensures LanesSum(m, lanes) == 0
  {
    if lanes != [] {
      InitialLanes(m, lanes[1..]);
    }
  }

  // ---- What one step moves ----

  /** The part of a total that a step of thread `me` can change. */
  function LocalTotal(m: Measure, q: Queues, me: nat, pc: Pc): int {
    LanesSum(m, q.lanes) + Weight(m, me, pc)
  }

  /** The tasks of node k have left one lane of q; the counters are as they were. */
  ghost predicate SweptOut(m: Measure, q: Queues, q': Queues, lane: nat, k: nat)
    requires lane < |q.lanes|
  {
    var gone, before, after := RemovedFates(q.lanes[lane], k), LanesSum(m, q.lanes), LanesSum(m, q'.lanes);
    && q'.queuedCount == q.queuedCount
    && (m.Queued? || m == OfNode(k) ==> before == after + |gone|)
    && (m.OfNode? && m.node != k ==> before == after)
    && (m.OfTask? ==> before == after + FateCount(gone, m.id))
  }

  lemma PopMoves(m: Measure, q: Queues, lane: nat)
    requires lane < |q.lanes| && q.lanes[lane] != []
    ensures LanesSum(m, PopLane(q, lane).lanes) + TaskWeight(m, q.lanes[lane][0]) == LanesSum(m, q.lanes)
  {
    LanesSumUpdate(m, q.lanes, lane, q.lanes[lane][1..]);
  }

  lemma PushMoves(m: Measure, q: Queues, lane: nat, t: Task)
    requires lane < |q.lanes|
    ensures LanesSum(m, PushLane(q, lane, t).lanes) == LanesSum(m, q.lanes) + TaskWeight(m, t)
  {
    LanesSumUpdate(m, q.lanes, lane, q.lanes[lane] + [t]);
    LaneSumPush(m, q.lanes[lane], t);
  }

  lemma SweepMoves(m: Measure, q: Queues, lane: nat, k: nat)
    requires lane < |q.lanes|
    ensures SweptOut(m, q, SweepLane(q, lane, k), lane, k)
  {
    LanesSumUpdate(m, q.lanes, lane, Without(q.lanes[lane], k));
    WithoutSums(q.lanes[lane], k, m);
  }
}
