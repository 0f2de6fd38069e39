/** Where the machine of module Pool hands over to the drain of module PoolDrain: after the join. */
module PoolShutdown {
  import opened Basics
  import opened Pool
  import opened PoolSums
  import opened PoolLaws
  import opened PoolInvariants
  import Drain = PoolDrain

  /** The same tasks, with what they do: lane by lane in the same order, with the same nodes. */
  predicate Represents(lanes: seq<seq<Drain.Item>>, queued: seq<seq<Task>>) {
    && |lanes| == |queued|
    && forall l :: 0 <= l < |lanes| ==> RepresentsLane(lanes[l], queued[l])
  }

  predicate RepresentsLane(lane: seq<Drain.Item>, queued: seq<Task>) {
    |lane| == |queued| && forall p :: 0 <= p < |lane| ==> lane[p].node == queued[p].node
  }

  /** The thread holds no task and is not in the middle of a retirement. */
  predicate IsOutside(pc: Pc) {
    Held(pc).None? && RetiringNode(pc).None?
  }

  lemma {:induction false} SameInLane(lane: seq<Drain.Item>, queued: seq<Task>, k: nat)
    requires RepresentsLane(lane, queued)
    ensures Drain.InLane(Drain.Items, lane) == LaneSum(Queued, queued)
    ensures Drain.InLane(Drain.OfTagNode(k), lane) == LaneSum(OfNode(k), queued)
  {
    if lane != [] {
      SameInLane(lane[1..], queued[1..], k);
    }
  }

  lemma {:induction false} SameInLanes(lanes: seq<seq<Drain.Item>>, queued: seq<seq<Task>>, k: nat)
    requires Represents(lanes, queued)
    ensures Drain.InLanes(Drain.Items, lanes) == LanesSum(Queued, queued)
    ensures Drain.InLanes(Drain.OfTagNode(k), lanes) == LanesSum(OfNode(k), queued)
  {
    if lanes != [] {
      SameInLane(lanes[0], queued[0], k);
      SameInLanes(lanes[1..], queued[1..], k);
    }
  }

  lemma AllOutside(s: State)
    requires RolesOk(s) && AllExited(s)
    requires forall t :: |s.sh.queues.lanes| <= t < |s.threads| ==> IsOutside(s.threads[t])
    ensures forall t :: 0 <= t < |s.threads| ==> IsOutside(s.threads[t])
  {
    forall t | 0 <= t < |s.threads| ensures IsOutside(s.threads[t]) {
      assert t < |s.sh.queues.lanes| ==> s.threads[t] == Exited;
    }
  }

  lemma OutsideCounts(s: State, k: nat)
    requires CountersOk(s) && NodesOk(s) && forall t :: 0 <= t < |s.threads| ==> IsOutside(s.threads[t])
    ensures s.sh.queues.queuedCount == LanesSum(Queued, s.sh.queues.lanes)
    ensures Outstanding(s.sh.tags, k) == LanesSum(OfNode(k), s.sh.queues.lanes) && Marked(s.sh.tags, k) == 0
  {
    SumZero(Queued, s.threads);
    SumZero(OfNode(k), s.threads);
    SumZero(RetirerOf(k), s.threads);
    assert Outstanding(s.sh.tags, k) == Total(OfNode(k), s);
    assert Marked(s.sh.tags, k) == Sum(RetirerOf(k), s.threads);
  }

  lemma OutsideIsBalanced(s: State, lanes: seq<seq<Drain.Item>>)
    requires RolesOk(s) && CountersOk(s) && NodesOk(s) && Represents(lanes, s.sh.queues.lanes)
    requires forall t :: 0 <= t < |s.threads| ==> IsOutside(s.threads[t])
    ensures Drain.Balanced(lanes, s.sh.queues.queuedCount, s.sh.tags, None) && Drain.NoneRetired(s.sh.tags)
  {
    OutsideCounts(s, 0);
    SameInLanes(lanes, s.sh.queues.lanes, 0);
    forall k: nat ensures Outstanding(s.sh.tags, k) == Drain.InLanes(Drain.OfTagNode(k), lanes) {
      OutsideCounts(s, k);
      SameInLanes(lanes, s.sh.queues.lanes, k);
    }
    forall k: nat | k in s.sh.tags.nodes ensures !s.sh.tags.nodes[k].retired {
      OutsideCounts(s, k);
    }
  }

  /** When the workers have exited and no caller is inside, in whatever way the run went, the drain finds counters that
      agree with its lanes, and no tag that is being retired: it may start, and will run everything. */
  lemma DrainMayStart(workers: nat, run: seq<State>, i: nat, lanes: seq<seq<Drain.Item>>)
    requires IsRun(workers, run) && i < |run| && AllExited(run[i])
    requires forall t :: |run[i].sh.queues.lanes| <= t < |run[i].threads| ==> IsOutside(run[i].threads[t])
    requires Represents(lanes, run[i].sh.queues.lanes)
    ensures Drain.Balanced(lanes, run[i].sh.queues.queuedCount, run[i].sh.tags, None)
    ensures Drain.NoneRetired(run[i].sh.tags)
  {
    RunInv(workers, run, i);
    AllOutside(run[i]);
    OutsideIsBalanced(run[i], lanes);
  }
}
