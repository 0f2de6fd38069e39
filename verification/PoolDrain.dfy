/**
 The draining shutdown of threading/cthreadpool.cpp: what finishAllThreads(true) does after it has joined the
 workers. Nothing else runs then, so this is sequential code; but a task may enqueue further tasks, onto whatever
 lane the ticket selects. A task is a finite tree: its children are the tasks that it enqueues, in order.
 */
module PoolDrain {
  import opened Basics
  import opened Pool
  import opened PoolSums
  import opened PoolLaws

  /** What a task does before it returns or throws. */
  datatype Job = Job(tag: nat, children: seq<Job>)

  /** A task in a lane, with its pointer to a tag state. */
  datatype Item = Item(node: Option<nat>, job: Job)

  datatype Outcome = Ran(item: Item) | Skipped(item: Item) | Refused(job: Job)

  /** The item has gone to the end of the lane. */
  predicate Pushed(lanes: seq<seq<Item>>, index: nat, item: Item, lanes': seq<seq<Item>>) {
    index < |lanes| && lanes' == lanes[index := lanes[index] + [item]]
  }

  // ---- Counting ----

  datatype Count = Items | OfTagNode(node: nat) | Jobs | Copies(of: Job)

  /** How often job x occurs in the tree of a job. */
  function Times(x: Job, j: Job): nat {
    One(j == x) + TimesInAll(x, j.children)
  }

  function TimesInAll(x: Job, js: seq<Job>): nat {
    if js == [] then 0 else Times(x, js[0]) + TimesInAll(x, js[1..])
  }

  /** The size of the tree of a job. */
  function Size(j: Job): (n: nat)
    ensures n > 0
  {
    1 + SizeOfAll(j.children)
  }

  function SizeOfAll(js: seq<Job>): nat {
    if js == [] then 0 else Size(js[0]) + SizeOfAll(js[1..])
  }

  function ItemWeight(c: Count, item: Item): nat {
    match c
    case Items => 1
    case OfTagNode(k) => One(item.node == Some(k))
    case Jobs => Size(item.job)
    case Copies(x) => Times(x, item.job)
  }

  function InLane(c: Count, lane: seq<Item>): nat {
    if lane == [] then 0 else ItemWeight(c, lane[0]) + InLane(c, lane[1..])
  }

  function InLanes(c: Count, lanes: seq<seq<Item>>): nat {
    if lanes == [] then 0 else InLane(c, lanes[0]) + InLanes(c, lanes[1..])
  }

  lemma {:induction false} InLanesUpdate(c: Count, lanes: seq<seq<Item>>, i: nat, lane: seq<Item>)
    requires i < |lanes|
    ensures InLanes(c, lanes[i := lane]) == InLanes(c, lanes) - InLane(c, lanes[i]) + InLane(c, lane)
  {
    if i == 0 {
      assert lanes[i := lane][1..] == lanes[1..];
    } else {
      InLanesUpdate(c, lanes[1..], i - 1, lane);
      assert lanes[i := lane][1..] == lanes[1..][i - 1 := lane];
    }
  }

  lemma {:induction false} InLaneSnoc(c: Count, lane: seq<Item>, item: Item)
    ensures InLane(c, lane + [item]) == InLane(c, lane) + ItemWeight(c, item)
  {
    if lane == [] {
      assert [item][1..] == [];
    } else {
      assert (lane + [item])[1..] == lane[1..] + [item];
      InLaneSnoc(c, lane[1..], item);
    }
  }

  lemma {:induction false} EmptyLanes(c: Count, lanes: seq<seq<Item>>)
    requires forall i :: 0 <= i < |lanes| ==> lanes[i] == []
    ensures InLanes(c, lanes) == 0
  {
    if lanes != [] {
      EmptyLanes(c, lanes[1..]);
    }
  }

  /** What has become of job x: run, or part of the tree of a job that was skipped or refused. */
  function OutcomeWeight(x: Job, o: Outcome): nat {
    match o
    case Ran(item) => One(item.job == x)
    case Skipped(item) => Times(x, item.job)
    case Refused(job) => Times(x, job)
  }

  function InLog(x: Job, log: seq<Outcome>): nat {
    if log == [] then 0 else InLog(x, log[..|log| - 1]) + OutcomeWeight(x, log[|log| - 1])
  }

  lemma InLogSnoc(x: Job, log: seq<Outcome>, o: Outcome)
    ensures InLog(x, log + [o]) == InLog(x, log) + OutcomeWeight(x, o)
  {
    assert (log + [o])[..|log|] == log;
  }

  /** Retired nodes stay retired, and no node becomes retired. */
  ghost predicate MarksKept(tags: Tags, tags': Tags) {
    && (forall k :: k in tags.nodes ==> k in tags'.nodes && tags'.nodes[k].retired == tags.nodes[k].retired)
    && (forall k :: k in tags'.nodes && k !in tags.nodes ==> !tags'.nodes[k].retired)
    && (forall g :: g in tags.index ==> g in tags'.index && tags'.index[g] == tags.index[g])
  }

  lemma RegisterKeepsMarks(tags: Tags, tag: nat)
    requires TagMapOk(tags)
    ensures MarksKept(tags, RegisterTask(tags, tag).0)
    ensures RegisterTask(tags, tag).1.Some? ==> Live(RegisterTask(tags, tag).0, RegisterTask(tags, tag).1)
  {
  }

  lemma CompleteKeepsMarks(tags: Tags, node: Option<nat>)
    ensures MarksKept(tags, CompleteTagged(tags, node))
  {
  }

  /** The tag of a job is being retired. */
  predicate TagClosed(tags: Tags, tag: nat) {
    tag != 0 && tag in tags.index && tags.index[tag] in tags.nodes && tags.nodes[tags.index[tag]].retired
  }

  /** The node that a task with the tag points to. */
  function NodeOf(tags: Tags, tag: nat): Option<nat> {
    if tag != 0 && tag in tags.index then Some(tags.index[tag]) else None
  }

  /** Tasks were run unless their tag was being retired. */
  predicate Justified(tags: Tags, o: Outcome) {
    match o
    case Ran(item) => item.node.None? || (item.node.value in tags.nodes && !tags.nodes[item.node.value].retired)
    case Skipped(item) => item.node.Some? && item.node.value in tags.nodes && tags.nodes[item.node.value].retired
    case Refused(job) => TagClosed(tags, job.tag)
  }

  lemma StillJustified(tags: Tags, tags': Tags, log: seq<Outcome>)
    requires MarksKept(tags, tags') && forall i :: 0 <= i < |log| ==> Justified(tags, log[i])
    ensures forall i :: 0 <= i < |log| ==> Justified(tags', log[i])
  {
  }

  ghost predicate NoneRetired(tags: Tags) {
    forall k :: k in tags.nodes ==> !tags.nodes[k].retired
  }

  /** The counters agree with the lanes, and with the task that is running if one is. */
  ghost predicate Balanced(lanes: seq<seq<Item>>, queuedCount: int, tags: Tags, running: Option<nat>) {
    && |lanes| > 0 && queuedCount == InLanes(Items, lanes) && TagMapOk(tags)
    && forall k: nat :: Outstanding(tags, k) == InLanes(OfTagNode(k), lanes) + One(running == Some(k))
  }

  class ShutdownPool {
    var lanes: seq<seq<Item>>
    var queuedCount: int
    var laneSelector: nat
    var tags: Tags
    ghost var log: seq<Outcome>

    ghost predicate Consistent(running: Option<nat>)
      reads this
    {
      Balanced(lanes, queuedCount, tags, running) && forall i :: 0 <= i < |log| ==> Justified(tags, log[i])
    }

    /** Where job x is, or what has become of it. */
    ghost function Accounted(x: Job): int
      reads this
    {
      InLanes(Copies(x), lanes) + InLog(x, log)
    }

    constructor (lanes: seq<seq<Item>>, queuedCount: int, laneSelector: nat, tags: Tags)
      ensures this.lanes == lanes && this.queuedCount == queuedCount && this.laneSelector == laneSelector
      ensures this.tags == tags && log == [] && (Balanced(lanes, queuedCount, tags, None) ==> Consistent(None))
    {
      this.lanes, this.queuedCount, this.laneSelector, this.tags, log := lanes, queuedCount, laneSelector, tags, [];
    }

    /** enqueue, called by the task that is running. Nobody is idle any more, so that the idle gate is passed by. */
    method Enqueue(job: Job, ghost running: Option<nat>)
      requires Consistent(running)
      modifies this
      ensures Consistent(running) && |lanes| == old(|lanes|) && MarksKept(old(tags), tags) && old(log) <= log
      ensures forall x: Job :: Accounted(x) == old(Accounted(x)) + Times(x, job)
      ensures InLanes(Jobs, lanes) <= old(InLanes(Jobs, lanes)) + Size(job)
      ensures laneSelector == (old(laneSelector) + 1) % TICKETS
      ensures if TagClosed(old(tags), job.tag) then lanes == old(lanes) && log == old(log) + [Refused(job)]
              else Pushed(old(lanes), old(laneSelector) % |old(lanes)|, Item(NodeOf(tags, job.tag), job), lanes)
      ensures job.tag != 0 ==> job.tag in tags.index
    {
      var index := laneSelector % |lanes|;
      laneSelector := (laneSelector + 1) % TICKETS;
      var node: Option<nat> := None;
      if job.tag != 0 {
        var (tags', registered) := RegisterTask(tags, job.tag);
        RegisterKeepsMarks(tags, job.tag);
        if registered.None? {
          Refuse(job, running);
          return;
        }
        forall k: nat ensures Outstanding(tags', k) == Outstanding(tags, k) + One(registered == Some(k)) {
          RegisterLaws(tags, job.tag, k);
        }
        RegisterLaws(tags, job.tag, 0);
        StillJustified(tags, tags', log);
        tags, node := tags', registered;
      }
      queuedCount := queuedCount + 1;
      Push(index, Item(node, job), running);
    }

    ghost method Refuse(job: Job, running: Option<nat>)
      requires Consistent(running) && TagClosed(tags, job.tag)
      modifies this`log
      ensures Consistent(running) && log == old(log) + [Refused(job)]
      ensures forall x: Job :: Accounted(x) == old(Accounted(x)) + Times(x, job)
    {
      forall x: Job ensures InLog(x, log + [Refused(job)]) == InLog(x, log) + Times(x, job) {
        InLogSnoc(x, log, Refused(job));
      }
      log := log + [Refused(job)];
    }

    /** The push, for a task that is counted and registered already. */
    method Push(index: nat, item: Item, ghost running: Option<nat>)
      requires index < |lanes| && TagMapOk(tags) && queuedCount == InLanes(Items, lanes) + 1
      requires forall k: nat ::
        Outstanding(tags, k) == InLanes(OfTagNode(k), lanes) + One(running == Some(k)) + One(item.node == Some(k))
      requires forall i :: 0 <= i < |log| ==> Justified(tags, log[i])
      modifies this`lanes
      ensures Consistent(running) && Pushed(old(lanes), index, item, lanes)
      ensures forall x: Job :: Accounted(x) == old(Accounted(x)) + Times(x, item.job)
      ensures InLanes(Jobs, lanes) == old(InLanes(Jobs, lanes)) + Size(item.job)
    {
      forall c ensures InLanes(c, lanes[index := lanes[index] + [item]]) == InLanes(c, lanes) + ItemWeight(c, item) {
        InLanesUpdate(c, lanes, index, lanes[index] + [item]);
        InLaneSnoc(c, lanes[index], item);
      }
      lanes := lanes[index := lanes[index] + [item]];
    }

    /** `try_pop`, and the decrement of queuedCount. */
    method Pop(index: nat) returns (item: Item)
      requires Consistent(None) && index < |lanes| && lanes[index] != []
      modifies this`lanes, this`queuedCount
      ensures Consistent(item.node) && item == old(lanes[index][0]) && lanes == old(lanes[index := lanes[index][1..]])
      ensures forall x: Job :: Accounted(x) == old(Accounted(x)) - Times(x, item.job)
      ensures InLanes(Jobs, lanes) == old(InLanes(Jobs, lanes)) - Size(item.job)
    {
      item := lanes[index][0];
      forall c ensures InLanes(c, lanes[index := lanes[index][1..]]) == InLanes(c, lanes) - ItemWeight(c, item) {
        InLanesUpdate(c, lanes, index, lanes[index][1..]);
      }
      lanes := lanes[index := lanes[index][1..]];
      queuedCount := queuedCount - 1;
    }

    /** executeContainedTask: the task runs unless its tag is being retired, and is accounted for either way. */
    method ExecuteContainedTask(item: Item)
      requires Consistent(item.node)
      modifies this
      ensures Consistent(None) && |lanes| == old(|lanes|) && MarksKept(old(tags), tags) && old(log) <= log
      ensures forall x: Job :: Accounted(x) == old(Accounted(x)) + Times(x, item.job)
      ensures InLanes(Jobs, lanes) < old(InLanes(Jobs, lanes)) + Size(item.job)
    {
      var canRun := CanRun(tags, item.node);
      NodeIsLive(item.node);
      Note(if canRun then Ran(item) else Outcome.Skipped(item), item.node);
      if canRun {
        RunJob(item);
      }
      Complete(item.node);
    }

    lemma NodeIsLive(node: Option<nat>)
      requires Consistent(node)
      ensures Live(tags, node)
    {
      if node.Some? {
        assert Outstanding(tags, node.value) >= 1;
      }
    }

    ghost method Note(o: Outcome, running: Option<nat>)
      requires Consistent(running) && Justified(tags, o)
      modifies this`log
      ensures Consistent(running) && log == old(log) + [o]
      ensures forall x: Job :: Accounted(x) == old(Accounted(x)) + OutcomeWeight(x, o)
    {
      forall x: Job ensures InLog(x, log + [o]) == InLog(x, log) + OutcomeWeight(x, o) {
        InLogSnoc(x, log, o);
      }
      log := log + [o];
    }

    /** The task itself: it enqueues its children. */
    method RunJob(item: Item)
      requires Consistent(item.node)
      modifies this
      ensures Consistent(item.node) && |lanes| == old(|lanes|) && MarksKept(old(tags), tags) && old(log) <= log
      ensures forall x: Job :: Accounted(x) == old(Accounted(x)) + TimesInAll(x, item.job.children)
      ensures InLanes(Jobs, lanes) <= old(InLanes(Jobs, lanes)) + SizeOfAll(item.job.children)
    {
      var children := item.job.children;
      var i := 0;
      while i < |children|
        invariant i <= |children| && Consistent(item.node) && |lanes| == old(|lanes|) && MarksKept(old(tags), tags)
        invariant old(log) <= log
        invariant forall x: Job ::
          Accounted(x) + TimesInAll(x, children[i..]) == old(Accounted(x)) + TimesInAll(x, children)
        invariant InLanes(Jobs, lanes) + SizeOfAll(children[i..]) <= old(InLanes(Jobs, lanes)) + SizeOfAll(children)
      {
        assert children[i..][1..] == children[i + 1..];
        Enqueue(children[i], item.node);
        i := i + 1;
      }
    }

    /** completeTaggedTask. */
    method Complete(node: Option<nat>)
      requires Consistent(node)
      modifies this`tags
      ensures Consistent(None) && MarksKept(old(tags), tags)
    {
      NodeIsLive(node);
      var tags' := CompleteTagged(tags, node);
      forall k: nat ensures Outstanding(tags', k) == Outstanding(tags, k) - One(node == Some(k)) && TagMapOk(tags') {
        CompleteLaws(tags, node, k);
      }
      CompleteLaws(tags, node, 0);
      CompleteKeepsMarks(tags, node);
      StillJustified(tags, tags', log);
      tags := tags';
    }

    /** The drain: sweeps over all lanes until one comes up empty. It ends; every task that was queued or that one
        of these enqueued, to any depth, is run once, unless it belongs to the tree of a task whose tag was being
        retired; when no tag was, all of them are run; and nothing is left behind. */
    method Drain()
      requires Consistent(None)
      modifies this
      ensures Consistent(None) && |lanes| == old(|lanes|) && queuedCount == 0
      ensures forall i :: 0 <= i < |lanes| ==> lanes[i] == []
      ensures forall k :: k in tags.nodes ==> tags.nodes[k].outstanding == 0
      ensures old(log) <= log && MarksKept(old(tags), tags)
      ensures forall x: Job :: InLog(x, log) == old(InLog(x, log)) + old(InLanes(Copies(x), lanes))
      ensures NoneRetired(old(tags)) ==> forall i :: |old(log)| <= i < |log| ==> log[i].Ran?
    {
      var drainedAny := true;
      while drainedAny
        invariant Consistent(None) && |lanes| == old(|lanes|) && MarksKept(old(tags), tags) && old(log) <= log
        invariant forall x: Job :: Accounted(x) == old(Accounted(x))
        invariant !drainedAny ==> forall i :: 0 <= i < |lanes| ==> lanes[i] == []
        decreases InLanes(Jobs, lanes), drainedAny
      {
        drainedAny := DrainPass();
      }
      LeftEmpty();
      forall i | 0 <= i < |log| && NoneRetired(old(tags)) ensures log[i].Ran? {
        assert Justified(tags, log[i]);
      }
    }

    lemma LeftEmpty()
      requires Consistent(None) && forall i :: 0 <= i < |lanes| ==> lanes[i] == []
      ensures queuedCount == 0 && (forall k :: k in tags.nodes ==> tags.nodes[k].outstanding == 0)
      ensures forall x: Job :: Accounted(x) == InLog(x, log)
    {
      EmptyLanes(Items, lanes);
      forall k | k in tags.nodes ensures tags.nodes[k].outstanding == 0 {
        EmptyLanes(OfTagNode(k), lanes);
        assert Outstanding(tags, k) == InLanes(OfTagNode(k), lanes);
      }
      forall x: Job ensures Accounted(x) == InLog(x, log) {
        EmptyLanes(Copies(x), lanes);
      }
    }

    /** One sweep over all lanes. */
    method DrainPass() returns (drainedAny: bool)
      requires Consistent(None)
      modifies this
      ensures Consistent(None) && |lanes| == old(|lanes|) && MarksKept(old(tags), tags) && old(log) <= log
      ensures forall x: Job :: Accounted(x) == old(Accounted(x))
      ensures if drainedAny then InLanes(Jobs, lanes) < old(InLanes(Jobs, lanes))
              else lanes == old(lanes) && forall i :: 0 <= i < |lanes| ==> lanes[i] == []
    {
      drainedAny := false;
      for index := 0 to |lanes|
        invariant Consistent(None) && |lanes| == old(|lanes|) && MarksKept(old(tags), tags) && old(log) <= log
        invariant forall x: Job :: Accounted(x) == old(Accounted(x))
        invariant if drainedAny then InLanes(Jobs, lanes) < old(InLanes(Jobs, lanes))
                  else lanes == old(lanes) && forall i :: 0 <= i < index ==> lanes[i] == []
      {
        var drained := DrainLane(index);
        drainedAny := drainedAny || drained;
      }
    }

    /** All that is in one lane, and all that comes into it meanwhile. */
    method DrainLane(index: nat) returns (drained: bool)
      requires Consistent(None) && index < |lanes|
      modifies this
      ensures Consistent(None) && |lanes| == old(|lanes|) && MarksKept(old(tags), tags) && old(log) <= log
      ensures forall x: Job :: Accounted(x) == old(Accounted(x))
      ensures lanes[index] == []
      ensures if drained then InLanes(Jobs, lanes) < old(InLanes(Jobs, lanes)) else lanes == old(lanes)
    {
      drained := false;
      while lanes[index] != []
        invariant Consistent(None) && |lanes| == old(|lanes|) && MarksKept(old(tags), tags) && old(log) <= log
        invariant forall x: Job :: Accounted(x) == old(Accounted(x))
        invariant if drained then InLanes(Jobs, lanes) < old(InLanes(Jobs, lanes)) else lanes == old(lanes)
        decreases InLanes(Jobs, lanes)
      {
        var item := Pop(index);
        drained := true;
        ExecuteContainedTask(item);
      }
    }
  }
}
