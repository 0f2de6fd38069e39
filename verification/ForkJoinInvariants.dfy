/** What every reachable state of the fork-join machine satisfies, and the proof that every step keeps it. */
module ForkJoinInvariants {
  import opened Basics
  import opened ForkJoin

  // ---- Counting frames ----

  datatype Measure =
    | Holding(batch: nat, index: nat)  // runs fn(index)
    | InFn(batch: nat)                 // runs fn
    | Counting(batch: nat)             // has run fn and not yet counted it
    | Firing(batch: nat)               // is about to run onAllCompleted
    | Draining(batch: nat)             // is inside drainIndices, or runs the onAllCompleted of an empty batch
    | Waiting(batch: nat)              // waits for `done`
    | ToQueue(batch: nat, helpers: nat) // the helpers that an initiator has yet to enqueue
    | Launching(batch: nat)            // is enqueueing helpers

  function AtWeight(m: Measure, at: At): nat {
    match m
    case Holding(_, i) => One(at == Run(i) || (at.Direct? && i == 0))
    case InFn(_) => One(at.Run? || at.Direct?)
    case Counting(_) => One(at.Ended?)
    case Firing(_) => One(at.Fire?)
    case Draining(_) => One(at.Fetch? || at.Run? || at.Ended? || at.Fire? || at.Finale?)
    case Waiting(_) => One(at.Check? || at.Blocked?)
    case ToQueue(_, helpers) => if at.Launch? && at.dispatched < helpers then helpers - at.dispatched else 0
    case Launching(_) => One(at.Launch?)
  }

  function Weight(m: Measure, f: Frame): nat {
    if f.batch == m.batch then AtWeight(m, f.at) else 0
  }

  function StackSum(m: Measure, stack: Stack): nat {
    if stack == [] then 0 else StackSum(m, Below(stack)) + Weight(m, Top(stack))
  }

  function Total(m: Measure, threads: seq<Stack>): nat {
    if threads == [] then 0
    else Total(m, threads[..|threads| - 1]) + StackSum(m, threads[|threads| - 1])
  }

  lemma {:induction false} TotalUpdate(m: Measure, threads: seq<Stack>, t: nat, stack: Stack)
    requires t < |threads|
    ensures Total(m, threads[t := stack]) == Total(m, threads) - StackSum(m, threads[t]) + StackSum(m, stack)
    ensures Total(m, threads) >= StackSum(m, threads[t])
  {
    var n := |threads| - 1;
    if t == n {
      assert threads[t := stack][..n] == threads[..n];
    } else {
      TotalUpdate(m, threads[..n], t, stack);
      assert threads[t := stack][..n] == threads[..n][t := stack];
    }
  }

  lemma {:induction false} TotalZero(m: Measure, threads: seq<Stack>)
    requires forall t :: 0 <= t < |threads| ==> StackSum(m, threads[t]) == 0
    ensures Total(m, threads) == 0
  {
    if threads != [] {
      TotalZero(m, threads[..|threads| - 1]);
    }
  }

  /** A positive total has a frame that weighs. */
  lemma {:induction false} Heavy(m: Measure, threads: seq<Stack>) returns (t: nat, p: nat)
    requires Total(m, threads) > 0
    ensures t < |threads| && p < |threads[t]| && Weight(m, threads[t][p]) > 0
  {
    var n := |threads| - 1;
    if StackSum(m, threads[n]) > 0 {
      t := n;
      p := HeavyFrame(m, threads[n]);
    } else {
      t, p := Heavy(m, threads[..n]);
    }
  }

  lemma {:induction false} HeavyFrame(m: Measure, stack: Stack) returns (p: nat)
    requires StackSum(m, stack) > 0
    ensures p < |stack| && Weight(m, stack[p]) > 0
  {
    if Weight(m, Top(stack)) > 0 {
      p := |stack| - 1;
    } else {
      p := HeavyFrame(m, Below(stack));
    }
  }

  lemma {:induction false} FrameWeighs(m: Measure, stack: Stack, p: nat)
    requires p < |stack|
    ensures StackSum(m, stack) >= Weight(m, stack[p])
  {
    if p < |stack| - 1 {
      FrameWeighs(m, Below(stack), p);
    }
  }

  lemma TotalWeighs(m: Measure, threads: seq<Stack>, t: nat, p: nat)
    requires t < |threads| && p < |threads[t]|
    ensures Total(m, threads) >= Weight(m, threads[t][p])
  {
    TotalUpdate(m, threads, t, []);
    FrameWeighs(m, threads[t], p);
  }

  lemma {:induction false} StackZero(m: Measure, stack: Stack)
    requires forall p :: 0 <= p < |stack| ==> stack[p].batch != m.batch
    ensures StackSum(m, stack) == 0
  {
    if stack != [] {
      StackZero(m, Below(stack));
    }
  }

  // ---- The invariant of a batch ----

  function Upto(n: nat): seq<nat> {
    seq(n, (i: nat) => i)
  }

  function Occurrences(s: seq<nat>, x: nat): nat {
    if s == [] then 0 else Occurrences(s[..|s| - 1], x) + One(s[|s| - 1] == x)
  }

  lemma OccurrencesSnoc(s: seq<nat>, last: nat, x: nat)
    ensures Occurrences(s + [last], x) == Occurrences(s, x) + One(last == x)
  {
    assert (s + [last])[..|s|] == s;
  }

  /** The indices that have been handed out. */
  function Handed(x: Batch): nat {
    Min(x.work.next, x.nature.count)
  }

  datatype Tally = Tally(
    inFn: int, counting: int, firing: int, draining: int, waiting: int, toQueue: int, launching: int)

  function TallyOf(s: State, b: nat): Tally
    requires b < |s.batches|
  {
    var x := s.batches[b];
    Tally(Total(InFn(b), s.threads), Total(Counting(b), s.threads), Total(Firing(b), s.threads),
          Total(Draining(b), s.threads), Total(Waiting(b), s.threads),
          Total(ToQueue(b, HelperCount(x.nature.kind, x.nature.count, s.workers)), s.threads),
          Total(Launching(b), s.threads))
  }

  /** The words of a batch agree with the frames that work on it. */
  ghost predicate Balanced(x: Batch, t: Tally, workers: nat) {
    && CallsBalanced(x, t)
    && DispatchBalanced(x, t, workers) && DrainersBalanced(x, t) && FireBalanced(x, t)
  }

  ghost predicate CallsBalanced(x: Batch, t: Tally) {
    var n, w := x.nature, x.work;
    && (n.kind.Inline? ==> n.count == 1 && w.next == 1 && w.completed == 0) && (n.kind.Sync? ==> n.count >= 2)
    && |w.ended| + t.inFn == Handed(x)
    && (!n.kind.Inline? ==> w.completed + t.counting == |w.ended|)
  }

  ghost predicate DispatchBalanced(x: Batch, t: Tally, workers: nat) {
    var n, d := x.nature, x.drainers;
    && d.helpers + d.lost + d.joined + t.toQueue == HelperCount(n.kind, n.count, workers)
    && (if n.kind.Sync? then d.led + t.launching == 1 else d.led == 0)
  }

  ghost predicate DrainersBalanced(x: Batch, t: Tally) {
    var n, w, d := x.nature, x.work, x.drainers;
    && (!n.kind.Inline? && n.count > 0 ==>
          d.led + d.joined == d.left + t.draining && d.left == (if w.next > n.count then w.next - n.count else 0))
    && (n.count == 0 ==> w.next == 0) && (n.kind.Inline? || n.count == 0 ==> d.left == 0)
    && (t.waiting > 0 ==> w.next > n.count)
  }

  ghost predicate FireBalanced(x: Batch, t: Tally) {
    var n, e := x.nature, x.finish;
    && (if n.kind.Inline? then e.fired == 0
        else if n.count == 0 then e.fired + t.firing == x.drainers.joined
        else e.fired + t.firing == One(x.work.completed == n.count))
    && e.done == (n.kind.Sync? && e.fired > 0) && (e.blocked ==> n.kind.Sync? && !e.done)
  }

  /** Every index is handed out once: it is being run, or has ended once. */
  ghost predicate IndicesOk(s: State, b: nat)
    requires b < |s.batches|
  {
    forall i: nat ::
      Occurrences(s.batches[b].work.ended, i) + Total(Holding(b, i), s.threads) == One(i < Handed(s.batches[b]))
  }

  ghost predicate BatchOk(s: State, b: nat)
    requires b < |s.batches|
  {
    && Balanced(s.batches[b], TallyOf(s, b), s.workers)
    && s.batches[b].work.started == Upto(Handed(s.batches[b]))
    && (s.batches[b].nature.parent.Some? ==> s.batches[b].nature.parent.value < b)
  }

  // ---- The invariant of a thread ----

  /** A frame is where its kind of batch allows. */
  predicate FrameOk(x: Batch, f: Frame) {
    && (f.at.Direct? <==> x.nature.kind.Inline?)
    && (f.at.Check? || f.at.Blocked? ==> x.nature.kind.Sync?)
    && (f.at.Launch? || f.at.Check? || f.at.Blocked? ==> f.initiator)
    && (f.at.Finale? ==> x.nature.kind.Async?)
    && (f.initiator && x.nature.kind.Async? ==> f.at.Launch?)
    && (x.nature.count == 0 ==> f.at.Launch? || f.at.Fire? || f.at.Finale?)
  }

  predicate UserCode(at: At) {
    at.Run? || at.Finale? || at.Direct?
  }

  /** Only user code has frames above it, and these belong to batches that it started; a helper has no frame below
      it, which is to say that a thread in the middle of something takes no helper. */
  ghost predicate FramesOk(s: State, t: nat, p: nat)
    requires t < |s.threads| && p < |s.threads[t]|
  {
    var stack := s.threads[t];
    var f := stack[p];
    && f.batch < |s.batches| && FrameOk(s.batches[f.batch], f)
    && (!f.initiator ==> p == 0 && t < s.workers)
    && (p > 0 ==> UserCode(stack[p - 1].at) && s.batches[f.batch].nature.parent == Some(stack[p - 1].batch))
  }

  ghost predicate ThreadOk(s: State, t: nat)
    requires t < |s.threads|
  {
    forall p :: 0 <= p < |s.threads[t]| ==> FramesOk(s, t, p)
  }

  ghost predicate Inv(s: State) {
    && (forall b :: 0 <= b < |s.batches| ==> BatchOk(s, b) && IndicesOk(s, b))
    && (forall t :: 0 <= t < |s.threads| ==> ThreadOk(s, t))
  }

  // ---- One step of a frame keeps the balance of its batch ----

  function OptionWeight(m: Measure, f: Option<Frame>): nat {
    match f
    case None => 0
    case Some(g) => Weight(m, g)
  }

  /** The tally after the topmost frame has made its step. */
  function Shifted(t: Tally, b: nat, helpers: nat, f: Option<Frame>, f': Option<Frame>): Tally {
    Tally(t.inFn - OptionWeight(InFn(b), f) + OptionWeight(InFn(b), f'),
          t.counting - OptionWeight(Counting(b), f) + OptionWeight(Counting(b), f'),
          t.firing - OptionWeight(Firing(b), f) + OptionWeight(Firing(b), f'),
          t.draining - OptionWeight(Draining(b), f) + OptionWeight(Draining(b), f'),
          t.waiting - OptionWeight(Waiting(b), f) + OptionWeight(Waiting(b), f'),
          t.toQueue - OptionWeight(ToQueue(b, helpers), f) + OptionWeight(ToQueue(b, helpers), f'),
          t.launching - OptionWeight(Launching(b), f) + OptionWeight(Launching(b), f'))
  }

  ghost predicate CountsNotNegative(t: Tally, f: Frame) {
    && t.inFn >= One(f.at.Run? || f.at.Direct?) && t.counting >= One(f.at.Ended?) && t.firing >= One(f.at.Fire?)
    && t.waiting >= One(f.at.Check? || f.at.Blocked?)
    && t.draining >= One(f.at.Fetch? || f.at.Run? || f.at.Ended? || f.at.Fire? || f.at.Finale?)
  }

  lemma UptoNext(n: nat)
    ensures Upto(n) + [n] == Upto(n + 1)
  {
  }

  lemma StepKeepsStarted(x: Batch, f: Frame, workers: nat, spurious: bool, x': Batch, f': Option<Frame>)
    requires BatchStep(x, f, workers, spurious) == Some((x', f')) && x.work.started == Upto(Handed(x))
    ensures x'.work.started == Upto(Handed(x'))
  {
    UptoNext(Handed(x));
  }

  lemma StepKeepsCalls(b: nat, x: Batch, f: Frame, workers: nat, spurious: bool, t: Tally, x': Batch, f': Option<Frame>)
    requires BatchStep(x, f, workers, spurious) == Some((x', f'))
    requires Balanced(x, t, workers) && FrameOk(x, f) && f.batch == b && CountsNotNegative(t, f)
    ensures var t' := Shifted(t, b, HelperCount(x.nature.kind, x.nature.count, workers), Some(f), f');
      CallsBalanced(x', t')
  {
  }

  lemma StepKeepsDispatch(b: nat, x: Batch, f: Frame, workers: nat, spurious: bool, t: Tally, x': Batch,
      f': Option<Frame>)
    requires BatchStep(x, f, workers, spurious) == Some((x', f'))
    requires Balanced(x, t, workers) && FrameOk(x, f) && f.batch == b && CountsNotNegative(t, f)
    ensures var t' := Shifted(t, b, HelperCount(x.nature.kind, x.nature.count, workers), Some(f), f');
      DispatchBalanced(x', t', workers)
  {
  }

  lemma StepKeepsDrainers(b: nat, x: Batch, f: Frame, workers: nat, spurious: bool, t: Tally, x': Batch,
      f': Option<Frame>)
    requires BatchStep(x, f, workers, spurious) == Some((x', f'))
    requires Balanced(x, t, workers) && FrameOk(x, f) && f.batch == b && CountsNotNegative(t, f)
    ensures var t' := Shifted(t, b, HelperCount(x.nature.kind, x.nature.count, workers), Some(f), f');
      DrainersBalanced(x', t')
  {
  }

  lemma StepKeepsFire(b: nat, x: Batch, f: Frame, workers: nat, spurious: bool, t: Tally, x': Batch, f': Option<Frame>)
    requires BatchStep(x, f, workers, spurious) == Some((x', f'))
    requires Balanced(x, t, workers) && FrameOk(x, f) && f.batch == b && CountsNotNegative(t, f)
    ensures var t' := Shifted(t, b, HelperCount(x.nature.kind, x.nature.count, workers), Some(f), f');
      FireBalanced(x', t')
  {
  }

  lemma StepKeepsBalance(b: nat, x: Batch, f: Frame, workers: nat, spurious: bool, t: Tally, x': Batch,
      f': Option<Frame>)
    requires BatchStep(x, f, workers, spurious) == Some((x', f'))
    requires Balanced(x, t, workers) && FrameOk(x, f) && f.batch == b && CountsNotNegative(t, f)
    ensures var t' := Shifted(t, b, HelperCount(x.nature.kind, x.nature.count, workers), Some(f), f');
      Balanced(x', t', workers)
  {
    StepKeepsCalls(b, x, f, workers, spurious, t, x', f');
    StepKeepsDispatch(b, x, f, workers, spurious, t, x', f');
    StepKeepsDrainers(b, x, f, workers, spurious, t, x', f');
    StepKeepsFire(b, x, f, workers, spurious, t, x', f');
  }

  lemma StepKeepsFrame(x: Batch, f: Frame, workers: nat, spurious: bool, x': Batch, f': Option<Frame>)
    requires BatchStep(x, f, workers, spurious) == Some((x', f')) && FrameOk(x, f)
    requires (x.nature.kind.Sync? ==> x.nature.count >= 2)
    ensures f'.Some? ==> FrameOk(x', f'.value) && f'.value.batch == f.batch && f'.value.initiator == f.initiator
    ensures x'.nature.kind == x.nature.kind && x'.nature.count == x.nature.count && x'.nature.parent == x.nature.parent
  {
  }

  ghost predicate IndexLaw(b: nat, i: nat, x: Batch, f: Frame, x': Batch, f': Option<Frame>) {
    Occurrences(x'.work.ended, i) + OptionWeight(Holding(b, i), f') + One(i < Handed(x)) ==
    Occurrences(x.work.ended, i) + Weight(Holding(b, i), f) + One(i < Handed(x'))
  }

  lemma StepKeepsIndex(b: nat, i: nat, x: Batch, f: Frame, workers: nat, spurious: bool, x': Batch, f': Option<Frame>)
    requires BatchStep(x, f, workers, spurious) == Some((x', f')) && f.batch == b
    ensures IndexLaw(b, i, x, f, x', f')
  {
    if f.at.Fetch? {
      FetchKeepsIndex(b, i, x, f, workers, x', f');
    } else if f.at.Run? || f.at.Direct? {
      EndKeepsIndex(b, i, x, f, if f.at.Run? then f.at.index else 0);
    } else {
      assert x'.work.ended == x.work.ended && Handed(x') == Handed(x);
    }
  }

  lemma FetchKeepsIndex(b: nat, i: nat, x: Batch, f: Frame, workers: nat, x': Batch, f': Option<Frame>)
    requires BatchStep(x, f, workers, false) == Some((x', f')) && f.batch == b && f.at.Fetch?
    ensures IndexLaw(b, i, x, f, x', f')
  {
    assert x'.work.ended == x.work.ended;
  }

  lemma EndKeepsIndex(b: nat, i: nat, x: Batch, f: Frame, index: nat)
    requires f.batch == b && (f.at == Run(index) || (f.at.Direct? && index == 0))
    ensures IndexLaw(b, i, x, f, x.(work := x.work.(ended := x.work.ended + [index])),
      if f.at.Direct? then None else Some(f.(at := Ended(index))))
  {
    var x' := x.(work := x.work.(ended := x.work.ended + [index]));
    assert Occurrences(x'.work.ended, i) == Occurrences(x.work.ended, i) + One(index == i) by {
      OccurrencesSnoc(x.work.ended, index, i);
    }
    assert Weight(Holding(b, i), f) == One(index == i);
  }

  // ---- The same, for a whole state ----

  lemma StackReplace(m: Measure, below: Stack, f: Option<Frame>)
    ensures StackSum(m, below + OptionSeq(f)) == StackSum(m, below) + OptionWeight(m, f)
  {
    if f.Some? {
      assert Below(below + [f.value]) == below;
    } else {
      assert below + [] == below;
    }
  }

  /** The topmost frame of thread t gives way to another, to none, or appears; a batch changes or appears. */
  ghost predicate Moves(s: State, t: nat, f: Option<Frame>, f': Option<Frame>, s': State) {
    && t < |s.threads| && s'.workers == s.workers
    && (f.Some? ==> s.threads[t] != [] && f.value == Top(s.threads[t]))
    && s'.threads == s.threads[t := (if f.Some? then Below(s.threads[t]) else s.threads[t]) + OptionSeq(f')]
  }

  lemma TotalMoves(m: Measure, s: State, t: nat, f: Option<Frame>, f': Option<Frame>, s': State)
    requires Moves(s, t, f, f', s')
    ensures Total(m, s'.threads) == Total(m, s.threads) - OptionWeight(m, f) + OptionWeight(m, f')
    ensures Total(m, s.threads) >= OptionWeight(m, f)
  {
    var below := if f.Some? then Below(s.threads[t]) else s.threads[t];
    TotalUpdate(m, s.threads, t, below + OptionSeq(f'));
    StackReplace(m, below, f');
  }

  lemma TallyMoves(b: nat, s: State, t: nat, f: Option<Frame>, f': Option<Frame>, s': State)
    requires Moves(s, t, f, f', s') && b < |s.batches| && b < |s'.batches|
    requires s'.batches[b].nature.kind == s.batches[b].nature.kind
    requires s'.batches[b].nature.count == s.batches[b].nature.count
    ensures var x := s.batches[b];
      TallyOf(s', b) == Shifted(TallyOf(s, b), b, HelperCount(x.nature.kind, x.nature.count, s.workers), f, f')
    ensures f.Some? && f.value.batch == b ==> CountsNotNegative(TallyOf(s, b), f.value)
  {
    var x := s.batches[b];
    TotalMoves(InFn(b), s, t, f, f', s');
    TotalMoves(Counting(b), s, t, f, f', s');
    TotalMoves(Firing(b), s, t, f, f', s');
    TotalMoves(Draining(b), s, t, f, f', s');
    TotalMoves(Waiting(b), s, t, f, f', s');
    TotalMoves(ToQueue(b, HelperCount(x.nature.kind, x.nature.count, s.workers)), s, t, f, f', s');
    TotalMoves(Launching(b), s, t, f, f', s');
  }

  /** A batch that the step does not touch. */
  lemma OtherBatch(b: nat, s: State, t: nat, f: Option<Frame>, f': Option<Frame>, s': State)
    requires Moves(s, t, f, f', s') && b < |s.batches| && b < |s'.batches| && s'.batches[b] == s.batches[b]
    requires BatchOk(s, b) && IndicesOk(s, b)
    requires (f.Some? ==> f.value.batch != b) && (f'.Some? ==> f'.value.batch != b)
    ensures BatchOk(s', b) && IndicesOk(s', b)
  {
    TallyMoves(b, s, t, f, f', s');
    forall i: nat ensures
      Occurrences(s'.batches[b].work.ended, i) + Total(Holding(b, i), s'.threads) == One(i < Handed(s'.batches[b]))
    {
      TotalMoves(Holding(b, i), s, t, f, f', s');
    }
  }

  /** The batch of the frame that moves. */
  lemma OwnBatch(s: State, t: nat, spurious: bool, f: Frame, x': Batch, f': Option<Frame>, s': State)
    requires Moves(s, t, Some(f), f', s') && f.batch < |s.batches| && s'.batches == s.batches[f.batch := x']
    requires BatchStep(s.batches[f.batch], f, s.workers, spurious) == Some((x', f'))
    requires BatchOk(s, f.batch) && FrameOk(s.batches[f.batch], f)
    ensures BatchOk(s', f.batch)
  {
    var b, x := f.batch, s.batches[f.batch];
    StepKeepsFrame(x, f, s.workers, spurious, x', f');
    TallyMoves(b, s, t, Some(f), f', s');
    StepKeepsBalance(b, x, f, s.workers, spurious, TallyOf(s, b), x', f');
    StepKeepsStarted(x, f, s.workers, spurious, x', f');
  }

  lemma OwnIndices(s: State, t: nat, spurious: bool, f: Frame, x': Batch, f': Option<Frame>, s': State)
    requires Moves(s, t, Some(f), f', s') && f.batch < |s.batches| && s'.batches == s.batches[f.batch := x']
    requires BatchStep(s.batches[f.batch], f, s.workers, spurious) == Some((x', f'))
    requires IndicesOk(s, f.batch) && FrameOk(s.batches[f.batch], f)
    ensures IndicesOk(s', f.batch)
  {
    var b, x := f.batch, s.batches[f.batch];
    forall i: nat ensures Occurrences(x'.work.ended, i) + Total(Holding(b, i), s'.threads) == One(i < Handed(x')) {
      TotalMoves(Holding(b, i), s, t, Some(f), f', s');
      StepKeepsIndex(b, i, x, f, s.workers, spurious, x', f');
    }
  }

  /** What a batch keeps for good. */
  ghost predicate SameNature(x: Batch, x': Batch) {
    x'.nature.kind == x.nature.kind && x'.nature.count == x.nature.count && x'.nature.parent == x.nature.parent
  }

  ghost predicate NaturesKept(s: State, s': State) {
    |s.batches| <= |s'.batches| && forall b :: 0 <= b < |s.batches| ==> SameNature(s.batches[b], s'.batches[b])
  }

  lemma ThreadsKept(s: State, t: nat, f: Option<Frame>, f': Option<Frame>, s': State)
    requires Moves(s, t, f, f', s') && NaturesKept(s, s')
    requires forall u :: 0 <= u < |s.threads| ==> ThreadOk(s, u)
    requires f'.Some? ==> |s'.threads[t]| > 0 && FramesOk(s', t, |s'.threads[t]| - 1)
    ensures forall u :: 0 <= u < |s'.threads| ==> ThreadOk(s', u)
  {
    forall u | 0 <= u < |s'.threads| ensures ThreadOk(s', u) {
      assert ThreadOk(s, u);
      forall p | 0 <= p < |s'.threads[u]| ensures FramesOk(s', u, p) {
        if u != t || p < |s'.threads[t]| - 1 || f'.None? {
          assert FramesOk(s, u, p);
        }
      }
    }
  }

  lemma StepKeeps(s: State, t: nat, spurious: bool, s': State)
    requires Inv(s) && Next(s, Step(t, spurious)) == Some(s')
    ensures Inv(s')
  {
    var f := Top(s.threads[t]);
    var x := s.batches[f.batch];
    var (x', f') := BatchStep(x, f, s.workers, spurious).value;
    assert ThreadOk(s, t) && FramesOk(s, t, |s.threads[t]| - 1);
    assert BatchOk(s, f.batch);
    StepKeepsFrame(x, f, s.workers, spurious, x', f');
    forall b | 0 <= b < |s'.batches| ensures BatchOk(s', b) && IndicesOk(s', b) {
      if b == f.batch {
        OwnBatch(s, t, spurious, f, x', f', s');
        OwnIndices(s, t, spurious, f, x', f', s');
      } else {
        OtherBatch(b, s, t, Some(f), f', s');
      }
    }
    ThreadsKept(s, t, Some(f), f', s');
  }

  lemma TakeHelperKeeps(s: State, w: nat, b: nat, s': State)
    requires Inv(s) && Next(s, TakeHelper(w, b)) == Some(s')
    ensures Inv(s')
  {
    var f := Frame(b, false, if s.batches[b].nature.count == 0 then Fire else Fetch);
    assert s'.threads[w] == s.threads[w] + OptionSeq(Some(f));
    TakesHelperKeeps(s, w, b, f, s');
  }

  lemma TakesHelperKeeps(s: State, w: nat, b: nat, f: Frame, s': State)
    requires Inv(s) && TakesHelper(s, w, b, f, s') && w < s.workers && s.threads[w] == []
    ensures Inv(s')
  {
    forall c | 0 <= c < |s'.batches| ensures BatchOk(s', c) && IndicesOk(s', c) {
      assert BatchOk(s, c) && IndicesOk(s, c);
      if c == b {
        TakeHelperBatch(s, w, b, f, s');
      } else {
        OtherBatch(c, s, w, None, Some(f), s');
      }
    }
    assert BatchOk(s, b);
    TakeHelperThreads(s, w, b, f, s');
  }

  ghost predicate TakesHelper(s: State, w: nat, b: nat, f: Frame, s': State) {
    && b < |s.batches| && s.batches[b].drainers.helpers > 0 && Moves(s, w, None, Some(f), s')
    && f == Frame(b, false, if s.batches[b].nature.count == 0 then Fire else Fetch)
    && var x := s.batches[b]; var d := x.drainers;
       s'.batches == s.batches[b := x.(drainers := d.(helpers := d.helpers - 1, joined := d.joined + 1))]
  }

  lemma TakeHelperThreads(s: State, w: nat, b: nat, f: Frame, s': State)
    requires TakesHelper(s, w, b, f, s') && BatchOk(s, b) && w < s.workers && s.threads[w] == []
    requires forall t :: 0 <= t < |s.threads| ==> ThreadOk(s, t)
    ensures forall t :: 0 <= t < |s'.threads| ==> ThreadOk(s', t)
  {
    ThreadsKept(s, w, None, Some(f), s');
  }

  lemma TakeHelperBatch(s: State, w: nat, b: nat, f: Frame, s': State)
    requires TakesHelper(s, w, b, f, s') && BatchOk(s, b) && IndicesOk(s, b)
    ensures BatchOk(s', b) && IndicesOk(s', b)
  {
    TallyMoves(b, s, w, None, Some(f), s');
    forall i: nat ensures
      Occurrences(s'.batches[b].work.ended, i) + Total(Holding(b, i), s'.threads) == One(i < Handed(s'.batches[b]))
    {
      TotalMoves(Holding(b, i), s, w, None, Some(f), s');
    }
  }

  lemma LoseHelperKeeps(s: State, b: nat, s': State)
    requires Inv(s) && Next(s, LoseHelper(b)) == Some(s')
    ensures Inv(s')
  {
    forall c | 0 <= c < |s'.batches| ensures BatchOk(s', c) && IndicesOk(s', c) {
      assert BatchOk(s, c) && IndicesOk(s, c);
    }
    forall t | 0 <= t < |s'.threads| ensures ThreadOk(s', t) {
      assert ThreadOk(s, t);
      forall p | 0 <= p < |s'.threads[t]| ensures FramesOk(s', t, p) {
        assert FramesOk(s, t, p);
      }
    }
  }

  lemma NoFrameYet(m: Measure, s: State)
    requires m.batch == |s.batches| && forall t :: 0 <= t < |s.threads| ==> ThreadOk(s, t)
    ensures Total(m, s.threads) == 0
  {
    forall t | 0 <= t < |s.threads| ensures StackSum(m, s.threads[t]) == 0 {
      assert ThreadOk(s, t);
      forall p | 0 <= p < |s.threads[t]| ensures s.threads[t][p].batch != m.batch {
        assert FramesOk(s, t, p);
      }
      StackZero(m, s.threads[t]);
    }
    TotalZero(m, s.threads);
  }

  lemma NewTotal(m: Measure, s: State, t: nat, f: Frame, s': State)
    requires Moves(s, t, None, Some(f), s') && f.batch == m.batch == |s.batches|
    requires forall u :: 0 <= u < |s.threads| ==> ThreadOk(s, u)
    ensures Total(m, s'.threads) == AtWeight(m, f.at)
  {
    NoFrameYet(m, s);
    TotalMoves(m, s, t, None, Some(f), s');
  }

  lemma NewBatchOk(s: State, t: nat, kind: Kind, count: nat, at: At, parent: Option<nat>, s': State)
    requires Moves(s, t, None, Some(Frame(|s.batches|, true, at)), s')
    requires s'.batches == s.batches + [NewBatch(count, kind, parent)]
    requires parent.Some? ==> parent.value < |s.batches|
    requires Entry(count, if kind.Inline? then Sync else kind) == Some((kind, at))
    requires forall u :: 0 <= u < |s.threads| ==> ThreadOk(s, u)
    ensures BatchOk(s', |s.batches|) && IndicesOk(s', |s.batches|)
  {
    var b, f, x := |s.batches|, Frame(|s.batches|, true, at), NewBatch(count, kind, parent);
    NewTotal(InFn(b), s, t, f, s');
    NewTotal(Counting(b), s, t, f, s');
    NewTotal(Firing(b), s, t, f, s');
    NewTotal(Draining(b), s, t, f, s');
    NewTotal(Waiting(b), s, t, f, s');
    NewTotal(ToQueue(b, HelperCount(kind, count, s.workers)), s, t, f, s');
    NewTotal(Launching(b), s, t, f, s');
    forall i: nat ensures Occurrences(x.work.ended, i) + Total(Holding(b, i), s'.threads) == One(i < Handed(x)) {
      NewTotal(Holding(b, i), s, t, f, s');
    }
    assert x.work.started == Upto(Handed(x));
  }

  lemma CallKeeps(s: State, t: nat, count: nat, kind: Kind, s': State)
    requires Inv(s) && Next(s, Call(t, count, kind)) == Some(s')
    ensures Inv(s')
  {
    var (k, at) := Entry(count, kind).value;
    var parent := if s.threads[t] == [] then None else Some(Top(s.threads[t]).batch);
    var n := |s.threads[t]|;
    assert ThreadOk(s, t);
    assert n > 0 ==> FramesOk(s, t, n - 1);
    var f := Frame(|s.batches|, true, at);
    forall b | 0 <= b < |s'.batches| ensures BatchOk(s', b) && IndicesOk(s', b) {
      if b == |s.batches| {
        NewBatchOk(s, t, k, count, at, parent, s');
      } else {
        OtherBatch(b, s, t, None, Some(f), s');
      }
    }
    assert FramesOk(s', t, n);
    ThreadsKept(s, t, None, Some(f), s');
  }

  lemma EveryStepKeeps(s: State, s': State)
    requires Inv(s) && IsStep(s, s')
    ensures Inv(s')
  {
    var e :| Next(s, e) == Some(s');
    match e {
      case Step(t, spurious) => StepKeeps(s, t, spurious, s');
      case Call(t, count, kind) => CallKeeps(s, t, count, kind, s');
      case TakeHelper(w, b) => TakeHelperKeeps(s, w, b, s');
      case LoseHelper(b) => LoseHelperKeeps(s, b, s');
    }
  }

  /** Safety over whole runs: every state of every run satisfies the invariant. */
  lemma {:induction false} RunInv(run: seq<State>, i: nat)
    requires IsRun(run) && i < |run|
    ensures Inv(run[i])
  {
    if i > 0 {
      RunInv(run, i - 1);
      assert StepAt(run, i);
      EveryStepKeeps(run[i - 1], run[i]);
    }
  }
}
