/**
 parallelFor and parallelForAsync of threading/cthreadpool.h as a state machine. Batches are dispensers of
 indices; threads are stacks of frames, so that a function that runs for one batch may start further batches, to
 any depth and on any number of threads. One step is one atomic operation on a dispenser, one call or return of
 the user's function, or one section under the mutex that guards `done`.

 The lanes appear as a number of queued helpers per batch: any free worker may take any helper, and a helper may
 be destroyed unrun, as abandonAllThreads does.
 */
module ForkJoin {

  import opened Basics

  /** Inline is parallelFor with a count of one, which calls the function directly. */
  datatype Kind = Sync | Async | Inline

  datatype Nature = Nature(count: nat, kind: Kind, parent: Option<nat>)

  /** nextIndex and completedCount, and a record of the calls of the user's function. */
  datatype Work = Work(next: nat, completed: nat, started: seq<nat>, ended: seq<nat>)

  /** The helpers that are queued and that were destroyed unrun; the calls of drainIndices that the initiator has
      begun, that helpers have begun, and that have returned. */
  datatype Drainers = Drainers(helpers: nat, lost: nat, led: nat, joined: nat, left: nat)

  /** How often onAllCompleted has begun, and the wait block of a parallelFor. */
  datatype Finish = Finish(fired: nat, done: bool, blocked: bool)

  datatype Batch = Batch(nature: Nature, work: Work, drainers: Drainers, finish: Finish)

  datatype At =
    | Launch(dispatched: nat)  // the initiator enqueues the helpers
    | Fetch                    // drainIndices, about to take an index
    | Run(index: nat)          // inside fn(index)
    | Ended(index: nat)        // fn has returned or thrown, and is not yet counted
    | Fire                     // about to run onAllCompleted
    | Finale                   // inside the onAllCompleted of parallelForAsync
    | Check                    // parallelFor, about to look at `done`
    | Blocked                  // parallelFor, blocked on allDone
    | Direct                   // parallelFor with a count of one, inside fn(0)

  datatype Frame = Frame(batch: nat, initiator: bool, at: At)

  type Stack = seq<Frame>

  /** The first `workers` threads take helpers; the others are threads outside of the pool. */
  datatype State = State(workers: nat, batches: seq<Batch>, threads: seq<Stack>)

  datatype Event =
    | Step(thread: nat, spurious: bool)
    | Call(thread: nat, count: nat, kind: Kind)
    | TakeHelper(worker: nat, batch: nat)
    | LoseHelper(batch: nat)

  function Min(a: nat, b: nat): nat {
    if a < b then a else b
  }

  function HelperCount(kind: Kind, count: nat, workers: nat): nat {
    match kind
    case Sync => if count == 0 then 0 else Min(count - 1, workers)
    case Async => if count == 0 then 1 else Min(count, workers)
    case Inline => 0
  }

  /** One step of the topmost frame of a thread, with the frame that takes its place. A function that throws ends
      like one that returns: the throw is contained. */
  function BatchStep(b: Batch, f: Frame, workers: nat, spurious: bool): Option<(Batch, Option<Frame>)> {
    var n, w, d, e := b.nature, b.work, b.drainers, b.finish;
    match f.at
    case Launch(k) =>
      if k < HelperCount(n.kind, n.count, workers) then
        Some((b.(drainers := d.(helpers := d.helpers + 1)), Some(f.(at := Launch(k + 1)))))
      else if n.kind.Sync? then Some((b.(drainers := d.(led := d.led + 1)), Some(f.(at := Fetch))))
      else Some((b, None))
    case Fetch =>
      if w.next >= n.count then
        Some((b.(work := w.(next := w.next + 1), drainers := d.(left := d.left + 1)),
              if f.initiator then Some(f.(at := Check)) else None))
      else
        Some((b.(work := w.(next := w.next + 1, started := w.started + [w.next])), Some(f.(at := Run(w.next)))))
    case Run(i) => Some((b.(work := w.(ended := w.ended + [i])), Some(f.(at := Ended(i)))))
    case Ended(i) =>
      Some((b.(work := w.(completed := w.completed + 1)),
            Some(f.(at := if w.completed + 1 == n.count then Fire else Fetch))))
    case Fire =>
      if n.kind.Async? then Some((b.(finish := e.(fired := e.fired + 1)), Some(f.(at := Finale))))
      else Some((b.(finish := Finish(e.fired + 1, true, false)), Some(f.(at := Fetch))))
    case Finale => Some((b, if n.count == 0 then None else Some(f.(at := Fetch))))
    case Check =>
      if e.done then Some((b, None)) else Some((b.(finish := e.(blocked := true)), Some(f.(at := Blocked))))
    case Blocked =>
      if !e.blocked || spurious then Some((b.(finish := e.(blocked := false)), Some(f.(at := Check)))) else None
    case Direct => Some((b.(work := w.(ended := w.ended + [0])), None))
  }

  function Top(stack: Stack): Frame
    requires stack != []
  {
    stack[|stack| - 1]
  }

  function Below(stack: Stack): Stack
    requires stack != []
  {
    stack[..|stack| - 1]
  }

  function OptionSeq(f: Option<Frame>): Stack {
    match f
    case None => []
    case Some(g) => [g]
  }

  /** The user's code runs: a function of some batch, or code outside of all batches. */
  predicate InUserCode(stack: Stack) {
    stack == [] || Top(stack).at.Run? || Top(stack).at.Finale? || Top(stack).at.Direct?
  }

  function NewBatch(count: nat, kind: Kind, parent: Option<nat>): Batch {
    Batch(Nature(count, kind, parent), if kind.Inline? then Work(1, 0, [0], []) else Work(0, 0, [], []),
          Drainers(0, 0, 0, 0, 0), Finish(0, false, false))
  }

  /** The call of parallelFor or parallelForAsync: a count of zero is nothing to a parallelFor, and a count of one
      is called directly. */
  function Entry(count: nat, kind: Kind): Option<(Kind, At)> {
    match kind
    case Sync => if count == 0 then None else if count == 1 then Some((Inline, Direct)) else Some((Sync, Launch(0)))
    case Async => Some((Async, Launch(0)))
    case Inline => None
  }

  function Next(s: State, e: Event): Option<State> {
    match e
    case Step(t, spurious) =>
      if t >= |s.threads| || s.threads[t] == [] || Top(s.threads[t]).batch >= |s.batches| then None
      else
        var f := Top(s.threads[t]);
        (match BatchStep(s.batches[f.batch], f, s.workers, spurious)
         case None => None
         case Some((b, f')) =>
           Some(s.(batches := s.batches[f.batch := b], threads := s.threads[t := Below(s.threads[t]) + OptionSeq(f')])))
    case Call(t, count, kind) =>
      if t >= |s.threads| || !InUserCode(s.threads[t]) || Entry(count, kind).None? then None
      else
        var (k, at) := Entry(count, kind).value;
        var parent := if s.threads[t] == [] then None else Some(Top(s.threads[t]).batch);
        Some(s.(batches := s.batches + [NewBatch(count, k, parent)],
                threads := s.threads[t := s.threads[t] + [Frame(|s.batches|, true, at)]]))
    case TakeHelper(w, b) =>
      if w >= s.workers || w >= |s.threads| || s.threads[w] != [] then None
      else if b >= |s.batches| || s.batches[b].drainers.helpers == 0 then None
      else
        var x, d := s.batches[b], s.batches[b].drainers;
        Some(s.(batches := s.batches[b := x.(drainers := d.(helpers := d.helpers - 1, joined := d.joined + 1))],
                threads := s.threads[w := [Frame(b, false, if x.nature.count == 0 then Fire else Fetch)]]))
    case LoseHelper(b) =>
      if b >= |s.batches| || s.batches[b].drainers.helpers == 0 then None
      else
        var x, d := s.batches[b], s.batches[b].drainers;
        Some(s.(batches := s.batches[b := x.(drainers := d.(helpers := d.helpers - 1, lost := d.lost + 1))]))
  }

  function Initial(workers: nat, threads: nat): State {
    State(workers, [], seq(threads, _ => []))
  }

  ghost predicate IsStep(s: State, s': State) {
    exists e :: Next(s, e) == Some(s')
  }

  ghost predicate StepAt(run: seq<State>, i: nat)
    requires 0 < i < |run|
  {
    IsStep(run[i - 1], run[i])
  }

  ghost predicate IsRun(run: seq<State>) {
    && |run| > 0 && run[0] == Initial(run[0].workers, |run[0].threads|)
    && forall i :: 0 < i < |run| ==> StepAt(run, i)
  }
}
