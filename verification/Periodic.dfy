/**
 The periodic worker of threading/cperiodicexecutionthread.cpp as a state machine. One step is one section under
 the mutex, or the beginning or end of a call of the workload. To evaluate the predicate of a wait and to block is
 one section, because everything that the predicates read changes under the same mutex.
 */
module Periodic {
  import opened Basics

  /** Where the thread is. */
  datatype WorkerPc =
    | Delay           // about to wait out the delay before the start
    | DelayBlocked
    | Gate            // about to pass the gate, or to park
    | Parked
    | PassedGate      // about to call the workload
    | InWorkload
    | Period          // about to wait out the period
    | PeriodBlocked
    | PeriodOver      // the period has passed
    | Exited

  /** The owner, who starts and terminates the thread. */
  datatype OwnerPc = Free | Joining

  /** `blocked`: the thread is blocked on the condition variable and has not been notified. `calls` counts the calls
      of the workload that have begun. */
  datatype State = State(
    paused: bool, terminate: bool, joinable: bool, blocked: bool, worker: WorkerPc, owner: OwnerPc, calls: nat)

  /** How a blocked thread wakes. */
  datatype Waking = Notified | Spurious | TimedOut

  datatype Event =
    | Work(waking: Waking)
    | Pause
    | Resume
    | Start(delay: bool, hasWorkload: bool)
    | Terminate
    | Join

  function WorkerStep(s: State, waking: Waking): (State, bool) {
    var wakes := !s.blocked || !waking.Notified?;
    match s.worker
    case Delay =>
      if s.terminate then (s.(worker := Gate), true) else (s.(worker := DelayBlocked, blocked := true), true)
    case DelayBlocked =>
      if !wakes then (s, false)
      else (s.(worker := if waking.TimedOut? then Gate else Delay, blocked := false), true)
    case Gate =>
      if s.terminate then (s.(worker := Exited), true)
      else if !s.paused then (s.(worker := PassedGate), true)
      else (s.(worker := Parked, blocked := true), true)
    case Parked =>
      if s.blocked && !waking.Spurious? then (s, false) else (s.(worker := Gate, blocked := false), true)
    case PassedGate => (s.(worker := InWorkload, calls := s.calls + 1), true)
    case InWorkload => (s.(worker := Period), true)
    case Period =>
      if s.terminate then (s.(worker := Exited), true)
      else if s.paused then (s.(worker := Gate), true)
      else (s.(worker := PeriodBlocked, blocked := true), true)
    case PeriodBlocked =>
      if !wakes then (s, false)
      else (s.(worker := if waking.TimedOut? then PeriodOver else Period, blocked := false), true)
    case PeriodOver => (s.(worker := if s.terminate then Exited else Gate), true)
    case Exited => (s, false)
  }

  /** A step, and whether it is possible. */
  function Next(s: State, e: Event): (State, bool) {
    match e
    case Work(waking) => WorkerStep(s, waking)
    case Pause => (s.(paused := true, blocked := false), true)
    case Resume => (s.(paused := false, blocked := false), true)
    case Start(delay, hasWorkload) =>
      if s.joinable || s.owner.Joining? then (s, false)
      else (s.(joinable := true, worker := if !hasWorkload then Exited else if delay then Delay else Gate), true)
    case Terminate =>
      if !s.joinable || s.owner.Joining? then (s, false)
      else (s.(terminate := true, blocked := false, owner := Joining), true)
    case Join =>
      if s.owner.Joining? && s.worker.Exited? then (s.(terminate := false, joinable := false, owner := Free), true)
      else (s, false)
  }

  const INITIAL: State := State(false, false, false, false, Exited, Free, 0)

  /** A run: the state before and after each of a list of events. */
  ghost predicate IsRun(run: seq<State>, events: seq<Event>) {
    && |run| == |events| + 1 && run[0] == INITIAL
    && forall i :: 0 <= i < |events| ==> Next(run[i], events[i]) == (run[i + 1], true)
  }

  // ---- What is always true ----

  ghost predicate Inv(s: State) {
    && (s.terminate <==> s.owner.Joining?) && (s.owner.Joining? ==> s.joinable)
    && (!s.joinable ==> s.worker.Exited?)
    && (s.blocked ==> !s.terminate && (s.worker.DelayBlocked? || s.worker.Parked? || s.worker.PeriodBlocked?))
    && (s.blocked && s.worker.Parked? ==> s.paused)
    && (s.blocked && s.worker.PeriodBlocked? ==> !s.paused)
  }

  lemma StepKeepsInv(s: State, e: Event)
    requires Inv(s)
    ensures Inv(Next(s, e).0)
  {
  }

  lemma {:induction false} RunInv(run: seq<State>, events: seq<Event>, i: nat)
    requires IsRun(run, events) && i < |run|
    ensures Inv(run[i])
  {
    if i > 0 {
      RunInv(run, events, i - 1);
      StepKeepsInv(run[i - 1], events[i - 1]);
    }
  }

  /** A thread that is parked, and not notified, is parked because it is paused and not asked to terminate. */
  lemma ParkedMeansPaused(run: seq<State>, events: seq<Event>, i: nat)
    requires IsRun(run, events) && i < |run| && run[i].worker.Parked? && run[i].blocked
    ensures run[i].paused && !run[i].terminate
  {
    RunInv(run, events, i);
  }

  // ---- Pausing ----

  ghost predicate Without(events: seq<Event>, i: nat, j: nat, e: Event) {
    forall k :: i <= k < j && k < |events| ==> events[k] != e
  }

  /** The calls that have begun, and the one that is about to. */
  function Committed(s: State): nat {
    s.calls + One(s.worker.PassedGate?)
  }

  /** While paused, no further call is committed to. */
  lemma {:induction false} PausedCommitsNone(run: seq<State>, events: seq<Event>, i: nat, j: nat)
    requires IsRun(run, events) && i <= j < |run| && run[i].paused && Without(events, i, j, Resume)
    ensures run[j].paused && Committed(run[j]) == Committed(run[i])
  {
    if i < j {
      PausedCommitsNone(run, events, i, j - 1);
      RunInv(run, events, j - 1);
      assert Next(run[j - 1], events[j - 1]) == (run[j], true);
    }
  }

  /** Between a pause and the next resume, at most one call of the workload begins, and that only if the thread had
      passed the gate before the pause; whatever else happens, a termination and a new start included. */
  lemma AtMostOneCallWhilePaused(run: seq<State>, events: seq<Event>, i: nat, j: nat)
    requires IsRun(run, events) && i < j < |run| && events[i].Pause? && Without(events, i + 1, j, Resume)
    ensures run[j].calls <= run[i].calls + One(run[i].worker.PassedGate?)
  {
    assert Next(run[i], events[i]) == (run[i + 1], true);
    PausedCommitsNone(run, events, i + 1, j);
  }

  // ---- Terminating ----

  predicate StartsThread(e: Event) {
    e.Start?
  }

  /** Once terminate has returned, no call of the workload begins before the next start. */
  lemma {:induction false} NoCallAfterTerminate(run: seq<State>, events: seq<Event>, i: nat, j: nat)
    requires IsRun(run, events) && i <= j < |run| && !run[i].joinable
    requires forall k :: i <= k < j ==> !StartsThread(events[k])
    ensures run[j].calls == run[i].calls && !run[j].joinable
  {
    if i < j {
      NoCallAfterTerminate(run, events, i, j - 1);
      RunInv(run, events, j - 1);
      StepOfNobody(run[j - 1], events[j - 1], run[j]);
    }
  }

  lemma StepOfNobody(s: State, e: Event, s': State)
    requires Inv(s) && !s.joinable && Next(s, e) == (s', true) && !StartsThread(e)
    ensures s'.calls == s.calls && !s'.joinable
  {
  }

  /** terminate returns from its join only when the thread has exited. */
  lemma TerminateReturns(run: seq<State>, events: seq<Event>, i: nat)
    requires IsRun(run, events) && i < |events| && events[i].Join?
    ensures run[i].worker.Exited? && run[i].terminate && !run[i + 1].joinable && !run[i + 1].terminate
  {
    RunInv(run, events, i);
    assert Next(run[i], events[i]) == (run[i + 1], true);
  }

  /** How many steps a thread that has been asked to terminate has left. */
  function StepsLeft(pc: WorkerPc): nat {
    match pc
    case Exited => 0
    case Gate => 1
    case Period => 1
    case PeriodOver => 1
    case Delay => 2
    case Parked => 2
    case InWorkload => 2
    case PeriodBlocked => 2
    case DelayBlocked => 3
    case PassedGate => 3
  }

  /** A thread that has been asked to terminate can always make a step, and every step of it brings it closer to its
      exit: the join cannot wait for ever, unless a call of the workload does. */
  lemma TerminationIsNear(run: seq<State>, events: seq<Event>, i: nat, waking: Waking)
    requires IsRun(run, events) && i < |run| && run[i].terminate && !run[i].worker.Exited?
    ensures var (s', possible) := WorkerStep(run[i], waking);
      possible && StepsLeft(s'.worker) < StepsLeft(run[i].worker)
  {
    RunInv(run, events, i);
  }

  /** The thread ends only because it was asked to, or because it was started without a workload. */
  lemma ExitMeansTerminate(run: seq<State>, events: seq<Event>, i: nat)
    requires IsRun(run, events) && i < |events| && run[i + 1].worker.Exited? && !run[i].worker.Exited?
    ensures events[i].Work? && run[i].terminate
  {
    RunInv(run, events, i);
    assert Next(run[i], events[i]) == (run[i + 1], true);
  }

  /** A thread that is started with a workload is there, before its first call; one without a workload ends at once. */
  lemma StartedThreadIsThere(run: seq<State>, events: seq<Event>, i: nat)
    requires IsRun(run, events) && i < |events| && events[i].Start?
    ensures run[i + 1].joinable && run[i + 1].calls == run[i].calls
    ensures run[i + 1].worker == if !events[i].hasWorkload then Exited else if events[i].delay then Delay else Gate
  {
    assert Next(run[i], events[i]) == (run[i + 1], true);
  }

  /** The delay before the first call is waited out in full, unless the thread is asked to terminate: neither a pause
      nor a resume cuts it short. */
  lemma DelayIsWaitedOut(run: seq<State>, events: seq<Event>, i: nat, waking: Waking)
    requires IsRun(run, events) && i < |run| && !run[i].terminate && !waking.TimedOut?
    requires run[i].worker.Delay? || run[i].worker.DelayBlocked?
    ensures var (s', possible) := WorkerStep(run[i], waking);
      possible ==> (s'.worker.Delay? || s'.worker.DelayBlocked?) && s'.calls == run[i].calls
  {
  }

  // ---- The loop ----

  /** How many steps a thread has left to its next call of the workload, when its waits are timed out and nobody pauses
      or terminates it. */
  function StepsToNextCall(pc: WorkerPc): nat {
    match pc
    case PassedGate => 1
    case Gate => 2
    case Parked => 3
    case DelayBlocked => 3
    case PeriodOver => 3
    case Delay => 4
    case PeriodBlocked => 4
    case Period => 5
    case InWorkload => 6
    case Exited => 7
  }

  /** A thread that is neither paused nor asked to terminate calls the workload again and again: from wherever it is, it
      can make a step, at the latest when its wait times out, and every such step brings it closer to the next call, or
      is that call. */
  lemma RunningThreadCalls(run: seq<State>, events: seq<Event>, i: nat)
    requires IsRun(run, events) && i < |run| && !run[i].worker.Exited? && !run[i].paused && !run[i].terminate
    ensures var (s', possible) := WorkerStep(run[i], TimedOut);
      && possible && !s'.worker.Exited?
      && if run[i].worker.PassedGate? then s'.worker.InWorkload? && s'.calls == run[i].calls + 1
         else s'.calls == run[i].calls && StepsToNextCall(s'.worker) < StepsToNextCall(run[i].worker)
  {
    RunInv(run, events, i);
  }

  /** A period is waited out in full unless it is cut short: the thread leaves it for the gate only on the timeout, a
      pause or a termination. */
  lemma PeriodIsWaitedOut(run: seq<State>, events: seq<Event>, i: nat, waking: Waking)
    requires IsRun(run, events) && i < |run| && !run[i].paused && !run[i].terminate && !waking.TimedOut?
    requires run[i].worker.Period? || run[i].worker.PeriodBlocked?
    ensures var (s', possible) := WorkerStep(run[i], waking);
      possible ==> s'.worker.Period? || s'.worker.PeriodBlocked?
  {
  }

  /** How many steps a paused thread has left until it parks. */
  function StepsToPark(pc: WorkerPc): nat {
    match pc
    case Parked => 0
    case Gate => 1
    case Period => 2
    case PeriodOver => 2
    case DelayBlocked => 2
    case PeriodBlocked => 3
    case Delay => 3
    case InWorkload => 3
    case PassedGate => 4
    case Exited => 5
  }

  /** A thread that is paused parks: from wherever it is, it can make a step, at the latest when its delay times out,
      and every such step brings it closer to the place where it is blocked until it is resumed; from its period it
      comes there without any wait. */
  lemma PausedThreadParks(run: seq<State>, events: seq<Event>, i: nat, waking: Waking)
    requires IsRun(run, events) && i < |run| && run[i].paused && !run[i].terminate
    requires !run[i].worker.Exited? && !run[i].worker.Parked?
    requires run[i].worker.DelayBlocked? ==> waking.TimedOut?
    ensures var (s', possible) := WorkerStep(run[i], waking);
      && possible && StepsToPark(s'.worker) < StepsToPark(run[i].worker)
      && (s'.worker.Parked? ==> s'.blocked)
  {
    RunInv(run, events, i);
  }

  // ---- Resuming ----

  /** How many steps a thread that is not paused has left to its next call, if it does not have to wait out a period
      or a delay. */
  function StepsToCall(pc: WorkerPc): nat {
    match pc
    case PassedGate => 1
    case Gate => 2
    case PeriodOver => 3
    case Parked => 3
    case _ => 4
  }

  /** A parked thread that is resumed calls the workload again at once: it can make a step, and every step brings it
      closer to the call, with no wait on the way. */
  lemma ResumedRunsAtOnce(run: seq<State>, events: seq<Event>, i: nat, waking: Waking)
    requires IsRun(run, events) && i < |run| && !run[i].paused && !run[i].terminate
    requires run[i].worker.Parked? || run[i].worker.Gate? || run[i].worker.PassedGate?
    ensures var (s', possible) := WorkerStep(run[i], waking);
      possible && (s'.calls == run[i].calls + 1 || StepsToCall(s'.worker) < StepsToCall(run[i].worker))
  {
    RunInv(run, events, i);
  }

  // ---- The code ----

  lemma RunGrows(run: seq<State>, events: seq<Event>, e: Event, s: State)
    requires IsRun(run, events) && Next(run[|run| - 1], e) == (s, true)
    ensures IsRun(run + [s], events + [e])
  {
    forall i | 0 <= i < |events + [e]| ensures Next((run + [s])[i], (events + [e])[i]) == ((run + [s])[i + 1], true) {
      if i < |events| {
        assert Next(run[i], events[i]) == (run[i + 1], true);
      }
    }
  }

  predicate IsForeign(e: Event) {
    !e.Work?
  }

  /** The object and its thread. Between two sections of the thread, other threads do what the schedule holds. */
  class PeriodicThread {
    var paused: bool
    var terminate: bool
    var joinable: bool
    var blocked: bool
    var worker: WorkerPc
    var owner: OwnerPc
    var calls: nat
    var schedule: seq<seq<Event>>
    ghost var run: seq<State>
    ghost var events: seq<Event>

    function Now(): State
      reads this
    {
      State(paused, terminate, joinable, blocked, worker, owner, calls)
    }

    ghost predicate Valid()
      reads this
    {
      IsRun(run, events) && run[|run| - 1] == Now()
    }

    /** One step of the machine, and nothing else. */
    twostate predicate Stepped(e: Event)
      reads this
    {
      && Valid() && Next(old(Now()), e) == (Now(), true) && run == old(run) + [Now()] && events == old(events) + [e]
      && schedule == old(schedule)
    }

    constructor (schedule: seq<seq<Event>>)
      ensures Valid() && Now() == INITIAL && this.schedule == schedule
    {
      paused, terminate, joinable, blocked, worker, owner, calls := false, false, false, false, Exited, Free, 0;
      this.schedule, run, events := schedule, [INITIAL], [];
    }

    ghost method Record(e: Event, before: State)
      requires IsRun(run, events) && run[|run| - 1] == before && Next(before, e) == (Now(), true)
      modifies this`run, this`events
      ensures Valid() && run == old(run) + [Now()] && events == old(events) + [e]
    {
      RunGrows(run, events, e, Now());
      run, events := run + [Now()], events + [e];
    }

    method PauseThread()
      requires Valid()
      modifies this
      ensures Stepped(Pause) && paused
    {
      ghost var before := Now();
      paused, blocked := true, false;
      Record(Pause, before);
    }

    method ResumeThread()
      requires Valid()
      modifies this
      ensures Stepped(Resume) && !paused
    {
      ghost var before := Now();
      paused, blocked := false, false;
      Record(Resume, before);
    }

    /** terminate up to the join; nothing if the thread is not running. */
    method RequestTermination()
      requires Valid() && owner.Free?
      modifies this
      ensures if old(joinable) then Stepped(Terminate) && terminate else Now() == old(Now()) && Valid()
    {
      if joinable {
        ghost var before := Now();
        terminate, blocked, owner := true, false, Joining;
        Record(Terminate, before);
      }
    }

    /** terminate after the thread has exited. */
    method FinishJoin()
      requires Valid() && owner.Joining? && worker.Exited?
      modifies this
      ensures Stepped(Join) && !terminate && !joinable
    {
      ghost var before := Now();
      terminate, joinable, owner := false, false, Free;
      Record(Join, before);
    }

    method StartThread(delay: bool, hasWorkload: bool)
      requires Valid() && !joinable && owner.Free?
      modifies this
      ensures Stepped(Start(delay, hasWorkload)) && joinable
    {
      ghost var before := Now();
      joinable, worker := true, if !hasWorkload then Exited else if delay then Delay else Gate;
      Record(Start(delay, hasWorkload), before);
    }

    /** The other threads have their turn. */
    method Others()
      requires Valid()
      modifies this
      ensures Valid() && worker == old(worker) && calls == old(calls) && old(run) <= run
      ensures schedule == if old(schedule) == [] then [] else old(schedule)[1..]
    {
      if schedule == [] {
        return;
      }
      var acts := schedule[0];
      schedule := schedule[1..];
      for i := 0 to |acts|
        invariant Valid() && worker == old(worker) && calls == old(calls) && old(run) <= run
        invariant schedule == old(schedule)[1..]
      {
        Happen(acts[i]);
      }
    }

    /** What another thread does, if it is possible and does not start the thread anew. */
    method Happen(act: Event)
      requires Valid()
      modifies this
      ensures Valid() && worker == old(worker) && calls == old(calls) && old(run) <= run && schedule == old(schedule)
    {
      var (s, possible) := Next(Now(), act);
      if possible && IsForeign(act) && s.worker == worker {
        RunGrows(run, events, act, s);
        paused, terminate, joinable := s.paused, s.terminate, s.joinable;
        blocked, owner, calls := s.blocked, s.owner, s.calls;
        run, events := run + [s], events + [act];
      }
    }

    // ---- threadFunc ----

    /** The wait for the delay before the start, which only a termination cuts short; the gate then ends it. */
    method WaitOutDelay()
      requires Valid() && worker.Delay?
      modifies this
      ensures Valid() && old(run) <= run && |schedule| <= old(|schedule|) && worker.Gate? && calls == old(calls)
    {
      EvaluateDelay();
      while worker.DelayBlocked? && schedule != []
        invariant Valid() && old(run) <= run && |schedule| <= old(|schedule|) && calls == old(calls)
        invariant worker.DelayBlocked? || worker.Gate?
        decreases |schedule|
      {
        Others();
        var timedOut: bool := *;
        if timedOut {
          EndDelay();
          return;
        }
        AwaitNotification();
        if !blocked {
          WakeInDelay();
          EvaluateDelay();
        }
      }
      if worker.DelayBlocked? {
        EndDelay();
      }
    }

    method EvaluateDelay()
      requires Valid() && worker.Delay?
      modifies this
      ensures Stepped(Work(Notified)) && calls == old(calls) && worker == if terminate then Gate else DelayBlocked
    {
      ghost var before := Now();
      if terminate {
        worker := Gate;
      } else {
        worker, blocked := DelayBlocked, true;
      }
      Record(Work(Notified), before);
    }

    method WakeInDelay()
      requires Valid() && worker.DelayBlocked? && !blocked
      modifies this
      ensures Stepped(Work(Notified)) && calls == old(calls) && worker.Delay?
    {
      ghost var before := Now();
      worker := Delay;
      Record(Work(Notified), before);
    }

    method EndDelay()
      requires Valid() && worker.DelayBlocked?
      modifies this
      ensures Stepped(Work(TimedOut)) && calls == old(calls) && worker.Gate?
    {
      ghost var before := Now();
      worker, blocked := Gate, false;
      Record(Work(TimedOut), before);
    }

    /** The section at the gate: the thread ends, goes on, or parks. */
    method EvaluateGate()
      requires Valid() && worker.Gate?
      modifies this
      ensures Stepped(Work(Notified))
      ensures worker == if terminate then Exited else if paused then Parked else PassedGate
      ensures calls == old(calls)
      ensures blocked == if worker.Parked? then true else old(blocked)
    {
      ghost var before := Now();
      if terminate {
        worker := Exited;
      } else if !paused {
        worker := PassedGate;
      } else {
        worker, blocked := Parked, true;
      }
      Record(Work(Notified), before);
    }

    method WakeAtGate()
      requires Valid() && worker.Parked? && !blocked
      modifies this
      ensures Stepped(Work(Notified)) && worker.Gate? && calls == old(calls)
    {
      ghost var before := Now();
      worker := Gate;
      Record(Work(Notified), before);
    }

    method BeginWorkload()
      requires Valid() && worker.PassedGate?
      modifies this
      ensures Stepped(Work(Notified)) && worker.InWorkload? && calls == old(calls) + 1
    {
      ghost var before := Now();
      worker, calls := InWorkload, calls + 1;
      Record(Work(Notified), before);
    }

    method EndWorkload()
      requires Valid() && worker.InWorkload?
      modifies this
      ensures Stepped(Work(Notified)) && worker.Period? && calls == old(calls)
    {
      ghost var before := Now();
      worker := Period;
      Record(Work(Notified), before);
    }

    /** The section before the wait for the end of the period. */
    method EvaluatePeriod()
      requires Valid() && worker.Period?
      modifies this
      ensures Stepped(Work(Notified))
      ensures worker == if terminate then Exited else if paused then Gate else PeriodBlocked
      ensures calls == old(calls)
    {
      ghost var before := Now();
      if terminate {
        worker := Exited;
      } else if paused {
        worker := Gate;
      } else {
        worker, blocked := PeriodBlocked, true;
      }
      Record(Work(Notified), before);
    }

    method WakeInPeriod()
      requires Valid() && worker.PeriodBlocked? && !blocked
      modifies this
      ensures Stepped(Work(Notified)) && worker.Period? && calls == old(calls)
    {
      ghost var before := Now();
      worker := Period;
      Record(Work(Notified), before);
    }

    /** The period has passed: the termination is looked at once more, the pause is left to the gate. */
    method EndPeriod()
      requires Valid() && worker.PeriodBlocked?
      modifies this
      ensures Valid() && old(run) <= run && schedule == old(schedule) && calls == old(calls)
      ensures worker == if terminate then Exited else Gate
    {
      ghost var before := Now();
      worker, blocked := PeriodOver, false;
      Record(Work(TimedOut), before);
      before := Now();
      worker := if terminate then Exited else Gate;
      Record(Work(Notified), before);
    }

    /** The thread is blocked, until it is notified or nothing more happens. */
    method AwaitNotification()
      requires Valid()
      modifies this
      ensures Valid() && old(run) <= run && |schedule| <= old(|schedule|)
      ensures worker == old(worker) && calls == old(calls)
      ensures blocked ==> schedule == []
    {
      while blocked && schedule != []
        invariant Valid() && worker == old(worker) && calls == old(calls) && old(run) <= run
        invariant |schedule| <= old(|schedule|)
        decreases |schedule|
      {
        Others();
      }
    }

    /** The thread has parked, and nobody has notified it: it is paused. */
    predicate IsParked()
      reads this
    {
      worker.Parked? && blocked && paused
    }

    lemma ParkedIsPaused()
      requires Valid()
      ensures worker.Parked? && blocked ==> IsParked()
    {
      if worker.Parked? && blocked {
        ParkedMeansPaused(run, events, |run| - 1);
      }
    }

    /** The wait at the gate, for as long as the schedule lasts. */
    method WaitAtGate()
      requires Valid() && worker.Gate?
      modifies this
      ensures Valid() && old(run) <= run && |schedule| <= old(|schedule|) && calls == old(calls)
      ensures worker.PassedGate? || (worker.Exited? && terminate) || (IsParked() && schedule == [])
    {
      EvaluateGate();
      while worker.Parked? && schedule != []
        invariant Valid() && old(run) <= run && |schedule| <= old(|schedule|) && calls == old(calls)
        invariant (worker.Parked? && blocked) || worker.PassedGate? || (worker.Exited? && terminate)
        decreases |schedule|
      {
        Others();
        AwaitNotification();
        if !blocked {
          WakeAtGate();
          EvaluateGate();
        }
      }
      ParkedIsPaused();
    }

    /** The wait for the end of the period, which a pause or a termination cuts short. */
    method WaitOutPeriod()
      requires Valid() && worker.Period?
      modifies this
      ensures Valid() && old(run) <= run && |schedule| <= old(|schedule|) && calls == old(calls)
      ensures worker.Gate? || (worker.Exited? && terminate)
    {
      EvaluatePeriod();
      while worker.PeriodBlocked? && schedule != []
        invariant Valid() && old(run) <= run && |schedule| <= old(|schedule|) && calls == old(calls)
        invariant worker.PeriodBlocked? || worker.Gate? || (worker.Exited? && terminate)
        decreases |schedule|
      {
        Others();
        var timedOut: bool := *;
        if timedOut {
          EndPeriod();
          return;
        }
        AwaitNotification();
        if !blocked {
          WakeInPeriod();
          EvaluatePeriod();
        }
      }
      if worker.PeriodBlocked? {
        EndPeriod();
      }
    }

    /** The delay, and the main loop, for as long as the schedule lasts, and then for as many rounds: the thread exits
        only on a termination; otherwise it has parked because it is paused, or has called the workload once a round. */
    method ThreadFunc(rounds: nat) returns (exited: bool)
      requires Valid() && (worker.Delay? || worker.Gate?)
      modifies this
      ensures Valid() && old(run) <= run
      ensures exited ==> worker.Exited? && terminate
      ensures !exited ==> schedule == [] && (IsParked() || calls >= old(calls) + rounds)
    {
      if worker.Delay? {
        WaitOutDelay();
      }
      var left := rounds;
      while worker.Gate? && (schedule != [] || left > 0)
        invariant Valid() && old(run) <= run && (worker.Gate? || (worker.Exited? && terminate))
        invariant left <= rounds && (worker.Gate? ==> calls >= old(calls) + rounds - left)
        decreases |schedule|, left
      {
        if schedule == [] {
          left := left - 1;
        }
        Others();
        WaitAtGate();
        if worker.PassedGate? {
          CallWorkload();
          WaitOutPeriod();
        } else if worker.Parked? {
          return false;
        }
      }
      exited := worker.Exited?;
    }

    method CallWorkload()
      requires Valid() && worker.PassedGate?
      modifies this
      ensures Valid() && old(run) <= run && |schedule| <= old(|schedule|) && worker.Period? && calls == old(calls) + 1
    {
      Others();
      BeginWorkload();
      Others();
      EndWorkload();
    }
  }
}
