/**
 The queue of delayed tasks of threading/cexecutionqueue.h. A task may use the queue while it runs: its code is a
 finite list of calls, and may end in a throw. Other threads use the queue too, between any two sections under its
 mutex: `others` holds what they do.
 */
module ExecutionQueue {
  import opened Basics

  const UNTAGGED: int := -1

  datatype ExecutionMode = ExecFirst | ExecAll

  datatype Code = Code(calls: seq<Call>)

  datatype Call = Enqueue(code: Option<Code>, tag: int) | Clear | Exec(mode: ExecutionMode) | Throw

  /** `stamp` names the task: tasks are numbered in the order in which they are enqueued. */
  datatype QueuedTask = QueuedTask(tag: int, code: Option<Code>, stamp: nat)

  /** What another thread does under the mutex. */
  datatype Foreign = ForeignEnqueue(code: Option<Code>, tag: int) | ForeignClear | ForeignPop

  datatype Fate = Taken | Replaced | Cleared

  // ---- Sizes, for termination ----

  function CallsSize(calls: seq<Call>): nat {
    if calls == [] then 0 else CallSize(calls[0]) + CallsSize(calls[1..])
  }

  function CallSize(c: Call): (n: nat)
    ensures n > 0
  {
    match c
    case Enqueue(code, _) => 1 + CodeSize(code)
    case _ => 1
  }

  function CodeSize(code: Option<Code>): (n: nat)
    ensures n > 0
  {
    match code
    case None => 1
    case Some(c) => 1 + CallsSize(c.calls)
  }

  function QueueSize(q: seq<QueuedTask>): nat {
    if q == [] then 0 else CodeSize(q[0].code) + QueueSize(q[1..])
  }

  function OthersSize(others: seq<seq<Foreign>>): nat {
    if others == [] then 0 else ForeignSize(others[0]) + OthersSize(others[1..])
  }

  function ForeignSize(acts: seq<Foreign>): nat {
    if acts == [] then 0
    else (match acts[0] case ForeignEnqueue(code, _) => CodeSize(code) case _ => 0) + ForeignSize(acts[1..])
  }

  lemma {:induction false} QueueSizeConcat(a: seq<QueuedTask>, b: seq<QueuedTask>)
    ensures QueueSize(a + b) == QueueSize(a) + QueueSize(b)
  {
    if a == [] {
      assert a + b == b;
    } else {
      assert (a + b)[1..] == a[1..] + b;
      QueueSizeConcat(a[1..], b);
    }
  }

  // ---- What is always true of the queue ----

  predicate InOrder(q: seq<QueuedTask>) {
    forall i, j :: 0 <= i < j < |q| ==> q[i].stamp < q[j].stamp
  }

  predicate OneTaskPerTag(q: seq<QueuedTask>) {
    forall i, j :: 0 <= i < j < |q| && q[i].tag == q[j].tag ==> q[i].tag == UNTAGGED
  }

  predicate Holds(q: seq<QueuedTask>, stamp: nat) {
    exists i :: 0 <= i < |q| && q[i].stamp == stamp
  }

  /** The tasks that were enqueued before `stamp` was given and whose fate is open. */
  ghost function Pending(fates: map<nat, Fate>, stamp: nat): set<nat> {
    set x: nat | x < stamp && x !in fates
  }

  lemma PendingShrinks(fates: map<nat, Fate>, fates': map<nat, Fate>, stamp: nat)
    requires forall x: nat :: x in fates ==> x in fates'
    ensures Pending(fates', stamp) <= Pending(fates, stamp)
  {
  }

  function Stamps(q: seq<QueuedTask>): set<nat> {
    if q == [] then {} else {q[0].stamp} + Stamps(q[1..])
  }

  lemma {:induction false} StampsHeld(q: seq<QueuedTask>)
    ensures |Stamps(q)| <= |q| && forall x: nat :: x in Stamps(q) <==> Holds(q, x)
  {
    if q != [] {
      StampsHeld(q[1..]);
      assert q == [q[0]] + q[1..];
      forall x: nat ensures x in Stamps(q) <==> Holds(q, x) {
        if Holds(q[1..], x) {
          var i :| 0 <= i < |q| - 1 && q[1..][i].stamp == x;
          assert q[i + 1].stamp == x;
        }
        if Holds(q, x) && x != q[0].stamp {
          var i :| 0 <= i < |q| && q[i].stamp == x;
          assert q[1..][i - 1].stamp == x;
        }
      }
    }
  }

  /** Where the first task with the tag is; behind the last task if there is none, or if the tag is no tag. */
  function Position(q: seq<QueuedTask>, tag: int): (i: nat)
    ensures i <= |q| && (i < |q| ==> q[i].tag == tag && tag != UNTAGGED)
    ensures tag != UNTAGGED ==> forall j :: 0 <= j < i ==> q[j].tag != tag
  {
    if q == [] then 0
    else if q[0].tag == tag && tag != UNTAGGED then 0
    else
      var i := Position(q[1..], tag);
      assert forall j :: 0 < j < i + 1 ==> q[j] == q[1..][j - 1];
      i + 1
  }

  lemma {:induction false} PositionIs(q: seq<QueuedTask>, tag: int, i: nat)
    requires i <= |q| && (i < |q| ==> q[i].tag == tag && tag != UNTAGGED)
    requires tag == UNTAGGED || forall j :: 0 <= j < i ==> q[j].tag != tag
    ensures Position(q, tag) == i
  {
    if i > 0 {
      PositionIs(q[1..], tag, i - 1);
    }
  }

  /** The queue without the task that a new one with this tag replaces. */
  function WithoutTag(q: seq<QueuedTask>, tag: int): seq<QueuedTask> {
    var i := Position(q, tag);
    if i < |q| then RemoveAt(q, i) else q
  }

  /** To take out the first task with a tag is to take out all of them, because there is no other. */
  lemma WithoutTagHasNone(q: seq<QueuedTask>, tag: int)
    requires OneTaskPerTag(q) && tag != UNTAGGED
    ensures forall t :: t in WithoutTag(q, tag) <==> t in q && t.tag != tag
  {
    var i, r := Position(q, tag), WithoutTag(q, tag);
    if i < |q| {
      assert forall k :: 0 <= k < |r| ==> r[k] == if k < i then q[k] else q[k + 1];
      forall t | t in q && t.tag != tag ensures t in r {
        var k :| 0 <= k < |q| && q[k] == t;
        assert r[if k < i then k else k - 1] == t;
      }
    }
  }

  method FindTag(q: seq<QueuedTask>, tag: int) returns (i: nat)
    ensures i <= |q| && (i < |q| ==> q[i].tag == tag)
    ensures forall j :: 0 <= j < i ==> q[j].tag != tag
  {
    i := 0;
    while i < |q| && q[i].tag != tag
      invariant i <= |q| && forall j :: 0 <= j < i ==> q[j].tag != tag
    {
      i := i + 1;
    }
  }

  function RemoveAt(q: seq<QueuedTask>, i: nat): seq<QueuedTask>
    requires i < |q|
  {
    q[..i] + q[i + 1..]
  }

  lemma RemovalAt(q: seq<QueuedTask>, i: nat, k: nat)
    requires i < |q| && k < |q| - 1
    ensures RemoveAt(q, i)[k] == if k < i then q[k] else q[k + 1]
  {
  }

  lemma RemovalKeepsOrder(q: seq<QueuedTask>, i: nat)
    requires InOrder(q) && OneTaskPerTag(q) && i < |q|
    ensures InOrder(RemoveAt(q, i)) && OneTaskPerTag(RemoveAt(q, i))
  {
    forall k | 0 <= k < |q| - 1 ensures RemoveAt(q, i)[k] == if k < i then q[k] else q[k + 1] {
      RemovalAt(q, i, k);
    }
  }

  lemma RemovalHolds(q: seq<QueuedTask>, i: nat, x: nat)
    requires InOrder(q) && i < |q|
    ensures Holds(RemoveAt(q, i), x) <==> Holds(q, x) && x != q[i].stamp
  {
    var r := RemoveAt(q, i);
    if Holds(q, x) && x != q[i].stamp {
      var k :| 0 <= k < |q| && q[k].stamp == x;
      RemovalAt(q, i, if k < i then k else k - 1);
    }
    if Holds(r, x) {
      var k :| 0 <= k < |r| && r[k].stamp == x;
      RemovalAt(q, i, k);
      assert q[if k < i then k else k + 1].stamp == x;
    }
  }

  lemma {:induction false} RemovalSize(q: seq<QueuedTask>, i: nat)
    requires i < |q|
    ensures QueueSize(RemoveAt(q, i)) == QueueSize(q) - CodeSize(q[i].code)
    decreases i
  {
    if i == 0 {
      assert RemoveAt(q, 0) == q[1..];
    } else {
      RemovalSize(q[1..], i - 1);
      RemovalBehind(q, i);
      QueueSizeCons(q[0], RemoveAt(q[1..], i - 1));
    }
  }

  lemma RemovalBehind(q: seq<QueuedTask>, i: nat)
    requires 0 < i < |q|
    ensures RemoveAt(q, i) == [q[0]] + RemoveAt(q[1..], i - 1)
  {
    assert q[..i] == [q[0]] + q[1..][..i - 1] && q[i + 1..] == q[1..][i..];
  }

  lemma QueueSizeCons(t: QueuedTask, q: seq<QueuedTask>)
    ensures QueueSize([t] + q) == CodeSize(t.code) + QueueSize(q)
  {
    assert ([t] + q)[1..] == q;
  }

  /** Every task ever enqueued is in the queue, or has met one fate. */
  ghost predicate Accounted(q: seq<QueuedTask>, next: nat, fates: map<nat, Fate>) {
    && (forall i :: 0 <= i < |q| ==> q[i].stamp < next)
    && (forall x: nat :: x in fates || Holds(q, x) <==> x < next)
    && (forall x: nat :: !(x in fates && Holds(q, x)))
  }

  /** Tasks have been taken in the order in which they were enqueued. */
  ghost predicate TakenInOrder(q: seq<QueuedTask>, fates: map<nat, Fate>, taken: seq<nat>) {
    && Increasing(taken) && (forall i :: 0 <= i < |taken| ==> taken[i] in fates && fates[taken[i]] == Taken)
    && (taken != [] ==> forall i :: 0 <= i < |q| ==> taken[|taken| - 1] < q[i].stamp)
  }

  lemma RemovalKeepsAccount(q: seq<QueuedTask>, next: nat, fates: map<nat, Fate>, i: nat, fate: Fate)
    requires InOrder(q) && Accounted(q, next, fates) && i < |q|
    ensures Accounted(RemoveAt(q, i), next, fates[q[i].stamp := fate]) && q[i].stamp !in fates
  {
    var r := RemoveAt(q, i);
    forall k | 0 <= k < |r| ensures r[k].stamp < next {
      RemovalAt(q, i, k);
    }
    assert Holds(q, q[i].stamp);
    forall x: nat ensures Holds(r, x) <==> Holds(q, x) && x != q[i].stamp {
      RemovalHolds(q, i, x);
    }
  }

  lemma RemovalKeepsTaken(q: seq<QueuedTask>, next: nat, fates: map<nat, Fate>, taken: seq<nat>, i: nat, fate: Fate)
    requires InOrder(q) && Accounted(q, next, fates) && TakenInOrder(q, fates, taken) && i < |q|
    ensures TakenInOrder(RemoveAt(q, i), fates[q[i].stamp := fate], taken)
  {
    assert Holds(q, q[i].stamp);
    forall k | 0 <= k < |q| - 1 ensures RemoveAt(q, i)[k] == if k < i then q[k] else q[k + 1] {
      RemovalAt(q, i, k);
    }
  }

  lemma PopKeepsTaken(q: seq<QueuedTask>, next: nat, fates: map<nat, Fate>, taken: seq<nat>)
    requires InOrder(q) && Accounted(q, next, fates) && TakenInOrder(q, fates, taken) && q != []
    ensures TakenInOrder(q[1..], fates[q[0].stamp := Taken], taken + [q[0].stamp])
  {
    var taken' := taken + [q[0].stamp];
    forall i, j | 0 <= i < j < |taken'| ensures taken'[i] < taken'[j] {
      if j == |taken| && i < |taken| - 1 {
        assert taken[i] < taken[|taken| - 1];
      }
    }
  }

  lemma FrontKeeps(q: seq<QueuedTask>, next: nat, fates: map<nat, Fate>, taken: seq<nat>)
    requires InOrder(q) && OneTaskPerTag(q) && Accounted(q, next, fates) && TakenInOrder(q, fates, taken) && q != []
    ensures InOrder(q[1..]) && OneTaskPerTag(q[1..]) && q[0].stamp !in fates
    ensures Accounted(q[1..], next, fates[q[0].stamp := Taken])
    ensures TakenInOrder(q[1..], fates[q[0].stamp := Taken], taken + [q[0].stamp])
  {
    FrontAccount(q, next, fates);
    PopKeepsTaken(q, next, fates, taken);
  }

  lemma FrontAccount(q: seq<QueuedTask>, next: nat, fates: map<nat, Fate>)
    requires InOrder(q) && Accounted(q, next, fates) && q != []
    ensures Accounted(q[1..], next, fates[q[0].stamp := Taken]) && q[0].stamp !in fates
  {
    assert RemoveAt(q, 0) == q[1..];
    RemovalKeepsAccount(q, next, fates, 0, Taken);
  }

  lemma ClearKeepsAccount(q: seq<QueuedTask>, next: nat, fates: map<nat, Fate>, gone: map<nat, Fate>)
    requires Accounted(q, next, fates) && forall x: nat :: Holds(q, x) <==> x in gone
    ensures Accounted([], next, fates + gone)
  {
    forall x: nat ensures x in fates + gone <==> x < next {
      assert x in fates || Holds(q, x) <==> x < next;
    }
  }

  lemma AppendedSize(q: seq<QueuedTask>, t: QueuedTask)
    ensures QueueSize(q + [t]) == QueueSize(q) + CodeSize(t.code)
  {
    QueueSizeConcat(q, [t]);
    assert [t][1..] == [];
  }

  lemma AppendKeepsAccount(q: seq<QueuedTask>, t: QueuedTask, next: nat, fates: map<nat, Fate>, taken: seq<nat>)
    requires Accounted(q, next, fates) && TakenInOrder(q, fates, taken) && t.stamp == next
    ensures Accounted(q + [t], next + 1, fates) && TakenInOrder(q + [t], fates, taken)
  {
    forall x: nat ensures Holds(q + [t], x) <==> Holds(q, x) || x == next {
      HoldsAppended(q, t, x);
    }
  }

  // ---- What a task does ----

  /** The calls that a task makes: its code up to a throw. */
  function UpToThrow(calls: seq<Call>): seq<Call> {
    if calls == [] || calls[0].Throw? then [] else [calls[0]] + UpToThrow(calls[1..])
  }

  function CallsOf(code: Option<Code>): seq<Call> {
    match code
    case None => []
    case Some(c) => UpToThrow(c.calls)
  }

  predicate NoThrow(calls: seq<Call>, n: nat)
    requires n <= |calls|
  {
    forall i :: 0 <= i < n ==> !calls[i].Throw?
  }

  lemma NextCall(calls: seq<Call>, i: nat)
    requires i < |calls|
    ensures CallsSize(calls[i..]) == CallSize(calls[i]) + CallsSize(calls[i + 1..])
    ensures calls[..i + 1] == calls[..i] + [calls[i]]
  {
    assert calls[i..][1..] == calls[i + 1..];
  }

  lemma {:induction false} UpToThrowAt(calls: seq<Call>, n: nat)
    requires n <= |calls| && NoThrow(calls, n) && (n < |calls| ==> calls[n].Throw?)
    ensures UpToThrow(calls) == calls[..n]
  {
    if n > 0 {
      UpToThrowAt(calls[1..], n - 1);
      assert calls[..n] == [calls[0]] + calls[1..][..n - 1];
    }
  }

  /** What task x has done, by a log of calls and of the tasks that made them. */
  function DoneBy(log: seq<(nat, Call)>, x: nat): seq<Call> {
    if log == [] then []
    else
      var n := |log| - 1;
      DoneBy(log[..n], x) + (if log[n].0 == x then [log[n].1] else [])
  }

  lemma DoneBySnoc(log: seq<(nat, Call)>, y: nat, c: Call, x: nat)
    ensures DoneBy(log + [(y, c)], x) == DoneBy(log, x) + if x == y then [c] else []
  {
    assert (log + [(y, c)])[..|log|] == log;
  }

  /** What is recorded of a queue: the fates of its tasks; those that were taken, in order; the code of every task that
      was ever enqueued; the tasks that an exec of this thread has taken; and the calls that these have made, in the
      order in which they were made, with the tasks that made them. */
  datatype Book = Book(
    fates: map<nat, Fate>, taken: seq<nat>, codes: seq<Option<Code>>, mine: set<nat>, log: seq<(nat, Call)>)

  /** The codes of the queued tasks are on record, and only tasks that were taken have done anything. */
  ghost predicate OnRecord(q: seq<QueuedTask>, b: Book) {
    && (forall i :: 0 <= i < |q| ==> q[i].stamp < |b.codes| && b.codes[q[i].stamp] == q[i].code)
    && (forall x: nat :: x in b.mine ==> x in b.fates && x < |b.codes|)
    && (forall x: nat :: x !in b.mine ==> DoneBy(b.log, x) == [])
  }

  /** The queue is in order and holds one task per tag; every task is accounted for. */
  ghost predicate Orderly(q: seq<QueuedTask>, next: nat, b: Book) {
    && InOrder(q) && OneTaskPerTag(q) && Accounted(q, next, b.fates) && TakenInOrder(q, b.fates, b.taken)
    && OnRecord(q, b) && |b.codes| == next
  }

  /** Whatever is done with the queue: fates stay, and tasks are taken one after the other. */
  ghost predicate Grows(a: Book, b: Book) {
    && a.taken <= b.taken && a.codes <= b.codes && a.mine <= b.mine
    && (forall x: nat :: x in a.fates ==> x in b.fates && b.fates[x] == a.fates[x])
  }

  /** Every task that this thread has taken meanwhile has done what its code says, all of it and in order; the tasks
      that it had taken before, but for task x, have done nothing further. */
  ghost predicate OthersDone(a: Book, b: Book, x: Option<nat>) {
    && (forall y: nat :: y in b.mine && y !in a.mine && x != Some(y) ==> HasDone(b, y))
    && (forall y: nat :: y in a.mine && x != Some(y) ==> DoneBy(b.log, y) == DoneBy(a.log, y))
  }

  ghost predicate HasDone(b: Book, y: nat) {
    y < |b.codes| && DoneBy(b.log, y) == CallsOf(b.codes[y])
  }

  ghost predicate Follows(a: Book, b: Book, x: Option<nat>) {
    Grows(a, b) && OthersDone(a, b, x)
  }

  /** The sections under the mutex call no code. */
  ghost predicate Handled(a: Book, b: Book) {
    Grows(a, b) && b.mine == a.mine && b.log == a.log
  }

  lemma HandledFollows(a: Book, b: Book, x: Option<nat>)
    requires Handled(a, b)
    ensures Follows(a, b, x)
  {
  }

  lemma NoneIsSome(a: Book, b: Book, x: nat)
    requires Follows(a, b, None) && x in a.mine
    ensures Follows(a, b, Some(x)) && DoneBy(b.log, x) == DoneBy(a.log, x)
  {
  }

  lemma HandledTwice(a: Book, b: Book, c: Book)
    requires Handled(a, b) && Handled(b, c)
    ensures Handled(a, c)
  {
  }

  lemma FollowsOn(a: Book, b: Book, c: Book, x: Option<nat>)
    requires Follows(a, b, x) && Follows(b, c, x)
    ensures Follows(a, c, x)
  {
    forall y: nat | y in c.mine && y !in a.mine && x != Some(y) ensures HasDone(c, y) {
      if y in b.mine {
        assert HasDone(b, y) && DoneBy(c.log, y) == DoneBy(b.log, y);
      }
    }
  }

  /** The first task has been popped. */
  ghost predicate JustPopped(a: Book, b: Book, t: QueuedTask) {
    && b == a.(fates := a.fates[t.stamp := Taken], taken := a.taken + [t.stamp])
    && t.stamp !in a.fates && t.stamp < |a.codes| && a.codes[t.stamp] == t.code
  }

  /** A task has been taken. */
  ghost predicate JustTook(a: Book, b: Book, t: nat) {
    && Grows(a, b) && b.log == a.log && t !in a.mine && b.mine == a.mine + {t}
    && t < |b.codes| && DoneBy(b.log, t) == []
  }

  /** A task that has been taken and has done what its code says. */
  lemma TookAndDid(a: Book, b: Book, c: Book, t: nat)
    requires JustTook(a, b, t) && Follows(b, c, Some(t)) && DoneBy(c.log, t) == CallsOf(b.codes[t])
    ensures Follows(a, c, None) && |c.mine| > |a.mine|
  {
    forall y: nat | y in c.mine && y !in a.mine ensures HasDone(c, y) {
      assert y != t ==> y !in b.mine;
    }
    SubsetSize(b.mine, c.mine);
  }

  lemma RemovalKeepsRecord(q: seq<QueuedTask>, b: Book, i: nat)
    requires OnRecord(q, b) && i < |q|
    ensures OnRecord(RemoveAt(q, i), b)
  {
    forall k | 0 <= k < |q| - 1 ensures RemoveAt(q, i)[k] == if k < i then q[k] else q[k + 1] {
      RemovalAt(q, i, k);
    }
  }

  lemma FatesKeepRecord(q: seq<QueuedTask>, b: Book, fates: map<nat, Fate>)
    requires OnRecord(q, b) && forall x: nat :: x in b.fates ==> x in fates
    ensures OnRecord(q, b.(fates := fates))
  {
  }

  lemma RemovalOrderly(q: seq<QueuedTask>, next: nat, b: Book, i: nat, fate: Fate)
    requires Orderly(q, next, b) && i < |q|
    ensures Orderly(RemoveAt(q, i), next, b.(fates := b.fates[q[i].stamp := fate]))
    ensures Handled(b, b.(fates := b.fates[q[i].stamp := fate]))
  {
    RemovalKeepsOrder(q, i);
    RemovalKeepsAccount(q, next, b.fates, i, fate);
    RemovalKeepsTaken(q, next, b.fates, b.taken, i, fate);
    RemovalKeepsRecord(q, b, i);
    FatesKeepRecord(RemoveAt(q, i), b, b.fates[q[i].stamp := fate]);
  }

  lemma AppendOrderly(q: seq<QueuedTask>, next: nat, b: Book, t: QueuedTask)
    requires Orderly(q, next, b) && t.stamp == next
    requires t.tag != UNTAGGED ==> forall i :: 0 <= i < |q| ==> q[i].tag != t.tag
    ensures Orderly(q + [t], next + 1, b.(codes := b.codes + [t.code])) && Handled(b, b.(codes := b.codes + [t.code]))
  {
    AppendKeepsAccount(q, t, next, b.fates, b.taken);
  }

  lemma FrontOrderly(q: seq<QueuedTask>, next: nat, b: Book)
    requires Orderly(q, next, b) && q != []
    ensures var b' := b.(fates := b.fates[q[0].stamp := Taken], taken := b.taken + [q[0].stamp]);
      Orderly(q[1..], next, b') && Handled(b, b')
    ensures q[0].stamp !in b.fates
  {
    FrontKeeps(q, next, b.fates, b.taken);
    assert RemoveAt(q, 0) == q[1..];
    RemovalKeepsRecord(q, b, 0);
    FatesKeepRecord(q[1..], b, b.fates[q[0].stamp := Taken]);
  }

  lemma ClearOrderly(q: seq<QueuedTask>, next: nat, b: Book) returns (gone: map<nat, Fate>)
    requires Orderly(q, next, b)
    ensures forall x: nat :: x in gone ==> Holds(q, x) && gone[x] == Cleared
    ensures Orderly([], next, b.(fates := b.fates + gone)) && Handled(b, b.(fates := b.fates + gone))
  {
    gone := map i | 0 <= i < |q| :: q[i].stamp := Cleared;
    assert forall x: nat :: Holds(q, x) <==> x in gone;
    assert forall x: nat :: x in b.fates ==> x !in gone;
    ClearKeepsAccount(q, next, b.fates, gone);
    FatesKeepRecord([], b, b.fates + gone);
  }

  lemma NoteOrderly(q: seq<QueuedTask>, next: nat, b: Book, x: nat, c: Call)
    requires Orderly(q, next, b) && x in b.mine
    ensures var b' := b.(log := b.log + [(x, c)]);
      && Orderly(q, next, b') && Follows(b, b', Some(x)) && DoneBy(b'.log, x) == DoneBy(b.log, x) + [c]
  {
    forall y: nat ensures DoneBy(b.log + [(x, c)], y) == DoneBy(b.log, y) + if y == x then [c] else [] {
      DoneBySnoc(b.log, x, c, y);
    }
  }

  class TaskQueue {
    var queue: seq<QueuedTask>
    var nextStamp: nat
    var others: seq<seq<Foreign>>
    ghost var book: Book

    ghost predicate Valid()
      reads this
    {
      Orderly(queue, nextStamp, book)
    }

    ghost function Total(): nat
      reads this
    {
      QueueSize(queue) + OthersSize(others)
    }

    /** What task x has done. */
    ghost function Done(x: nat): seq<Call>
      reads this
    {
      DoneBy(book.log, x)
    }

    constructor (others: seq<seq<Foreign>>)
      ensures Valid() && queue == [] && this.others == others
    {
      queue, nextStamp, this.others := [], 0, others;
      book := Book(map[], [], [], {}, []);
    }

    /** enqueue, under the mutex: a task with the same tag is replaced, and the new one goes last. */
    method EnqueueTask(code: Option<Code>, tag: int)
      requires Valid()
      modifies this`queue, this`nextStamp, this`book
      ensures Valid() && Handled(old(book), book) && book.taken == old(book).taken
      ensures queue == WithoutTag(old(queue), tag) + [QueuedTask(tag, code, old(nextStamp))]
      ensures nextStamp == old(nextStamp) + 1 && Total() <= old(Total()) + CodeSize(code)
    {
      var existing := |queue|;
      if tag != UNTAGGED {
        existing := FindTag(queue, tag);
      }
      PositionIs(queue, tag, existing);
      if existing < |queue| {
        Erase(existing, tag);
      } else if tag != UNTAGGED {
        assert forall j :: 0 <= j < |queue| ==> queue[j].tag != tag;
      }
      ghost var between := book;
      Append(code, tag);
      HandledTwice(old(book), between, book);
    }

    /** The task with the tag leaves the queue. */
    method Erase(i: nat, ghost tag: int)
      requires Valid() && i < |queue| && queue[i].tag == tag != UNTAGGED
      modifies this`queue, this`book
      ensures Valid() && Handled(old(book), book) && book.taken == old(book).taken
      ensures queue == RemoveAt(old(queue), i) && Total() == old(Total()) - CodeSize(old(queue)[i].code)
      ensures forall j :: 0 <= j < |queue| ==> queue[j].tag != tag
    {
      RemovalOrderly(queue, nextStamp, book, i, Replaced);
      RemovalSize(queue, i);
      TagIsGone(queue, i);
      book := book.(fates := book.fates[queue[i].stamp := Replaced]);
      queue := RemoveAt(queue, i);
    }

    method Append(code: Option<Code>, tag: int)
      requires Valid() && (tag != UNTAGGED ==> forall i :: 0 <= i < |queue| ==> queue[i].tag != tag)
      modifies this`queue, this`nextStamp, this`book
      ensures Valid() && Handled(old(book), book) && book.taken == old(book).taken
      ensures nextStamp == old(nextStamp) + 1 && Total() == old(Total()) + CodeSize(code)
      ensures queue == old(queue) + [QueuedTask(tag, code, old(nextStamp))]
    {
      var t := QueuedTask(tag, code, nextStamp);
      AppendedSize(queue, t);
      AppendOrderly(queue, nextStamp, book, t);
      book := book.(codes := book.codes + [code]);
      queue := queue + [t];
      nextStamp := nextStamp + 1;
    }

    /** clear, under the mutex. */
    method ClearTasks()
      requires Valid()
      modifies this`queue, this`book
      ensures Valid() && Handled(old(book), book) && book.taken == old(book).taken
      ensures queue == [] && Total() <= old(Total()) && AllSettled(nextStamp)
    {
      ghost var gone := ClearOrderly(queue, nextStamp, book);
      book := book.(fates := book.fates + gone);
      queue := [];
    }

    /** tryPop, under the mutex. */
    method TryPop() returns (task: Option<QueuedTask>)
      requires Valid()
      modifies this`queue, this`book
      ensures Valid() && Handled(old(book), book)
      ensures if task.None? then old(queue) == [] == queue && book == old(book)
              else old(queue) == [task.value] + queue && JustPopped(old(book), book, task.value)
      ensures Total() == old(Total()) - if task.None? then 0 else CodeSize(task.value.code)
    {
      if queue == [] {
        return None;
      }
      task := Some(queue[0]);
      PopFront();
    }

    method PopFront()
      requires Valid() && queue != []
      modifies this`queue, this`book
      ensures Valid() && Handled(old(book), book) && queue == old(queue)[1..]
      ensures JustPopped(old(book), book, old(queue)[0]) && Total() == old(Total()) - CodeSize(old(queue)[0].code)
    {
      FrontOrderly(queue, nextStamp, book);
      book := book.(fates := book.fates[queue[0].stamp := Taken], taken := book.taken + [queue[0].stamp]);
      queue := queue[1..];
    }

    /** The other threads have their turn. */
    method Others()
      requires Valid()
      modifies this
      ensures Valid() && Handled(old(book), book) && old(nextStamp) <= nextStamp && Total() <= old(Total())
    {
      if others == [] {
        return;
      }
      var acts := others[0];
      ghost var size := OthersSize(others[1..]);
      var i := 0;
      others := others[1..];
      assert acts[0..] == acts;
      while i < |acts|
        invariant i <= |acts| && Valid() && Handled(old(book), book) && OthersSize(others) == size
        invariant Total() + ForeignSize(acts[i..]) <= old(Total()) && old(nextStamp) <= nextStamp
      {
        assert acts[i..][0] == acts[i] && acts[i..][1..] == acts[i + 1..];
        ghost var between := book;
        Act(acts[i]);
        HandledTwice(old(book), between, book);
        i := i + 1;
      }
    }

    method Act(act: Foreign)
      requires Valid()
      modifies this`queue, this`nextStamp, this`book
      ensures Valid() && Handled(old(book), book) && old(nextStamp) <= nextStamp
      ensures Total() <= old(Total()) + ForeignSize([act])
    {
      match act {
        case ForeignEnqueue(code, tag) => EnqueueTask(code, tag);
        case ForeignClear => ClearTasks();
        case ForeignPop => var task := TryPop();
      }
    }

    /** The code of a task, up to its end or to a throw: the task makes the calls of its code, and no others. */
    method RunCode(ghost stamp: nat, calls: seq<Call>)
      requires Valid() && stamp in book.mine && Done(stamp) == []
      modifies this
      ensures Valid() && Follows(old(book), book, Some(stamp)) && Done(stamp) == UpToThrow(calls)
      ensures old(nextStamp) <= nextStamp && Total() <= old(Total()) + CallsSize(calls)
      decreases Total() + CallsSize(calls), 2
    {
      ghost var rest := CallsSize(calls);
      var i := 0;
      assert calls[0..] == calls;
      while i < |calls| && !calls[i].Throw?
        invariant i <= |calls| && NoThrow(calls, i) && rest == CallsSize(calls[i..])
        invariant Valid() && Follows(old(book), book, Some(stamp)) && Done(stamp) == calls[..i]
        invariant old(nextStamp) <= nextStamp && Total() + rest <= old(Total()) + CallsSize(calls)
      {
        NextCall(calls, i);
        ghost var between := book;
        rest := CallsSize(calls[i + 1..]);
        PerformNext(stamp, calls[i]);
        FollowsOn(old(book), between, book, Some(stamp));
        i := i + 1;
      }
      UpToThrowAt(calls, i);
    }

    method PerformNext(ghost stamp: nat, c: Call)
      requires Valid() && stamp in book.mine
      modifies this
      ensures Valid() && Follows(old(book), book, Some(stamp)) && Done(stamp) == old(Done(stamp)) + [c]
      ensures old(nextStamp) <= nextStamp && Total() <= old(Total()) + CallSize(c)
      decreases Total() + CallSize(c), 1
    {
      Others();
      HandledFollows(old(book), book, Some(stamp));
      ghost var between := book;
      Perform(stamp, c);
      FollowsOn(old(book), between, book, Some(stamp));
    }

    /** One call that a running task makes. */
    method Perform(ghost stamp: nat, c: Call)
      requires Valid() && stamp in book.mine
      modifies this
      ensures Valid() && Follows(old(book), book, Some(stamp)) && Done(stamp) == old(Done(stamp)) + [c]
      ensures old(nextStamp) <= nextStamp && Total() <= old(Total()) + CallSize(c)
      ensures c.Enqueue? ==> queue == WithoutTag(old(queue), c.tag) + [QueuedTask(c.tag, c.code, old(nextStamp))]
      ensures c.Clear? ==> queue == [] && AllSettled(nextStamp)
      ensures c.Exec? ==> AllSettled(old(nextStamp)) || (c.mode.ExecFirst? && |book.mine| > |old(book).mine|)
      decreases Total() + CallSize(c), 0
    {
      NoteOrderly(queue, nextStamp, book, stamp, c);
      book := book.(log := book.log + [(stamp, c)]);
      ghost var between := book;
      match c {
        case Enqueue(code, tag) =>
          EnqueueTask(code, tag);
          HandledFollows(between, book, Some(stamp));
        case Clear =>
          ClearTasks();
          HandledFollows(between, book, Some(stamp));
        case Exec(mode) =>
          var executed := Exec(mode);
          NoneIsSome(between, book, stamp);
        case Throw =>
      }
      FollowsOn(old(book), between, book, Some(stamp));
    }

    /** Every task that was enqueued before `stamp` was given has met its fate. */
    ghost predicate AllSettled(stamp: nat)
      reads this
    {
      forall x: nat :: x < stamp ==> x in book.fates
    }

    /** The body of the loop of exec: one task is taken and run, if there is one. A throw is contained. */
    method ExecOne(ghost entry: nat) returns (found: bool)
      requires Valid() && entry <= nextStamp
      modifies this
      ensures Valid() && Follows(old(book), book, None) && old(nextStamp) <= nextStamp && Total() <= old(Total())
      ensures Pending(book.fates, entry) == {} ||
        (found && Pending(book.fates, entry) < Pending(old(book).fates, entry))
      ensures found ==> |book.mine| > |old(book).mine|
      decreases Total(), 1
    {
      Others();
      HandledFollows(old(book), book, None);
      PendingShrinks(old(book).fates, book.fates, entry);
      ghost var between := book;
      found := TakeAndCall(entry);
      FollowsOn(old(book), between, book, None);
    }

    /** One task is taken and run, if there is one. */
    method TakeAndCall(ghost entry: nat) returns (found: bool)
      requires Valid() && entry <= nextStamp
      modifies this
      ensures Valid() && Follows(old(book), book, None) && old(nextStamp) <= nextStamp && Total() <= old(Total())
      ensures Pending(book.fates, entry) == {} ||
        (found && Pending(book.fates, entry) < Pending(old(book).fates, entry))
      ensures found ==> |book.mine| > |old(book).mine|
      decreases Total(), 0
    {
      var task := Take(entry);
      found := task.Some?;
      ghost var between := book;
      if found {
        if task.value.code.Some? {
          CallCode(task.value.stamp, task.value.code.value.calls);
        }
        TookAndDid(old(book), between, book, task.value.stamp);
      }
      PendingShrinks(between.fates, book.fates, entry);
    }

    /** The call of the code of a task that has been taken. A throw is contained. */
    method CallCode(ghost stamp: nat, calls: seq<Call>)
      requires Valid() && stamp in book.mine && Done(stamp) == []
      modifies this
      ensures Valid() && Follows(old(book), book, Some(stamp)) && Done(stamp) == UpToThrow(calls)
      ensures old(nextStamp) <= nextStamp && Total() <= old(Total()) + CallsSize(calls)
      decreases Total() + CallsSize(calls), 3
    {
      RunCode(stamp, calls);
    }

    /** tryPop in exec: the first of the tasks enqueued before a given moment is taken, if any is left. */
    method Take(ghost entry: nat) returns (task: Option<QueuedTask>)
      requires Valid() && entry <= nextStamp
      modifies this
      ensures Valid() && nextStamp == old(nextStamp)
      ensures Total() == old(Total()) - if task.None? then 0 else CodeSize(task.value.code)
      ensures if task.None? then book == old(book)
              else JustTook(old(book), book, task.value.stamp) && book.codes[task.value.stamp] == task.value.code
      ensures Pending(book.fates, entry) == {} ||
        (task.Some? && Pending(book.fates, entry) < Pending(old(book).fates, entry))
    {
      FrontIsPending(entry);
      task := TryPop();
      if task.Some? {
        book := book.(mine := book.mine + {task.value.stamp});
      }
    }

    lemma FrontIsPending(entry: nat)
      requires Valid() && entry <= nextStamp
      ensures queue == [] || queue[0].stamp >= entry ==> Pending(book.fates, entry) == {}
      ensures queue != [] ==> queue[0].stamp !in book.fates
      ensures queue != [] && queue[0].stamp < entry ==> queue[0].stamp in Pending(book.fates, entry)
    {
      PendingInQueue(entry);
      if queue != [] {
        assert Holds(queue, queue[0].stamp);
      }
    }

    /** The tasks whose fate is open are in the queue; if the first task there came later than all of them, there are
        none. */
    lemma PendingInQueue(entry: nat)
      requires Valid() && entry <= nextStamp
      ensures forall x: nat :: x in Pending(book.fates, entry) <==> x < entry && Holds(queue, x)
      ensures queue == [] || queue[0].stamp >= entry ==> Pending(book.fates, entry) == {}
      ensures |Pending(book.fates, entry)| <= |queue|
    {
      forall x: nat ensures x in Pending(book.fates, entry) <==> x < entry && Holds(queue, x) {
        assert x in book.fates || Holds(queue, x) <==> x < nextStamp;
      }
      StampsHeld(queue);
      SubsetSize(Pending(book.fates, entry), Stamps(queue));
    }

    /** exec. What a task or another thread enqueues meanwhile cannot keep the call going beyond the number of tasks
        that were queued at its start; after an ExecAll, each of these has been taken, replaced or cleared, and after an
        ExecFirst a task has been taken, unless each of them has been, too; and every task that it takes does what its
        code says. */
    method Exec(mode: ExecutionMode) returns (executed: nat)
      requires Valid()
      modifies this
      ensures Valid() && Follows(old(book), book, None) && old(nextStamp) <= nextStamp && Total() <= old(Total())
      ensures executed <= (if mode.ExecAll? then old(|queue|) else 1) && |book.mine| >= |old(book).mine| + executed
      ensures AllSettled(old(nextStamp)) || (mode.ExecFirst? && executed == 1)
      ensures mode.ExecAll? ==> forall i :: 0 <= i < |queue| ==> queue[i].stamp >= old(nextStamp)
      decreases Total(), 2
    {
      var tasksToExecute := if mode.ExecAll? then |queue| else 1;
      ghost var entry := nextStamp;
      PendingInQueue(entry);
      executed := 0;
      var found := true;
      while tasksToExecute > 0 && found
        invariant Valid() && Follows(old(book), book, None) && entry <= nextStamp && Total() <= old(Total())
        invariant tasksToExecute >= 0 && executed + tasksToExecute == if mode.ExecAll? then old(|queue|) else 1
        invariant |book.mine| >= |old(book).mine| + executed
        invariant mode.ExecAll? ==> |Pending(book.fates, entry)| <= tasksToExecute
        invariant !found ==> Pending(book.fates, entry) == {}
        decreases tasksToExecute, found
      {
        ghost var between := book;
        found := ExecOne(entry);
        FollowsOn(old(book), between, book, None);
        SubsetSize(between.mine, book.mine);
        if found {
          tasksToExecute := tasksToExecute - 1;
          executed := executed + 1;
        }
        ProperSubsetSize(Pending(book.fates, entry), Pending(between.fates, entry));
      }
      if mode.ExecAll? || !found {
        NoneLeft(entry);
      }
    }

    lemma NoneLeft(entry: nat)
      requires Valid() && entry <= nextStamp && Pending(book.fates, entry) == {}
      ensures forall i :: 0 <= i < |queue| ==> queue[i].stamp >= entry
      ensures AllSettled(entry)
    {
      PendingInQueue(entry);
      forall i | 0 <= i < |queue| ensures queue[i].stamp >= entry {
        assert Holds(queue, queue[i].stamp);
      }
      forall x: nat | x < entry ensures x in book.fates {
        assert x !in Pending(book.fates, entry);
      }
    }
  }

  lemma ProperSubsetSize(a: set<nat>, b: set<nat>)
    ensures a < b ==> |a| < |b|
  {
    if a < b {
      var x :| x in b && x !in a;
      SubsetSize(a, b - {x});
    }
  }

  /** When the task with a tag is erased, no other has the tag. */
  lemma TagIsGone(q: seq<QueuedTask>, i: nat)
    requires OneTaskPerTag(q) && i < |q| && q[i].tag != UNTAGGED
    ensures forall j :: 0 <= j < |q| - 1 ==> RemoveAt(q, i)[j].tag != q[i].tag
  {
    forall j | 0 <= j < |q| - 1 ensures RemoveAt(q, i)[j].tag != q[i].tag {
      RemovalAt(q, i, j);
    }
  }

  lemma HoldsAppended(q: seq<QueuedTask>, t: QueuedTask, x: nat)
    ensures Holds(q + [t], x) <==> Holds(q, x) || x == t.stamp
  {
    assert (q + [t])[|q|] == t;
    forall i | 0 <= i < |q| ensures (q + [t])[i] == q[i] {
    }
  }
}
