/**
 The lanes of the pool: the bounded queue of threading/cconsumerblockingqueue.h. Every method below is one section
 under the mutex, except where it gives the mutex up; `others` holds what other threads do then.
 */
module BlockingQueue {
  import opened Basics

  datatype Foreign<!T> = ForeignPush(item: T) | ForeignPop | ForeignRemove(pred: T -> bool)

  function Kept<T>(q: seq<T>, pred: T -> bool): seq<T> {
    if q == [] then [] else (if pred(q[0]) then [] else [q[0]]) + Kept(q[1..], pred)
  }

  /** The places of the items that stay. */
  function KeptPlaces<T>(q: seq<T>, places: seq<nat>, pred: T -> bool): seq<nat>
    requires |q| == |places|
  {
    if q == [] then [] else (if pred(q[0]) then [] else [places[0]]) + KeptPlaces(q[1..], places[1..], pred)
  }

  lemma {:induction false} KeptSize<T>(q: seq<T>, places: seq<nat>, pred: T -> bool)
    requires |q| == |places|
    ensures |Kept(q, pred)| == |KeptPlaces(q, places, pred)| <= |q|
  {
    if q != [] {
      KeptSize(q[1..], places[1..], pred);
    }
  }

  /** What stays keeps its order. */
  lemma {:induction false} KeptInOrder<T>(q: seq<T>, places: seq<nat>, pred: T -> bool)
    requires |q| == |places| && Increasing(places)
    ensures Increasing(KeptPlaces(q, places, pred))
    ensures KeptPlaces(q, places, pred) != [] ==> places != [] && KeptPlaces(q, places, pred)[0] >= places[0]
  {
    if q != [] {
      KeptInOrder(q[1..], places[1..], pred);
      IncreasingCons(places[0], KeptPlaces(q[1..], places[1..], pred));
    }
  }

  lemma IncreasingCons(x: nat, s: seq<nat>)
    ensures Increasing(s) && (s != [] ==> x < s[0]) ==> Increasing([x] + s)
  {
  }

  /** What stays is still where it was pushed. */
  lemma {:induction false} KeptWherePushed<T>(q: seq<T>, places: seq<nat>, pushed: seq<T>, pred: T -> bool)
    requires |q| == |places|
    requires forall i :: 0 <= i < |q| ==> places[i] < |pushed| && pushed[places[i]] == q[i]
    ensures |Kept(q, pred)| == |KeptPlaces(q, places, pred)|
    ensures forall i :: 0 <= i < |Kept(q, pred)| ==>
      KeptPlaces(q, places, pred)[i] < |pushed| && pushed[KeptPlaces(q, places, pred)[i]] == Kept(q, pred)[i]
  {
    KeptSize(q, places, pred);
    if q != [] {
      KeptWherePushed(q[1..], places[1..], pushed, pred);
    }
  }

  lemma {:induction false} KeptMembers<T>(q: seq<T>, pred: T -> bool, x: T)
    ensures x in Kept(q, pred) <==> x in q && !pred(x)
  {
    if q != [] {
      KeptMembers(q[1..], pred, x);
      assert q == [q[0]] + q[1..];
    }
  }

  /** The queue holds items in the order in which they were pushed, and items have been popped in that order. */
  ghost predicate InPushOrder<T>(q: seq<T>, places: seq<nat>, pushed: seq<T>, popped: seq<nat>) {
    && |q| == |places| && Increasing(places) && Increasing(popped)
    && (forall i :: 0 <= i < |q| ==> places[i] < |pushed| && pushed[places[i]] == q[i])
    && (forall i :: 0 <= i < |popped| ==> popped[i] < |pushed|)
    && (popped != [] && places != [] ==> popped[|popped| - 1] < places[0])
  }

  lemma KeptInPushOrder<T>(q: seq<T>, places: seq<nat>, pushed: seq<T>, popped: seq<nat>, pred: T -> bool)
    requires InPushOrder(q, places, pushed, popped)
    ensures InPushOrder(Kept(q, pred), KeptPlaces(q, places, pred), pushed, popped) && |Kept(q, pred)| <= |q|
  {
    KeptSize(q, places, pred);
    KeptInOrder(q, places, pred);
    KeptWherePushed(q, places, pushed, pred);
  }

  method EraseIf<T>(q: seq<T>, pred: T -> bool) returns (kept: seq<T>)
    ensures kept == Kept(q, pred)
  {
    kept := [];
    var i := 0;
    while i < |q|
      invariant i <= |q| && kept == Kept(q[..i], pred)
    {
      KeptSnoc(q[..i], q[i], pred);
      assert q[..i + 1] == q[..i] + [q[i]];
      if !pred(q[i]) {
        kept := kept + [q[i]];
      }
      i := i + 1;
    }
    assert q[..|q|] == q;
  }

  lemma {:induction false} KeptSnoc<T>(q: seq<T>, x: T, pred: T -> bool)
    ensures Kept(q + [x], pred) == Kept(q, pred) + (if pred(x) then [] else [x])
  {
    if q == [] {
      assert q + [x] == [x] + [];
      KeptCons(x, [], pred);
    } else {
      assert q + [x] == [q[0]] + (q[1..] + [x]) && q == [q[0]] + q[1..];
      KeptCons(q[0], q[1..] + [x], pred);
      KeptCons(q[0], q[1..], pred);
      KeptSnoc(q[1..], x, pred);
    }
  }

  lemma KeptCons<T>(x: T, q: seq<T>, pred: T -> bool)
    ensures Kept([x] + q, pred) == (if pred(x) then [] else [x]) + Kept(q, pred)
  {
    assert ([x] + q)[1..] == q;
  }

  class ConsumerQueue<T(0)> {
    const maxSize: nat
    var queue: seq<T>
    var others: seq<seq<Foreign<T>>>
    /** All items ever accepted, in order; where in there the queued items are; where those were that were popped. */
    ghost var pushed: seq<T>
    ghost var places: seq<nat>
    ghost var popped: seq<nat>

    ghost predicate Valid()
      reads this
    {
      |queue| <= maxSize && InPushOrder(queue, places, pushed, popped)
    }

    twostate predicate Evolved()
      reads this
    {
      Valid() && old(pushed) <= pushed && old(popped) <= popped
    }

    constructor (maxSize: nat, others: seq<seq<Foreign<T>>>)
      ensures Valid() && queue == [] && this.maxSize == maxSize && this.others == others && pushed == [] && popped == []
    {
      this.maxSize, queue, this.others, pushed, places, popped := maxSize, [], others, [], [], [];
    }

    method TryPush(item: T) returns (accepted: bool, queueSize: nat)
      requires Valid()
      modifies this`queue, this`pushed, this`places
      ensures Evolved() && accepted == (old(|queue|) < maxSize) && queueSize == |queue|
      ensures queue == old(queue) + if accepted then [item] else []
      ensures pushed == old(pushed) + if accepted then [item] else []
    {
      if |queue| >= maxSize {
        return false, |queue|;
      }
      places := places + [|pushed|];
      pushed := pushed + [item];
      queue := queue + [item];
      return true, |queue|;
    }

    /** push: it gives the mutex up for as long as the queue is full. */
    method Push(item: T) returns (accepted: bool, queueSize: nat)
      requires Valid()
      modifies this
      ensures Evolved() && queueSize == |queue|
      ensures if accepted then queue != [] && queue[|queue| - 1] == item && pushed != [] && pushed[|pushed| - 1] == item
              else |queue| == maxSize && others == []
      ensures old(|queue|) < maxSize ==> accepted && queue == old(queue) + [item]
    {
      while |queue| >= maxSize && others != []
        invariant Evolved()
        invariant old(|queue|) < maxSize ==> queue == old(queue)
        decreases |others|
      {
        Others();
      }
      accepted, queueSize := TryPush(item);
    }

    method TryPop() returns (item: Option<T>)
      requires Valid()
      modifies this`queue, this`places, this`popped
      ensures Evolved() && pushed == old(pushed)
      ensures if old(queue) == [] then item.None? && queue == []
              else item == Some(old(queue)[0]) && queue == old(queue)[1..] && popped == old(popped) + [old(places)[0]]
    {
      if queue == [] {
        return None;
      }
      item := Some(queue[0]);
      popped := popped + [places[0]];
      places := places[1..];
      queue := queue[1..];
    }

    /** pop: one wait if the queue is empty, for a notification, a timeout or nothing at all. */
    method Pop() returns (item: Option<T>)
      requires Valid()
      modifies this
      ensures Evolved() && (item.None? ==> queue == [])
      ensures old(queue) != [] ==> item == Some(old(queue)[0]) && queue == old(queue)[1..]
    {
      if queue == [] {
        Others();
      }
      item := TryPop();
    }

    /** remove_if: the other items keep their order. */
    method RemoveIf(pred: T -> bool) returns (removed: nat)
      requires Valid()
      modifies this`queue, this`places
      ensures Evolved() && queue == Kept(old(queue), pred) && removed == old(|queue|) - |queue|
    {
      var kept := EraseIf(queue, pred);
      KeptInPushOrder(queue, places, pushed, popped, pred);
      removed := |queue| - |kept|;
      places := KeptPlaces(queue, places, pred);
      queue := kept;
    }

    /** The other threads have their turn. */
    method Others()
      requires Valid()
      modifies this
      ensures Evolved() && others == if old(others) == [] then [] else old(others)[1..]
    {
      if others == [] {
        return;
      }
      var acts := others[0];
      others := others[1..];
      for i := 0 to |acts|
        invariant Evolved() && others == old(others)[1..]
      {
        Act(acts[i]);
      }
    }

    method Act(act: Foreign<T>)
      requires Valid()
      modifies this`queue, this`places, this`pushed, this`popped
      ensures Evolved()
    {
      match act {
        case ForeignPush(item) => var accepted, size := TryPush(item);
        case ForeignPop => var item := TryPop();
        case ForeignRemove(pred) => var removed := RemoveIf(pred);
      }
    }
  }
}
