/**
  * The timer container as it is in memory: a heap of timers, one timer descriptor, and the bodies of the three
  * messages that change them.  The bodies are run by one task; how other threads interleave with them is the subject
  * of TimerProtocol.
  */
module LocTimer {
  import opened Wrappers
  import opened HeapSpec
  import opened TimerSpec
  import opened LocHeap

  /** What a drain amounts to in the end when `popped` are out, `timer` is in hand and `t` is left in the heap. */
  ghost function Remaining(popped: seq<Timer>, timer: Option<Timer>, t: Tree<Timer>, now: BootTime): Drained {
    if timer == None then Drained(popped, t)
    else
      var rest := PopDue(t, now);
      Drained(popped + [timer.value] + rest.popped, rest.tree)
  }

  ghost function Left(timer: Option<Timer>, t: Tree<Timer>): nat {
    if timer == None then 0 else 1 + Nodes(t)
  }

  lemma Regroup(popped: seq<Timer>, timer: Timer, next: Timer, rest: seq<Timer>)
    ensures popped + [timer] + ([next] + rest) == popped + [timer] + [next] + rest
  {}

  lemma RemainingStep(popped: seq<Timer>, timer: Timer, t: Tree<Timer>, next: Option<Timer>, t': Tree<Timer>,
                      now: BootTime)
    requires PopDue(t, now) ==
      if next == None then Drained([], t')
      else var rest := PopDue(t', now); Drained([next.value] + rest.popped, rest.tree)
    ensures Remaining(popped + [timer], next, t', now) == Remaining(popped, Some(timer), t, now)
  {
    if next == None {
      assert popped + [timer] + [] == popped + [timer];
    } else {
      Regroup(popped, timer, next.value, PopDue(t', now).popped);
    }
  }

  lemma LeftStep(timer: Timer, t: Tree<Timer>, next: Option<Timer>, t': Tree<Timer>)
    requires next != None ==> t.Node? && t' == PopTop(OutRanks, t)
    ensures Left(next, t') < Left(Some(timer), t)
  {
    NodesAfterPop(OutRanks, t);
  }

  ghost predicate Watches(fd: Fd, t: Tree<Timer>) {
    t.Node? ==> fd == Fd(Some(t.data.due), true)
  }

  lemma FollowerWatches(fd: Fd, t: Tree<Timer>, o: Outcome)
    requires Follows(t, o) && !o.action.Disarm?
    ensures Watches(fd, t) || o.action.Arm? ==> Watches(Act(fd, o.action), o.tree)
  {}

  class TimerContainer {
    const heap: LocHeap<Timer>
    var armed: Option<BootTime>
    var polled: bool

    ghost predicate Valid()
      reads this, heap, heap.repr
    {
      heap.Valid() && heap.outRanks == OutRanks && HeapOk(heap.Value())
    }

    ghost function Timers(): Tree<Timer>
      reads heap, heap.mTree
    {
      heap.Value()
    }

    ghost function Descriptor(): Fd
      reads this
    {
      Fd(armed, polled)
    }

    /** The descriptor is polled and set to exactly the soonest time, if there is a timer at all. */
    ghost predicate Watched()
      reads this, heap, heap.mTree
    {
      Watches(Descriptor(), Timers())
    }

    constructor ()
      ensures Valid() && Timers() == Leaf && Descriptor() == Fd(None, false) && fresh(heap) && fresh(heap.repr)
    {
      heap := new LocHeap(OutRanks);
      armed, polled := None, false;
    }

    method UpdateSoonestTime(priorTop: Option<Timer>)
      requires Valid()
      modifies this
      ensures Valid() && Timers() == old(Timers())
      ensures Descriptor() == Act(old(Descriptor()), UpdateSoonest(priorTop, Top(Timers())))
    {
      var curTop := heap.Peek();
      if curTop != priorTop {
        var delay: Option<BootTime> := None;
        var toSetTime := false;
        if curTop == None {
          polled := false;
          toSetTime := true;
        } else if priorTop == None || OutRanks(curTop.value, priorTop.value) {
          polled := true;
          delay := Some(curTop.value.due);
          toSetTime := true;
        }
        if toSetTime {
          armed := delay;
        }
      }
    }

    /** The heap's own pop, which leaves the container valid. */
    method PopTopTimer() returns (timer: Option<Timer>)
      requires Valid()
      modifies heap, heap.repr
      ensures Valid() && fresh(heap.repr - old(heap.repr))
      ensures timer == Top(old(Timers()))
      ensures Timers() == if old(Timers()).Leaf? then Leaf else PopTop(OutRanks, old(Timers()))
    {
      ghost var t := heap.Value();
      if t.Node? {
        PopTimer(t);
      }
      timer := heap.Pop();
    }

    /** Pops the top unless it lies after `now`. */
    method PopIfOutRanks(now: BootTime) returns (timer: Option<Timer>)
      requires Valid()
      modifies heap, heap.repr
      ensures Valid() && fresh(heap.repr - old(heap.repr))
      ensures PopDue(old(Timers()), now) ==
        if timer == None then Drained([], Timers())
        else var rest := PopDue(Timers(), now); Drained([timer.value] + rest.popped, rest.tree)
      ensures timer != None ==> Timers() == PopTop(OutRanks, old(Timers())) && old(Timers()).Node?
    {
      timer := heap.Peek();
      if timer != None && !OutRanks(Timer(0, now), timer.value) {
        timer := PopTopTimer();
      } else {
        timer := None;
      }
    }

    method ProcPush(timer: Timer)
      requires Valid()
      modifies this, heap, heap.repr
      ensures Valid() && fresh(heap.repr - old(heap.repr))
      ensures var o := OnPush(old(Timers()), timer);
        Timers() == o.tree && Descriptor() == Act(old(Descriptor()), o.action)
      ensures old(Watched()) ==> Watched()
    {
      PushFollows(heap.Value(), timer);
      FollowerWatches(Descriptor(), heap.Value(), OnPush(heap.Value(), timer));
      var priorTop := heap.Peek();
      heap.Push(timer);
      UpdateSoonestTime(priorTop);
    }

    method ProcRemove(timer: Timer)
      requires Valid()
      modifies this, heap, heap.repr
      ensures Valid() && fresh(heap.repr - old(heap.repr))
      ensures var o := OnRemove(old(Timers()), timer);
        Timers() == o.tree && Descriptor() == Act(old(Descriptor()), o.action)
      ensures old(Watched()) ==> Watched()
    {
      RemoveFollows(heap.Value(), timer);
      var priorTop := heap.Peek();
      var removed := heap.Remove(timer);
      if priorTop == removed {
        UpdateSoonestTime(None);
      }
    }

    /** Returns the timers it pops, in the order in which they are expired. */
    method ProcExpire(now: BootTime) returns (popped: seq<Timer>)
      requires Valid()
      modifies this, heap, heap.repr
      ensures Valid() && fresh(heap.repr - old(heap.repr))
      ensures Drained(popped, Timers()) == Drain(old(Timers()), now)
      ensures Descriptor() == Act(old(Descriptor()), OnExpire(old(Timers()), now).action)
      ensures Watched()
    {
      ExpireFollows(heap.Value(), now);
      popped := DrainHeap(now);
      UpdateSoonestTime(None);
    }

    /** The popping loop of an expire message. */
    method DrainHeap(now: BootTime) returns (popped: seq<Timer>)
      requires Valid()
      modifies heap, heap.repr
      ensures Valid() && fresh(heap.repr - old(heap.repr))
      ensures Drained(popped, Timers()) == Drain(old(Timers()), now)
    {
      popped := [];
      ghost var all := Drain(heap.Value(), now);
      var timer := PopTopTimer();
      while timer != None
        invariant Valid() && fresh(heap.repr - old(heap.repr))
        invariant all == Remaining(popped, timer, Timers(), now)
        decreases Left(timer, Timers())
      {
        ghost var t := Timers();
        var before := timer.value;
        timer := PopIfOutRanks(now);
        RemainingStep(popped, before, t, timer, Timers(), now);
        LeftStep(before, t, timer, Timers());
        popped := popped + [before];
      }
    }
  }

  /**
    * No message body ever takes the branch that stops polling and disarms the descriptor: a push leaves the heap
    * non-empty, and the other two pass NULL for the prior top, which an empty heap equals.
    */
  lemma NeverDisarms(t: Tree<Timer>, timer: Timer, now: BootTime)
    requires HeapOk(t)
    ensures !OnPush(t, timer).action.Disarm? && !OnRemove(t, timer).action.Disarm? && !OnExpire(t, now).action.Disarm?
  {
    PushFollows(t, timer);
    RemoveFollows(t, timer);
    ExpireFollows(t, now);
  }

  /** So taking out the last timer leaves the descriptor as it was, armed if it was armed. */
  lemma LastRemovalLeavesArmed(fd: Fd, t: Tree<Timer>, timer: Timer)
    requires OnRemove(t, timer).tree.Leaf?
    ensures Act(fd, OnRemove(t, timer).action) == fd
  {
    RemoveKeepsTop(t, timer);
    RemovalFollows(t, timer, Remove(OutRanks, t, timer));
  }
}
