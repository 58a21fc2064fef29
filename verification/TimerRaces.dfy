/**
  * What the service does not promise, with runs from the start that show it, and exactly when it keeps its word after
  * all.  Expiring a timer means stopping whatever its client runs by then: between reading the client and stopping it,
  * the client may have stopped that timer itself and started another.
  */
module TimerRaces {
  import opened Wrappers
  import opened HeapSpec
  import opened TimerSpec
  import opened TimerProtocol
  import opened TimerArming
  import opened TimerDrain
  import opened TimerLifetime
  import opened TimerRuns

  // ----- exactly when the timer stopped on expiry is the one popped -----

  /** The timer the step stops, if it stops one. */
  ghost predicate Stops(s: State, c: ClientId, timer: Timer)
    requires Enabled(s, TaskStopBegin)
  {
    Holds(Next(s, TaskStopBegin).ClientAt(c).lock, timer)
  }

  lemma StopsItsTimer(s: State, timer: Timer)
    requires Enabled(s, TaskStopBegin)
    ensures Stops(s, s.task.client, timer) <==> s.ClientAt(s.task.client).mTimer == Some(timer)
  {}

  /**
    * In every run, when the task is about to stop a client on expiry, what it stops is the timer it popped if and only
    * if that timer's delegate still has its client set.
    */
  lemma StopsPoppedIffClientSet(s: State, steps: seq<Step>)
    requires Initial(s) && CanRun(s, steps) && Enabled(After(s, steps), TaskStopBegin)
    ensures var s' := After(s, steps);
      var timer := s'.task.timer;
      && s'.DelegateAt(timer).owner == s'.task.client && s'.DelegateAt(timer).timer == timer
      && (Stops(s', s'.task.client, timer) <==> s'.DelegateAt(timer).mClient)
  {
    LifeInitially(s);
    LifeAlways(s, steps);
    StopsPoppedNow(After(s, steps));
  }

  lemma StopsPoppedNow(s: State)
    requires LifeInv(s) && Enabled(s, TaskStopBegin)
    ensures var timer := s.task.timer;
      && s.DelegateAt(timer).owner == s.task.client && s.DelegateAt(timer).timer == timer
      && (Stops(s, s.task.client, timer) <==> s.DelegateAt(timer).mClient)
  {
    DelegateAtOk(s, s.task.timer);
    StopsItsTimer(s, s.task.timer);
  }

  /** A timer that came after the one popped is not due before the time at which the message read the clock. */
  ghost predicate NewerIsLater(timer: Option<Timer>, popped: Timer, now: BootTime) {
    timer != None && timer.value != popped ==> Nanos(now) <= Nanos(timer.value.due)
  }

  ghost predicate NewerInv(s: State) {
    && (InLoop(s.task) ==> Nanos(s.task.now) <= Nanos(s.clock))
    && (s.task.ToStop? ==>
          var client := s.ClientAt(s.task.client);
          && NewerIsLater(client.mTimer, s.task.timer, s.task.now)
          && NewerIsLater(if client.lock.Starting? then Some(client.lock.timer) else None, s.task.timer, s.task.now)
          && (client.lock.Computing? ==> Nanos(s.task.now) <= Nanos(client.lock.due)))
  }

  lemma NewerReadClient(s: State)
    requires LifeInv(s) && NewerInv(s) && s.task.Expiring?
    ensures NewerInv(Next(s, TaskReadClient))
  {
    var d := s.DelegateAt(s.task.timer);
    DelegateAtOk(s, s.task.timer);
    assert ClientOk(s, d.owner);
    assert d.mClient ==> Owned(s, d);
  }

  lemma NewerClientStep(s: State, step: Step)
    requires NewerInv(s) && Enabled(s, step)
    requires step.Tick? || step.NewClient? || step.StartBegin? || step.StartPush? || step.StartEnd? || step.StopBegin?
      || step.StopEnd? || step.Destroy?
    ensures NewerInv(Next(s, step))
  {}

  lemma NewerPollStep(s: State, step: Step)
    requires NewerInv(s) && Enabled(s, step)
    requires step.PollWake? || step == PollDisarm || step == PollRemove || step == PollSend
    ensures NewerInv(Next(s, step))
  {}

  lemma NewerTaskStep(s: State, step: Step)
    requires NewerInv(s) && Enabled(s, step)
    requires step == TaskStopBegin || step == TaskStopEnd || step == TaskCallback || step == TaskAddPoll
      || step == TaskSetTime
    ensures NewerInv(Next(s, step))
  {}

  lemma NewerPopNext(s: State)
    requires NewerInv(s) && s.task.Draining?
    ensures NewerInv(Next(s, TaskPopNext))
  {}

  lemma NewerReceive(s: State)
    requires s.task == Idle && s.queue != []
    ensures NewerInv(Receive(s))
  {}

  lemma NewerStep(s: State, step: Step)
    requires LifeInv(s) && NewerInv(s) && Enabled(s, step)
    ensures NewerInv(Next(s, step))
  {
    match step
    case TaskReceive => NewerReceive(s);
    case TaskPopNext => NewerPopNext(s);
    case TaskReadClient => NewerReadClient(s);
    case TaskStopBegin => NewerTaskStep(s, step);
    case TaskStopEnd => NewerTaskStep(s, step);
    case TaskCallback => NewerTaskStep(s, step);
    case TaskAddPoll => NewerTaskStep(s, step);
    case TaskSetTime => NewerTaskStep(s, step);
    case PollWake(_) => NewerPollStep(s, step);
    case PollDisarm => NewerPollStep(s, step);
    case PollRemove => NewerPollStep(s, step);
    case PollSend => NewerPollStep(s, step);
    case _ => NewerClientStep(s, step);
  }

  lemma {:induction false} NewerAlways(s: State, steps: seq<Step>)
    requires LifeInv(s) && NewerInv(s) && CanRun(s, steps)
    ensures LifeInv(After(s, steps)) && NewerInv(After(s, steps))
    decreases |steps|
  {
    if steps != [] {
      NewerStep(s, steps[0]);
      LifeStep(s, steps[0]);
      NewerAlways(Next(s, steps[0]), steps[1..]);
    }
  }

  /** Of the timers popped, the last is due exactly if it is not the first or the top was due. */
  lemma LastPoppedIsDueIff(t: Tree<Timer>, now: BootTime, popped: seq<Timer>, rest: seq<Timer>, left: Tree<Timer>)
    requires HeapOk(t) && popped != [] && Drain(t, now) == Drained(popped + rest, left)
    ensures t.Node? && (DueBy(popped[|popped| - 1], now) <==> |popped| > 1 || DueBy(t.data, now))
  {
    DrainIsExact(t, now);
    assert popped[|popped| - 1] == (popped + rest)[|popped| - 1];
  }

  lemma StoppedNow(s: State, stopped: Timer)
    requires LifeInv(s) && NewerInv(s) && Enabled(s, TaskStopBegin) && Stops(s, s.task.client, stopped)
    ensures stopped == s.task.timer <==> s.DelegateAt(s.task.timer).mClient
    ensures stopped != s.task.timer ==> Nanos(s.task.now) <= Nanos(stopped.due)
  {
    StopsPoppedNow(s);
    StopsItsTimer(s, stopped);
  }

  lemma StoppedInRun(s0: State, before: seq<Step>, s: State, steps: seq<Step>, stopped: Timer)
    requires Initial(s0) && CanRun(s0, before) && s == After(s0, before) && s.task == Idle && CanRun(s, steps)
    requires Enabled(After(s, steps), TaskStopBegin)
    requires Stops(After(s, steps), After(s, steps).task.client, stopped)
    ensures var s' := After(s, steps);
      && (stopped == s'.task.timer <==> s'.DelegateAt(s'.task.timer).mClient)
      && (stopped != s'.task.timer ==> Nanos(s'.task.now) <= Nanos(stopped.due))
  {
    LifeInitially(s0);
    LifeAlways(s0, before);
    NewerAlways(s, steps);
    StoppedNow(After(s, steps), stopped);
  }

  /**
    * In every run, for an expire message in its loop about to stop a client's timer: with the popped delegate's client
    * still set it stops the timer it popped last, and that is due at the time the message read exactly if it is not
    * the first popped or the top was due; with the client cleared it stops a newer timer, which is never overdue.
    */
  lemma WhatExpiryStops(s0: State, before: seq<Step>, s: State, steps: seq<Step>, stopped: Timer)
    requires Initial(s0) && CanRun(s0, before) && s == After(s0, before) && HandlesExpire(s, steps)
    requires Enabled(After(s, steps), TaskStopBegin)
    requires Stops(After(s, steps), After(s, steps).task.client, stopped)
    ensures var popped, top := Pops(s, steps), s.At(s.queue[0].which).tree;
      && popped != [] && top.Node?
      && (stopped == popped[|popped| - 1] <==> After(s, steps).DelegateAt(popped[|popped| - 1]).mClient)
      && (stopped == popped[|popped| - 1] ==> (DueBy(stopped, s.clock) <==> |popped| > 1 || DueBy(top.data, s.clock)))
      && (stopped != popped[|popped| - 1] ==> Nanos(s.clock) <= Nanos(stopped.due))
  {
    var s', w := After(s, steps), s.queue[0].which;
    ArmInitially(s0);
    ArmAlways(s0, before);
    ArmAt(s, w);
    StoppedInRun(s0, before, s, steps, stopped);
    StopsLastPopped(s, steps);
    DrainIsUndisturbed(s, steps);
    LastPoppedIsDueIff(s.At(w).tree, s.clock, Pops(s, steps), ToCome(s').popped, ToCome(s').tree);
  }

  // ----- exactly when an empty heap leaves the descriptor armed -----

  /**
    * In every run, the message that takes the last timer out of a heap leaves the descriptor as it was: disarmed
    * exactly if it was disarmed, which takes an expiry on its way, and otherwise polled and armed for the timer taken
    * out.
    */
  lemma LastRemovalKeepsDescriptor(s0: State, before: seq<Step>, s: State, w: Which, timer: Timer)
    requires Initial(s0) && CanRun(s0, before) && s == After(s0, before)
    requires s.task == Idle && s.queue != [] && s.queue[0] == RemoveMsg(w, timer)
    requires s.At(w).tree.Node? && OnRemove(s.At(w).tree, timer).tree.Leaf?
    ensures var s' := Receive(s);
      && s'.task == Idle && s'.At(w) == Container(Leaf, s.At(w).fd)
      && (s'.At(w).fd == Fd(Some(s.At(w).tree.data.due), true) || ExpireComing(s', w))
  {
    var t := s.At(w).tree;
    var o := OnRemove(t, timer);
    NoLostWakeup(s0, before, w);
    RemoveKeepsTop(t, timer);
    RemovalFollows(t, timer, Remove(OutRanks, t, timer));
    LastRemovalIsQuiet(s, w, timer, o);
    OtherCameFirst(s, Receive(s), w);
  }

  lemma LastRemovalIsQuiet(s: State, w: Which, timer: Timer, o: Outcome)
    requires s.task == Idle && s.queue != [] && s.queue[0] == RemoveMsg(w, timer)
    requires o == OnRemove(s.At(w).tree, timer) && o.tree.Leaf? && o.action == Keep
    ensures var s' := Receive(s);
      && s'.task == Idle && s'.At(w) == Container(Leaf, s.At(w).fd) && s'.poll == s.poll && s'.queue == s.queue[1..]
  {}

  // ----- runs from the start -----

  /** All that has happened is that a client has started one timer and the descriptor watches it. */
  ghost predicate OneTimerRuns(s: State, c: ClientId, w: Which, timer: Timer) {
    && s.task == Idle && s.queue == [] && s.poll.todo == []
    && s.At(w) == Container(Single(timer), Fd(Some(timer.due), true))
    && s.clients == map[c := Client(true, Some(timer), Free, 2, false, 1, 0, 0, 0)]
    && s.delegates == map[timer.addr := Delegate(timer, c, w, true, true, 1, 0)]
  }

  lemma StartOneTimer(s: State, c: ClientId, w: Which, ms: nat, addr: nat) returns (steps: seq<Step>, s': State)
    requires Initial(s) && ms < INT32_RANGE
    ensures RunsTo(s, steps, s') && s'.clock == s.clock && OneTimerRuns(s', c, w, Timer(addr, FutureTime(s.clock, ms)))
  {
    var timer := Timer(addr, FutureTime(s.clock, ms));
    var s1 := Next(s, NewClient(c));
    var s2 := AfterStart(s1, c, w, timer);
    s' := Watching(s2, w, timer);
    RunsOne(s, NewClient(c));
    StartTimer(s1, c, w, ms, addr);
    RunsOn(s, [NewClient(c)], s1, StartSteps(c, w, ms, addr), s2);
    steps := [NewClient(c)] + StartSteps(c, w, ms, addr);
    PushFirst(s2, w, timer);
    RunsOn(s, steps, s2, [TaskReceive] + [TaskAddPoll, TaskSetTime], s');
    steps := steps + ([TaskReceive] + [TaskAddPoll, TaskSetTime]);
  }

  /** A client starts a timer and stops it: the heap is empty, nothing is on its way, and the descriptor stays armed. */
  lemma EmptyHeapStaysArmed(s: State, c: ClientId, w: Which, ms: nat, addr: nat) returns (steps: seq<Step>, s': State)
    requires Initial(s) && ms < INT32_RANGE
    ensures RunsTo(s, steps, s') && s'.task == Idle && s'.queue == [] && !ExpireComing(s', w)
    ensures s'.At(w) == Container(Leaf, Fd(Some(FutureTime(s.clock, ms)), true))
  {
    var timer := Timer(addr, FutureTime(s.clock, ms));
    var s1;
    steps, s1 := StartOneTimer(s, c, w, ms, addr);
    StopTimer(s1, c, timer);
    var s2 := AfterStop(s1, c, timer);
    RunsOn(s, steps, s1, [StopBegin(c), StopEnd(c)], s2);
    RemoveLast(s2, w, timer);
    s' := AfterLastRemoval(s2, w, timer);
    RunsOn(s, steps + [StopBegin(c), StopEnd(c)], s2, [TaskReceive], s');
    steps := steps + [StopBegin(c), StopEnd(c)] + [TaskReceive];
  }

  /** The first timer is due at `to`; the second, started then, is not. */
  ghost predicate InTurn(now: ClockReading, t1: Timer, to: ClockReading, t2: Timer, ms: nat) {
    && Nanos(now) <= Nanos(to) && DueBy(t1, to) && t1.addr != t2.addr
    && 0 < ms < INT32_RANGE && t2.due == FutureTime(to, ms)
  }

  lemma TurnOfSecond(now: ClockReading, t1: Timer, to: ClockReading, t2: Timer, ms: nat)
    requires InTurn(now, t1, to, t2, ms)
    ensures !DueBy(t2, to)
  {}

  /** The descriptor's time has come, and the poll thread has woken for it. */
  lemma WakeForTimer(s: State, c: ClientId, w: Which, timer: Timer, to: ClockReading)
    returns (steps: seq<Step>, s': State)
    requires OneTimerRuns(s, c, w, timer) && Nanos(s.clock) <= Nanos(to) && DueBy(timer, to)
    ensures RunsTo(s, steps, s')
    ensures s'.clock == to && s'.poll == Poll([w], ToSend) && s'.queue == [] && s'.task == Idle
    ensures s'.At(w) == Container(Single(timer), Fd(None, false)) && s'.clients == s.clients
      && s'.delegates == s.delegates
  {
    Wake(s, w, to);
    steps, s' := [Tick(to), PollWake([w])] + [PollDisarm, PollRemove], AfterWake(s, w, to);
  }

  /** An expire message has popped the client's timer and the task is about to stop the client. */
  lemma PopTheTimer(s: State, c: ClientId, w: Which, timer: Timer, to: ClockReading)
    returns (steps: seq<Step>, s': State)
    requires OneTimerRuns(s, c, w, timer) && Nanos(s.clock) <= Nanos(to) && DueBy(timer, to)
    ensures RunsTo(s, steps, s')
    ensures s'.clock == to && s'.task == ToStop(w, to, c, timer) && s'.clients == s.clients
      && s'.delegates == s.delegates
  {
    var s1;
    steps, s1 := WakeForTimer(s, c, w, timer, to);
    var s2 := AfterSend(s1, w);
    SendExpire(s1, w);
    RunsOn(s, steps, s1, [PollSend], s2);
    steps := steps + [PollSend];
    s' := AboutToStop(s2, w, timer);
    PopOnly(s2, w, timer);
    RunsOn(s, steps, s2, [TaskReceive, TaskReadClient], s');
    steps := steps + [TaskReceive, TaskReadClient];
  }

  /** The client replaces its timer just before the task stops it. */
  lemma ReplaceTimer(s: State, c: ClientId, w: Which, t1: Timer, t2: Timer, ms: nat)
    returns (steps: seq<Step>, s': State)
    requires ms < INT32_RANGE && t2.due == FutureTime(s.clock, ms) && s.task != Idle
    requires s.clients == map[c := Client(true, Some(t1), Free, 2, false, 1, 0, 0, 0)]
    requires s.delegates == map[t1.addr := Delegate(t1, c, w, true, true, 1, 0)] && t1.addr != t2.addr
    ensures RunsTo(s, steps, s') && s'.clock == s.clock && s'.task == s.task
    ensures s'.clients == map[c := Client(true, Some(t2), Free, 3, false, 2, 1, 0, 0)]
    ensures s'.DelegateAt(t2) == Delegate(t2, c, w, true, true, 0, 0)
  {
    var s1 := AfterStop(s, c, t1);
    StopTimer(s, c, t1);
    s' := AfterStart(s1, c, w, t2);
    StartTimer(s1, c, w, ms, t2.addr);
    RunsOn(s, [StopBegin(c), StopEnd(c)], s1, StartSteps(c, w, ms, t2.addr), s');
    steps := [StopBegin(c), StopEnd(c)] + StartSteps(c, w, ms, t2.addr);
  }

  /**
    * Early, first way: a due timer is popped, its client replaces it in time, and what the task then stops and calls
    * back for is the new timer, which is not due.
    */
  lemma ExpiryHitsNewTimer(s: State, c: ClientId, w: Which, ms: nat, t1: Timer, to: ClockReading, ms': nat, t2: Timer)
    returns (steps: seq<Step>, mid: State, s': State)
    requires Initial(s) && ms < INT32_RANGE && t1.due == FutureTime(s.clock, ms) && InTurn(s.clock, t1, to, t2, ms')
    ensures RunsTo(s, steps, mid) && mid.task == ToStop(w, to, c, t1) && DueBy(t1, to)
    ensures Enabled(mid, TaskStopBegin) && Stops(mid, c, t2) && t2 != t1 && !DueBy(t2, mid.clock)
    ensures RunsTo(mid, [TaskStopBegin, TaskStopEnd, TaskCallback], s') && !DueBy(t2, s'.clock)
    ensures mid.ClientAt(c) == Client(true, Some(t2), Free, 3, false, 2, 1, 0, 0)
    ensures s'.ClientAt(c) == Client(true, None, Free, 3, false, 2, 1, 1, 1)
  {
    var s1, s2, more, last;
    steps, s1 := StartOneTimer(s, c, w, ms, t1.addr);
    more, s2 := PopTheTimer(s1, c, w, t1, to);
    RunsOn(s, steps, s1, more, s2);
    last, mid := ReplaceTimer(s2, c, w, t1, t2, ms');
    RunsOn(s, steps + more, s2, last, mid);
    steps := steps + more + last;
    TurnOfSecond(s.clock, t1, to, t2, ms');
    StopsItsTimer(mid, t2);
    s' := AfterCallback(mid, c, t2);
    StopAndCallBack(mid, c, t2);
  }

  /** Between the poll thread's disarming and its message, the client replaces its timer. */
  lemma ReplaceBeforeExpire(s: State, c: ClientId, w: Which, t1: Timer, t2: Timer, ms: nat)
    returns (steps: seq<Step>, s': State)
    requires ms < INT32_RANGE && t2.due == FutureTime(s.clock, ms)
    requires s.poll == Poll([w], ToSend) && s.queue == []
    requires s.clients == map[c := Client(true, Some(t1), Free, 2, false, 1, 0, 0, 0)]
    requires s.delegates == map[t1.addr := Delegate(t1, c, w, true, true, 1, 0)] && t1.addr != t2.addr
    ensures RunsTo(s, steps, s')
    ensures s'.clock == s.clock && s'.task == s.task && s'.sw == s.sw && s'.hw == s.hw
    ensures s'.queue == [RemoveMsg(w, t1), PushMsg(w, t2), ExpireMsg(w)] && s'.poll.todo == []
    ensures s'.clients == map[c := Client(true, Some(t2), Free, 3, false, 2, 1, 0, 0)]
    ensures s'.delegates == map[t1.addr := Delegate(t1, c, w, false, false, 1, 0),
      t2.addr := Delegate(t2, c, w, true, true, 0, 0)]
  {
    var s1 := AfterStop(s, c, t1);
    StopTimer(s, c, t1);
    var s2 := AfterStart(s1, c, w, t2);
    StartTimer(s1, c, w, ms, t2.addr);
    RunsOn(s, [StopBegin(c), StopEnd(c)], s1, StartSteps(c, w, ms, t2.addr), s2);
    steps := [StopBegin(c), StopEnd(c)] + StartSteps(c, w, ms, t2.addr);
    s' := AfterSend(s2, w);
    SendExpire(s2, w);
    RunsOn(s, steps, s2, [PollSend], s');
    steps := steps + [PollSend];
  }

  lemma RemoveOldOne(s: State, c: ClientId, w: Which, t1: Timer, t2: Timer) returns (s': State)
    requires s.task == Idle && s.queue == [RemoveMsg(w, t1), PushMsg(w, t2), ExpireMsg(w)] && s.At(w).tree == Single(t1)
    requires s.clients == map[c := Client(true, Some(t2), Free, 3, false, 2, 1, 0, 0)] && t1.addr != t2.addr
    requires s.delegates == map[t1.addr := Delegate(t1, c, w, false, false, 1, 0),
      t2.addr := Delegate(t2, c, w, true, true, 0, 0)]
    ensures RunsTo(s, [TaskReceive], s')
    ensures s'.clock == s.clock && s'.task == Idle && s'.queue == [PushMsg(w, t2), ExpireMsg(w)]
      && s'.At(w).tree == Leaf
    ensures s'.poll == s.poll
    ensures s'.clients == map[c := Client(true, Some(t2), Free, 2, false, 2, 1, 0, 0)]
    ensures s'.DelegateAt(t2) == Delegate(t2, c, w, true, true, 0, 0)
  {
    s' := AfterLastRemoval(s, w, t1);
    RemoveLast(s, w, t1);
  }

  /** The client's second timer has been popped by an expire message, and nothing else is going on. */
  ghost predicate SecondPopped(s: State, c: ClientId, w: Which, timer: Timer) {
    && s.task == ToStop(w, s.clock, c, timer) && s.queue == [] && s.poll.todo == []
    && s.At(w) == Container(Leaf, Fd(Some(timer.due), true))
    && s.clients == map[c := Client(true, Some(timer), Free, 2, false, 2, 1, 0, 0)]
    && s.DelegateAt(timer) == Delegate(timer, c, w, true, true, 1, 0)
  }

  /** The client's second timer is alone in its heap, and the message sent for the first is the only one left. */
  ghost predicate SecondToExpire(s: State, c: ClientId, w: Which, timer: Timer) {
    && s.task == Idle && s.queue == [ExpireMsg(w)] && s.poll.todo == []
    && s.At(w) == Container(Single(timer), Fd(Some(timer.due), true))
    && s.clients == map[c := Client(true, Some(timer), Free, 2, false, 2, 1, 0, 0)]
    && s.DelegateAt(timer) == Delegate(timer, c, w, true, true, 1, 0)
  }

  /** Two of the three messages: the due timer is removed and the new one is pushed. */
  lemma PushTheNewOne(s: State, c: ClientId, w: Which, t1: Timer, t2: Timer) returns (steps: seq<Step>, s': State)
    requires s.task == Idle && s.queue == [RemoveMsg(w, t1), PushMsg(w, t2), ExpireMsg(w)] && s.At(w).tree == Single(t1)
    requires s.poll.todo == [] && s.clients == map[c := Client(true, Some(t2), Free, 3, false, 2, 1, 0, 0)]
    requires s.delegates
      == map[t1.addr := Delegate(t1, c, w, false, false, 1, 0), t2.addr := Delegate(t2, c, w, true, true, 0, 0)]
    requires t1.addr != t2.addr
    ensures RunsTo(s, steps, s') && s'.clock == s.clock && SecondToExpire(s', c, w, t2)
  {
    var s1 := RemoveOldOne(s, c, w, t1, t2);
    s' := Watching(s1, w, t2);
    PushFirst(s1, w, t2);
    RunsOn(s, [TaskReceive], s1, [TaskReceive] + [TaskAddPoll, TaskSetTime], s');
    steps := [TaskReceive] + ([TaskReceive] + [TaskAddPoll, TaskSetTime]);
  }

  /** The run up to the expire message that meets a timer which is not due. */
  lemma MeetsSecond(s: State, c: ClientId, w: Which, ms: nat, t1: Timer, to: ClockReading, ms': nat, t2: Timer)
    returns (steps: seq<Step>, s': State)
    requires Initial(s) && ms < INT32_RANGE && t1.due == FutureTime(s.clock, ms) && InTurn(s.clock, t1, to, t2, ms')
    ensures RunsTo(s, steps, s') && SecondToExpire(s', c, w, t2) && s'.clock == to && !DueBy(t2, to)
  {
    var s1, s2, s3, more, last;
    steps, s1 := StartOneTimer(s, c, w, ms, t1.addr);
    more, s2 := WakeForTimer(s1, c, w, t1, to);
    RunsOn(s, steps, s1, more, s2);
    steps := steps + more;
    more, s3 := ReplaceBeforeExpire(s2, c, w, t1, t2, ms');
    RunsOn(s, steps, s2, more, s3);
    steps := steps + more;
    last, s' := PushTheNewOne(s3, c, w, t1, t2);
    RunsOn(s, steps, s3, last, s');
    steps := steps + last;
    TurnOfSecond(s.clock, t1, to, t2, ms');
  }

  /** The expire message pops it. */
  lemma PopSecond(s: State, c: ClientId, w: Which, timer: Timer) returns (s': State)
    requires SecondToExpire(s, c, w, timer)
    ensures RunsTo(s, [TaskReceive, TaskReadClient], s') && s'.clock == s.clock && SecondPopped(s', c, w, timer)
    ensures Next(s, TaskReceive).At(w).tree == Leaf
  {
    s' := AboutToStop(s, w, timer);
    PopOnly(s, w, timer);
    assert PopTop(OutRanks, Single(timer)) == Leaf;
  }

  /**
    * Early, second way: when an expire message is handled, the due timer it was sent for has already been replaced; the
    * new one is on top, is popped although it is not due, and is what the task is about to stop.
    */
  lemma ExpiryPopsEarly(s: State, c: ClientId, w: Which, ms: nat, t1: Timer, to: ClockReading, ms': nat, t2: Timer)
    returns (steps: seq<Step>, mid: State, s': State)
    requires Initial(s) && ms < INT32_RANGE && t1.due == FutureTime(s.clock, ms) && InTurn(s.clock, t1, to, t2, ms')
    ensures RunsTo(s, steps, mid) && SecondToExpire(mid, c, w, t2)
    ensures RunsTo(mid, [TaskReceive, TaskReadClient], s') && SecondPopped(s', c, w, t2) && !DueBy(t2, s'.clock)
    ensures Enabled(s', TaskStopBegin) && Stops(s', c, t2)
  {
    steps, mid := MeetsSecond(s, c, w, ms, t1, to, ms', t2);
    s' := PopSecond(mid, c, w, t2);
    StopsItsTimer(s', t2);
  }

  /** The expiry of the second timer runs to its end, and then the removal that it sent. */
  lemma FinishSecond(s: State, c: ClientId, w: Which, timer: Timer) returns (steps: seq<Step>, s': State)
    requires SecondPopped(s, c, w, timer)
    ensures RunsTo(s, steps, s') && s'.task == Idle && s'.queue == [] && s'.poll.todo == []
    ensures s'.At(w) == Container(Leaf, Fd(Some(timer.due), true))
  {
    var s1 := AfterCallback(s, c, timer);
    StopAndCallBack(s, c, timer);
    var s2 := s1.(task := Idle);
    EndLoop(s1);
    RunsOn(s, [TaskStopBegin, TaskStopEnd, TaskCallback], s1, [TaskPopNext], s2);
    steps := [TaskStopBegin, TaskStopEnd, TaskCallback] + [TaskPopNext];
    assert s2.queue == [RemoveMsg(w, timer)];
    s' := AfterLastRemoval(s2, w, timer);
    RemoveLast(s2, w, timer);
    RunsOn(s, steps, s2, [TaskReceive], s');
    steps := steps + [TaskReceive];
  }

  /**
    * An expiry, too, can leave a heap empty, everything at rest and the descriptor armed: the expire message of the run
    * above is the only one, takes the only timer out, and from there all comes to rest.
    */
  lemma EmptiedByExpiryStaysArmed(s: State, c: ClientId, w: Which, ms: nat, t1: Timer, to: ClockReading, ms': nat,
                                  t2: Timer)
    returns (steps: seq<Step>, mid: State, more: seq<Step>, s': State)
    requires Initial(s) && ms < INT32_RANGE && t1.due == FutureTime(s.clock, ms) && InTurn(s.clock, t1, to, t2, ms')
    ensures RunsTo(s, steps, mid) && mid.task == Idle && mid.queue == [ExpireMsg(w)] && mid.At(w).tree == Single(t2)
    ensures Next(mid, TaskReceive).At(w).tree == Leaf && more != [] && more[0] == TaskReceive
    ensures RunsTo(mid, more, s') && s'.task == Idle && s'.queue == [] && !ExpireComing(s', w)
    ensures s'.At(w) == Container(Leaf, Fd(Some(t2.due), true))
  {
    steps, mid := MeetsSecond(s, c, w, ms, t1, to, ms', t2);
    var s1 := PopSecond(mid, c, w, t2);
    more, s' := FinishSecond(s1, c, w, t2);
    RunsOn(mid, [TaskReceive, TaskReadClient], s1, more, s');
    more := [TaskReceive, TaskReadClient] + more;
  }
}
