/**
  * Stretches of runs, from one state to the next worth naming: what a client and the task do when nobody gets in
  * between.  Longer runs are put together from these.
  */
module TimerRuns {
  import opened Wrappers
  import opened HeapSpec
  import opened TimerSpec
  import opened TimerProtocol

  ghost predicate RunsTo(s: State, steps: seq<Step>, s': State) {
    CanRun(s, steps) && After(s, steps) == s'
  }

  lemma {:induction false} RunsOn(s: State, a: seq<Step>, s': State, b: seq<Step>, s'': State)
    requires RunsTo(s, a, s') && RunsTo(s', b, s'')
    ensures RunsTo(s, a + b, s'')
    decreases |a|
  {
    if a == [] {
      assert a + b == b;
    } else {
      RunsOn(Next(s, a[0]), a[1..], s', b, s'');
      assert (a + b)[1..] == a[1..] + b;
    }
  }

  lemma RunsOne(s: State, step: Step)
    requires Enabled(s, step)
    ensures RunsTo(s, [step], Next(s, step))
  {
    assert [step][1..] == [];
  }

  lemma RunsTwo(s: State, a: Step, b: Step)
    requires Enabled(s, a) && Enabled(Next(s, a), b)
    ensures RunsTo(s, [a, b], Next(Next(s, a), b))
  {
    RunsOne(s, a);
    RunsOne(Next(s, a), b);
    RunsOn(s, [a], Next(s, a), [b], Next(Next(s, a), b));
    assert [a] + [b] == [a, b];
  }

  lemma RunsThree(s: State, a: Step, b: Step, c: Step, s1: State, s2: State, s3: State)
    requires Enabled(s, a) && s1 == Next(s, a) && Enabled(s1, b) && s2 == Next(s1, b) && Enabled(s2, c)
      && s3 == Next(s2, c)
    ensures RunsTo(s, [a, b, c], s3)
  {
    RunsTwo(s, a, b);
    RunsOne(s2, c);
    RunsOn(s, [a, b], s2, [c], s3);
    assert [a, b] + [c] == [a, b, c];
  }

  // ----- a client -----

  ghost function AfterStart(s: State, c: ClientId, w: Which, timer: Timer): State {
    var client := s.ClientAt(c);
    s.WithDelegate(Delegate(timer, c, w, true, true, 0, 0)).Send(PushMsg(w, timer))
      .WithClient(c, client.(mTimer := Some(timer), lock := Free, mRef := client.mRef + 1, starts := client.starts + 1))
  }

  function StartSteps(c: ClientId, w: Which, ms: nat, addr: nat): seq<Step> {
    [StartBegin(c, w, ms), StartPush(c, addr), StartEnd(c)]
  }

  lemma StartTimer(s: State, c: ClientId, w: Which, ms: nat, addr: nat)
    requires Running(s, c) && s.clients[c].lock == Free && s.clients[c].mTimer == None
    requires ms < INT32_RANGE && addr !in s.delegates
    ensures RunsTo(s, StartSteps(c, w, ms, addr), AfterStart(s, c, w, Timer(addr, FutureTime(s.clock, ms))))
  {
    var timer := Timer(addr, FutureTime(s.clock, ms));
    var s1 := Next(s, StartBegin(c, w, ms));
    var s2 := Next(s1, StartPush(c, addr));
    var s3 := Next(s2, StartEnd(c));
    RunsThree(s, StartBegin(c, w, ms), StartPush(c, addr), StartEnd(c), s1, s2, s3);
    assert s3.clients == AfterStart(s, c, w, timer).clients;
  }

  ghost function AfterStop(s: State, c: ClientId, timer: Timer): State {
    var client, d := s.ClientAt(c), s.DelegateAt(timer);
    s.WithDelegate(d.(mClient := false, mContainer := false)).Send(RemoveMsg(d.which, timer))
      .WithClient(c, client.(mTimer := None, lock := Free, clientStops := client.clientStops + 1))
  }

  lemma StopTimer(s: State, c: ClientId, timer: Timer)
    requires Running(s, c) && s.clients[c].lock == Free && s.clients[c].mTimer == Some(timer)
    requires s.DelegateAt(timer).timer == timer && s.DelegateAt(timer).mContainer
    ensures RunsTo(s, [StopBegin(c), StopEnd(c)], AfterStop(s, c, timer))
  {
    var s1 := Next(s, StopBegin(c));
    RunsTwo(s, StopBegin(c), StopEnd(c));
    assert Next(s1, StopEnd(c)).clients == AfterStop(s, c, timer).clients;
  }

  // ----- the task -----

  /** The first timer of a heap has been pushed and the descriptor watches it. */
  ghost function Watching(s: State, w: Which, timer: Timer): State {
    var d := s.DelegateAt(timer);
    (if s.queue == [] then s else s.(queue := s.queue[1..]))
      .WithDelegate(d.(pushes := d.pushes + 1)).With(w, Container(Single(timer), Fd(Some(timer.due), true)))
  }

  /** The same before the descriptor has been seen to. */
  ghost function ToWatch(s: State, w: Which, timer: Timer): State {
    var d := s.DelegateAt(timer);
    (if s.queue == [] then s else s.(queue := s.queue[1..]))
      .With(w, s.At(w).(tree := Single(timer))).WithDelegate(d.(pushes := d.pushes + 1))
      .(task := Adding(w, timer.due, None))
  }

  lemma ReceiveFirst(s: State, w: Which, timer: Timer)
    requires s.task == Idle && s.queue != [] && s.queue[0] == PushMsg(w, timer) && s.At(w).tree == Leaf
    ensures RunsTo(s, [TaskReceive], ToWatch(s, w, timer))
  {
    assert OnPush(Leaf, timer) == Outcome(Single(timer), Arm(timer.due));
    RunsOne(s, TaskReceive);
  }

  lemma Arming(s: State, w: Which, due: BootTime)
    requires s.task == Adding(w, due, None)
    ensures var s' := s.With(w, Container(s.At(w).tree, Fd(Some(due), true))).(task := Idle);
      RunsTo(s, [TaskAddPoll, TaskSetTime], s')
  {
    RunsTwo(s, TaskAddPoll, TaskSetTime);
  }

  lemma PushFirst(s: State, w: Which, timer: Timer)
    requires s.task == Idle && s.queue != [] && s.queue[0] == PushMsg(w, timer) && s.At(w).tree == Leaf
    ensures RunsTo(s, [TaskReceive] + [TaskAddPoll, TaskSetTime], Watching(s, w, timer))
  {
    ReceiveFirst(s, w, timer);
    Arming(ToWatch(s, w, timer), w, timer.due);
    RunsOn(s, [TaskReceive], ToWatch(s, w, timer), [TaskAddPoll, TaskSetTime], Watching(s, w, timer));
  }

  /** The only timer of a heap, or none, has been removed and its delegate deleted; the descriptor is as it was. */
  ghost function AfterLastRemoval(s: State, w: Which, timer: Timer): State {
    Delete((if s.queue == [] then s else s.(queue := s.queue[1..])).With(w, s.At(w).(tree := Leaf)), timer)
  }

  lemma RemoveLast(s: State, w: Which, timer: Timer)
    requires s.task == Idle && s.queue != [] && s.queue[0] == RemoveMsg(w, timer)
    requires s.At(w).tree == Single(timer) || s.At(w).tree == Leaf
    ensures RunsTo(s, [TaskReceive], AfterLastRemoval(s, w, timer))
  {
    assert Remove(OutRanks, Single(timer), timer) == Removal(true, Leaf);
    assert OnRemove(s.At(w).tree, timer) == Outcome(Leaf, Keep);
    RunsOne(s, TaskReceive);
  }

  /** An expire message has popped the only timer of a heap and read its client. */
  ghost function AboutToStop(s: State, w: Which, timer: Timer): State {
    (if s.queue == [] then s else s.(queue := s.queue[1..]))
      .With(w, s.At(w).(tree := Leaf)).(task := ToStop(w, s.clock, s.DelegateAt(timer).owner, timer))
  }

  lemma PopOnly(s: State, w: Which, timer: Timer)
    requires s.task == Idle && s.queue != [] && s.queue[0] == ExpireMsg(w) && s.At(w).tree == Single(timer)
    requires s.DelegateAt(timer).mClient
    ensures RunsTo(s, [TaskReceive, TaskReadClient], AboutToStop(s, w, timer))
  {
    assert PopTop(OutRanks, Single(timer)) == Leaf;
    RunsTwo(s, TaskReceive, TaskReadClient);
  }

  /** The task has stopped the client's timer on expiry and called the client back. */
  ghost function AfterCallback(s: State, c: ClientId, timer: Timer): State
    requires s.task != Idle
  {
    var client, d := s.ClientAt(c), s.DelegateAt(timer);
    s.WithDelegate(d.(mClient := false, mContainer := false)).Send(RemoveMsg(d.which, timer))
      .WithClient(c, client.(mTimer := None, lock := Free, expiryStops := client.expiryStops + 1,
                             callbacks := client.callbacks + 1))
      .(task := if s.task.ToStop? then Draining(s.task.which, s.task.now) else s.task)
  }

  lemma StopAndCallBack(s: State, c: ClientId, timer: Timer)
    requires s.task.ToStop? && s.task.client == c
    requires c in s.clients && s.clients[c].lock == Free && s.clients[c].mTimer == Some(timer)
    requires s.DelegateAt(timer).timer == timer && s.DelegateAt(timer).mContainer
    ensures RunsTo(s, [TaskStopBegin, TaskStopEnd, TaskCallback], AfterCallback(s, c, timer))
  {
    var s1 := Next(s, TaskStopBegin);
    assert s1.ClientAt(c).lock == Stopping(timer, true, true);
    var s2 := Next(s1, TaskStopEnd);
    assert s2.ClientAt(c).lock == Free && s2.task == ToCall(s.task.which, s.task.now, c);
    var s3 := Next(s2, TaskCallback);
    RunsThree(s, TaskStopBegin, TaskStopEnd, TaskCallback, s1, s2, s3);
    assert s3.clients == AfterCallback(s, c, timer).clients;
  }

  /** With nothing left to pop the loop of an expire message ends. */
  lemma EndLoop(s: State)
    requires s.task.Draining? && s.At(s.task.which).tree == Leaf
    ensures RunsTo(s, [TaskPopNext], s.(task := Idle))
  {
    RunsOne(s, TaskPopNext);
  }

  // ----- the poll thread -----

  /** Time has passed, and the poll thread has woken, disarmed and unpolled the descriptor, and is about to say so. */
  ghost function AfterWake(s: State, w: Which, to: ClockReading): State {
    s.With(w, s.At(w).(fd := Fd(None, false))).(clock := to, poll := Poll([w], ToSend))
  }

  lemma Wake(s: State, w: Which, to: ClockReading)
    requires s.poll.todo == [] && s.At(w).fd.polled && s.At(w).fd.armed != None
    requires Nanos(s.clock) <= Nanos(to) && Nanos(s.At(w).fd.armed.value) <= Nanos(to)
    ensures RunsTo(s, [Tick(to), PollWake([w])] + [PollDisarm, PollRemove], AfterWake(s, w, to))
  {
    var s1 := Next(s, Tick(to));
    assert Readable(s1.At(w), s1.clock);
    var s2 := Next(s1, PollWake([w]));
    RunsTwo(s, Tick(to), PollWake([w]));
    var s3 := Next(s2, PollDisarm);
    RunsTwo(s2, PollDisarm, PollRemove);
    RunsOn(s, [Tick(to), PollWake([w])], s2, [PollDisarm, PollRemove], Next(s3, PollRemove));
  }

  ghost function AfterSend(s: State, w: Which): State {
    s.Send(ExpireMsg(w)).(poll := Poll([], ToDisarm))
  }

  lemma SendExpire(s: State, w: Which)
    requires s.poll == Poll([w], ToSend)
    ensures RunsTo(s, [PollSend], AfterSend(s, w))
  {
    RunsOne(s, PollSend);
    assert [w][1..] == [];
  }
}
