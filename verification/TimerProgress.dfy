/**
  * The service never gets stuck and never goes round in circles: whatever state a run has come to, the threads' own
  * steps, with no client asking for anything and no time passing, are bounded in number, and when no more is possible
  * everything is at rest and no timer that is due is left.
  */
module TimerProgress {
  import opened Wrappers
  import opened HeapSpec
  import opened TimerSpec
  import opened TimerProtocol
  import opened TimerArming
  import opened TimerLifetime
  import opened TimerRuns

  /** Going on with what has been begun, and waking for a descriptor whose time has come. */
  predicate Own(step: Step) {
    !step.Tick? && !step.NewClient? && !step.StartBegin? && !step.StopBegin? && !step.Destroy?
  }

  // ----- how much there is still to do -----

  ghost function Computing(s: State): set<ClientId> {
    set c | c in s.clients && s.clients[c].lock.Computing?
  }

  /** Clients whose own thread is about to leave `start` or `stop`. */
  ghost function Leaving(s: State): set<ClientId> {
    set c | c in s.clients && ByClient(s.clients[c].lock)
  }

  predicate ByClient(lock: Lock) {
    lock.Starting? || (lock.Stopping? && !lock.byTask)
  }

  ghost function WithTimer(s: State): set<ClientId> {
    set c | c in s.clients && s.clients[c].mTimer != None
  }

  ghost function ClientWork(s: State): nat {
    30 * |Computing(s)| + 9 * |Leaving(s)| + 8 * |WithTimer(s)|
  }

  ghost function HeapWork(s: State): nat {
    12 * |Bag(s.sw.tree)| + 12 * |Bag(s.hw.tree)|
  }

  function MsgWork(m: Msg): nat {
    if m.PushMsg? then 20 else if m.RemoveMsg? then 8 else 1
  }

  function QueueWork(q: seq<Msg>): nat {
    if q == [] then 0 else MsgWork(q[0]) + QueueWork(q[1..])
  }

  function TaskWork(task: Task): nat {
    match task
    case Idle => 0
    case Setting(_, _, _) => 6
    case Adding(_, _, _) => 7
    case Draining(_, _) => 8
    case ToCall(_, _, _) => 9
    case ToStop(_, _, _, _) => 11
    case Expiring(_, _, _) => 12
    case InStop(_, _, _) => 18
  }

  function PollWork(p: Poll): nat {
    if p.todo == [] then 0 else 4 * |p.todo| - (if p.phase == ToDisarm then 0 else if p.phase == ToUnpoll then 1 else 2)
  }

  /** The poll thread is still to disarm it. */
  predicate Waiting(p: Poll, w: Which) {
    p.todo != [] && (w in p.todo[1..] || (p.todo[0] == w && p.phase == ToDisarm))
  }

  /** An armed descriptor may yet wake the poll thread. */
  function FdWork(s: State, w: Which): nat {
    if s.At(w).fd.armed != None && !Waiting(s.poll, w) then 5 else 0
  }

  ghost function Work(s: State): nat {
    ClientWork(s) + HeapWork(s) + QueueWork(s.queue) + TaskWork(s.task) + PollWork(s.poll)
      + FdWork(s, Sw) + FdWork(s, Hw)
  }

  lemma {:induction false} WorkSent(q: seq<Msg>, m: Msg)
    ensures QueueWork(q + [m]) == QueueWork(q) + MsgWork(m)
  {
    if q == [] {
      assert q + [m] == [m];
    } else {
      WorkSent(q[1..], m);
      assert (q + [m])[1..] == q[1..] + [m];
    }
  }

  /** No client's lock is taken or left by its own thread, and none gets or loses a timer. */
  ghost predicate SameClients(s: State, s': State) {
    && s'.clients.Keys == s.clients.Keys
    && forall c :: c in s.clients ==>
        && (s'.clients[c].lock.Computing? <==> s.clients[c].lock.Computing?)
        && (ByClient(s'.clients[c].lock) <==> ByClient(s.clients[c].lock))
        && (s'.clients[c].mTimer == None <==> s.clients[c].mTimer == None)
  }

  lemma SameClientWork(s: State, s': State)
    requires SameClients(s, s')
    ensures ClientWork(s') == ClientWork(s)
  {
    assert Computing(s') == Computing(s) && Leaving(s') == Leaving(s) && WithTimer(s') == WithTimer(s);
  }

  /** The descriptors are armed, and waiting to be disarmed, as they were. */
  lemma SameFdWork(s: State, s': State)
    requires s'.poll == s.poll && s'.sw.fd.armed == s.sw.fd.armed && s'.hw.fd.armed == s.hw.fd.armed
    ensures FdWork(s', Sw) == FdWork(s, Sw) && FdWork(s', Hw) == FdWork(s, Hw)
  {}

  /** What the task and its messages and heaps have left. */
  ghost function TaskSide(s: State): nat {
    HeapWork(s) + QueueWork(s.queue) + TaskWork(s.task)
  }

  lemma TaskSideShrinks(s: State, s': State)
    requires SameClients(s, s') && TaskSide(s') < TaskSide(s)
    requires s'.poll == s.poll && s'.sw.fd.armed == s.sw.fd.armed && s'.hw.fd.armed == s.hw.fd.armed
    ensures Work(s') < Work(s)
  {
    SameClientWork(s, s');
    SameFdWork(s, s');
  }

  // ----- every own step leaves less -----

  /** A client's thread goes on inside `start` or `stop`. */
  lemma ClientShrinks(s: State, s': State)
    requires s'.sw == s.sw && s'.hw == s.hw && s'.task == s.task && s'.poll == s.poll
    requires ClientWork(s') + QueueWork(s'.queue) < ClientWork(s) + QueueWork(s.queue)
    ensures Work(s') < Work(s)
  {}

  lemma PushWork(s: State, c: ClientId, addr: nat)
    requires Enabled(s, StartPush(c, addr)) && s.ClientAt(c).mTimer == None
    ensures Work(Next(s, StartPush(c, addr))) < Work(s)
  {
    var s' := Next(s, StartPush(c, addr));
    assert c in Computing(s) && Computing(s') == Computing(s) - {c};
    assert c !in Leaving(s) && Leaving(s') == Leaving(s) + {c};
    assert WithTimer(s') == WithTimer(s);
    var lock := s.ClientAt(c).lock;
    WorkSent(s.queue, PushMsg(lock.which, Timer(addr, lock.due)));
    ClientShrinks(s, s');
  }

  lemma StartEndWork(s: State, c: ClientId)
    requires Enabled(s, StartEnd(c)) && s.ClientAt(c).mTimer == None
    ensures Work(Next(s, StartEnd(c))) < Work(s)
  {
    var s' := Next(s, StartEnd(c));
    assert Computing(s') == Computing(s);
    assert c in Leaving(s) && Leaving(s') == Leaving(s) - {c};
    assert c !in WithTimer(s) && WithTimer(s') == WithTimer(s) + {c};
    ClientShrinks(s, s');
  }

  lemma StopEndWork(s: State, c: ClientId)
    requires Enabled(s, StopEnd(c))
    ensures Work(Next(s, StopEnd(c))) < Work(s)
  {
    var s', timer := Next(s, StopEnd(c)), s.ClientAt(c).lock.timer;
    assert Computing(s') == Computing(s) && WithTimer(s') == WithTimer(s);
    assert c in Leaving(s) && Leaving(s') == Leaving(s) - {c};
    WorkSent(s.queue, RemoveMsg(s.DelegateAt(timer).which, timer));
    ClientShrinks(s, s');
  }

  /** The task goes on, and nothing else changes but what a descriptor is set to. */
  lemma TaskPlaceShrinks(s: State, s': State)
    requires SameClients(s, s') && s'.sw.tree == s.sw.tree && s'.hw.tree == s.hw.tree
    requires s'.poll == s.poll && s'.sw.fd.armed == s.sw.fd.armed && s'.hw.fd.armed == s.hw.fd.armed
    requires QueueWork(s'.queue) + TaskWork(s'.task) < QueueWork(s.queue) + TaskWork(s.task)
    ensures Work(s') < Work(s)
  {
    TaskSideShrinks(s, s');
  }

  lemma TaskStopWork(s: State)
    requires Enabled(s, TaskStopBegin)
    ensures Work(Next(s, TaskStopBegin)) < Work(s)
  {
    var s', c := Next(s, TaskStopBegin), s.task.client;
    if s.ClientAt(c).mTimer == None {
      TaskPlaceShrinks(s, s');
    } else {
      StopFieldsWork(s, c, s');
      SameFdWork(s, s');
    }
  }

  lemma StopFieldsWork(s: State, c: ClientId, s': State)
    requires s.ClientAt(c).lock == Free && s.ClientAt(c).mTimer != None && s'.clients == StopFields(s, c, true).clients
    ensures ClientWork(s') + 8 == ClientWork(s)
  {
    assert Computing(s') == Computing(s) && Leaving(s') == Leaving(s);
    assert c in WithTimer(s) && WithTimer(s') == WithTimer(s) - {c};
  }

  lemma TaskStopEndWork(s: State)
    requires Enabled(s, TaskStopEnd) && ClientOk(s, s.task.client)
    ensures Work(Next(s, TaskStopEnd)) < Work(s)
  {
    var timer := s.ClientAt(s.task.client).lock.timer;
    WorkSent(s.queue, RemoveMsg(s.DelegateAt(timer).which, timer));
    TaskPlaceShrinks(s, Next(s, TaskStopEnd));
  }

  lemma TaskWorkShrinks(s: State, step: Step)
    requires Enabled(s, step) && (step == TaskReadClient || step == TaskAddPoll)
    ensures Work(Next(s, step)) < Work(s)
  {
    TaskPlaceShrinks(s, Next(s, step));
  }

  lemma CallbackWork(s: State)
    requires s.task.ToCall? && s.task.client in s.clients
    ensures Work(Next(s, TaskCallback)) < Work(s)
  {
    TaskPlaceShrinks(s, Next(s, TaskCallback));
  }

  lemma FinishKeepsClients(s: State, doomed: Option<Timer>)
    requires doomed != None ==> s.DelegateAt(doomed.value).owner in s.clients
    ensures var s' := Finish(s, doomed);
      && SameClients(s, s') && s'.sw == s.sw && s'.hw == s.hw && s'.poll == s.poll && s'.queue == s.queue
      && s'.task == Idle
  {}

  lemma ArmedWork(s: State, w: Which, due: BootTime)
    ensures var armed := s.With(w, s.At(w).(fd := s.At(w).fd.(armed := Some(due))));
      && HeapWork(armed) == HeapWork(s) && ClientWork(armed) == ClientWork(s)
      && FdWork(armed, Sw) + FdWork(armed, Hw) <= FdWork(s, Sw) + FdWork(s, Hw) + 5
  {
    SameClientWork(s, s.With(w, s.At(w).(fd := s.At(w).fd.(armed := Some(due)))));
  }

  lemma FinishWork(s: State, doomed: Option<Timer>)
    requires doomed != None ==> s.DelegateAt(doomed.value).owner in s.clients
    ensures Work(Finish(s, doomed)) + TaskWork(s.task) == Work(s)
  {
    FinishKeepsClients(s, doomed);
    SameClientWork(s, Finish(s, doomed));
    SameFdWork(s, Finish(s, doomed));
  }

  lemma SetTimeWork(s: State)
    requires s.task.Setting?
    requires s.task.doomed != None ==> s.DelegateAt(s.task.doomed.value).owner in s.clients
    ensures Work(Next(s, TaskSetTime)) < Work(s)
  {
    var Setting(w, due, doomed) := s.task;
    ArmedWork(s, w, due);
    FinishWork(s.With(w, s.At(w).(fd := s.At(w).fd.(armed := Some(due)))), doomed);
  }

  lemma PopIsOneLess(t: Tree<Timer>)
    requires HeapOk(t) && t.Node?
    ensures |Bag(PopTop(OutRanks, t))| == |Bag(t)| - 1
  {
    PopTimer(t);
  }

  lemma PopHeapWork(s: State, w: Which, now: BootTime)
    requires HeapOk(s.At(w).tree) && s.At(w).tree.Node?
    ensures HeapWork(PopToExpire(s, w, now)) + 12 == HeapWork(s)
  {
    PopIsOneLess(s.At(w).tree);
  }

  /** A pop pays for all that expiring one timer can lead to. */
  lemma PopWork(s: State, mid: State, w: Which, now: BootTime)
    requires HeapOk(s.At(w).tree) && s.At(w).tree.Node? && mid.sw == s.sw && mid.hw == s.hw && mid.clients == s.clients
    requires mid.poll == s.poll && QueueWork(mid.queue) < QueueWork(s.queue) + TaskWork(s.task)
    ensures Work(PopToExpire(mid, w, now)) < Work(s)
  {
    PopHeapWork(mid, w, now);
    TaskSideShrinks(s, PopToExpire(mid, w, now));
  }

  lemma LoopEndWork(s: State, w: Which, action: Action)
    requires s.task.Draining? && !action.Disarm?
    ensures Work(Dispatch(s, w, action, None)) < Work(s)
  {
    TaskPlaceShrinks(s, Dispatch(s, w, action, None));
  }

  lemma PopNextWork(s: State)
    requires s.task.Draining? && HeapOk(s.At(s.task.which).tree)
    ensures Work(Next(s, TaskPopNext)) < Work(s)
  {
    var Draining(w, now) := s.task;
    var t := s.At(w).tree;
    if t.Node? && !OutRanks(Timer(0, now), t.data) {
      PopWork(s, s, w, now);
    } else {
      LoopEndWork(s, w, UpdateSoonest(None, Top(t)));
    }
  }

  /** A message is done with its heap and goes on to the descriptor, if at all. */
  lemma ReceivedWork(s: State, mid: State, w: Which, action: Action, doomed: Option<Timer>)
    requires s.task == Idle && s.queue != [] && mid.queue == s.queue[1..] && mid.clients == s.clients
      && mid.poll == s.poll
    requires mid.task == Idle && mid.sw.fd == s.sw.fd && mid.hw.fd == s.hw.fd && !action.Disarm?
    requires HeapWork(mid) + (if action.Arm? then 7 else 0) < HeapWork(s) + MsgWork(s.queue[0])
    requires doomed != None ==> mid.DelegateAt(doomed.value).owner in mid.clients
    ensures Work(Dispatch(mid, w, action, doomed)) < Work(s)
  {
    FinishKeepsClients(mid, doomed);
    TaskSideShrinks(s, Dispatch(mid, w, action, doomed));
  }

  lemma PushedWork(s: State, w: Which, timer: Timer, o: Outcome)
    requires s.task == Idle && s.queue != [] && s.queue[0] == PushMsg(w, timer)
    requires Bag(o.tree) == Bag(s.At(w).tree) + multiset{timer} && !o.action.Disarm?
    ensures Work(Dispatch(AfterPush(s, w, timer, o), w, o.action, None)) < Work(s)
  {
    ReceivedWork(s, AfterPush(s, w, timer, o), w, o.action, None);
  }

  lemma RemovedWork(s: State, w: Which, timer: Timer, o: Outcome)
    requires s.task == Idle && s.queue != [] && s.queue[0] == RemoveMsg(w, timer)
      && s.DelegateAt(timer).owner in s.clients
    requires Bag(o.tree) == Bag(s.At(w).tree) - multiset{timer} && !o.action.Disarm?
    ensures var mid := s.(queue := s.queue[1..]).With(w, s.At(w).(tree := o.tree));
      Work(Dispatch(mid, w, o.action, Some(timer))) < Work(s)
  {
    var mid := s.(queue := s.queue[1..]).With(w, s.At(w).(tree := o.tree));
    assert Bag(o.tree) <= Bag(s.At(w).tree);
    ReceivedWork(s, mid, w, o.action, Some(timer));
  }

  lemma ReceivePushWork(s: State, w: Which, timer: Timer)
    requires s.task == Idle && s.queue != [] && s.queue[0] == PushMsg(w, timer) && HeapOk(s.At(w).tree)
    ensures Work(Receive(s)) < Work(s)
  {
    var o := OnPush(s.At(w).tree, timer);
    PushFollows(s.At(w).tree, timer);
    ReceivePush(s, w, timer, o);
    PushedWork(s, w, timer, o);
  }

  lemma ReceiveRemoveWork(s: State, w: Which, timer: Timer)
    requires s.task == Idle && s.queue != [] && s.queue[0] == RemoveMsg(w, timer) && HeapOk(s.At(w).tree)
    requires s.DelegateAt(timer).owner in s.clients
    ensures Work(Receive(s)) < Work(s)
  {
    var o := OnRemove(s.At(w).tree, timer);
    RemoveFollows(s.At(w).tree, timer);
    RemovedWork(s, w, timer, o);
  }

  lemma ReceiveExpireWork(s: State, w: Which)
    requires s.task == Idle && s.queue != [] && s.queue[0] == ExpireMsg(w) && HeapOk(s.At(w).tree)
    ensures Work(Receive(s)) < Work(s)
  {
    var rest := s.(queue := s.queue[1..]);
    if s.At(w).tree.Node? {
      PopWork(s, rest, w, s.clock);
    } else {
      ReceivedWork(s, rest, w, Keep, None);
    }
  }

  lemma ReceiveWork(s: State)
    requires LifeInv(s) && s.task == Idle && s.queue != []
    ensures Work(Receive(s)) < Work(s)
  {
    assert HeapKnown(s, s.queue[0].which);
    match s.queue[0]
    case PushMsg(w, timer) => ReceivePushWork(s, w, timer);
    case RemoveMsg(w, timer) =>
      assert Known(s, w, timer);
      DelegateAtOk(s, timer);
      ReceiveRemoveWork(s, w, timer);
    case ExpireMsg(w) => ReceiveExpireWork(s, w);
  }

  lemma PollSideShrinks(s: State, s': State)
    requires s'.clients == s.clients && s'.sw.tree == s.sw.tree && s'.hw.tree == s.hw.tree && s'.task == s.task
    requires FdWork(s', Sw) == FdWork(s, Sw) && FdWork(s', Hw) == FdWork(s, Hw)
    requires PollWork(s'.poll) + QueueWork(s'.queue) < PollWork(s.poll) + QueueWork(s.queue)
    ensures Work(s') < Work(s)
  {
    SameClientWork(s, s');
  }

  /** The poll thread goes on with the first event: once a descriptor is disarmed it is no longer waiting for that. */
  lemma PollWorkShrinks(s: State, step: Step)
    requires Enabled(s, step) && (step == PollDisarm || step == PollRemove || step == PollSend)
    ensures Work(Next(s, step)) < Work(s)
  {
    WorkSent(s.queue, ExpireMsg(s.poll.todo[0]));
    FdWorkKept(s, step, Sw);
    FdWorkKept(s, step, Hw);
    PollSideShrinks(s, Next(s, step));
  }

  lemma FdWorkKept(s: State, step: Step, w: Which)
    requires Enabled(s, step) && (step == PollDisarm || step == PollRemove || step == PollSend)
    ensures FdWork(Next(s, step), w) == FdWork(s, w)
  {
    if step == PollSend {
      var rest := s.poll.todo[1..];
      assert w in rest <==> rest != [] && (w in rest[1..] || rest[0] == w);
    }
  }

  ghost function Members(ws: seq<Which>): set<Which> {
    set w | w in ws
  }

  lemma {:induction false} MembersCount(ws: seq<Which>)
    requires NoRepeats(ws)
    ensures |Members(ws)| == |ws|
  {
    if ws != [] {
      var init, last := ws[..|ws| - 1], ws[|ws| - 1];
      MembersCount(init);
      assert ws == init + [last] && last !in init;
      assert Members(ws) == Members(init) + {last};
    }
  }

  lemma TwoEventsAtMost(events: seq<Which>)
    requires NoRepeats(events)
    ensures |events| <= 2
  {
    var m := Members(events);
    MembersCount(events);
    forall w | w in m ensures w in {Sw, Hw} {
      assert w.Sw? || w.Hw?;
    }
    assert {Sw, Hw} == m + ({Sw, Hw} - m);
  }

  /** Waking takes as many descriptors from those that may wake the thread as it gives the thread events. */
  lemma WakeWork(s: State, events: seq<Which>)
    requires Enabled(s, PollWake(events))
    ensures Work(Next(s, PollWake(events))) < Work(s)
  {
    var s' := Next(s, PollWake(events));
    SameClientWork(s, s');
    TwoEventsAtMost(events);
    forall w | w in events ensures FdWork(s, w) == 5 && FdWork(s', w) == 0 {
      assert Readable(s.At(w), s.clock);
      assert w == events[0] || w in events[1..];
    }
    forall w ensures FdWork(s', w) <= FdWork(s, w) {}
    assert events[0] in events;
    if |events| == 2 {
      assert events[1] in events && events[0] != events[1];
    }
  }

  lemma OwnStepShrinks(s: State, step: Step)
    requires LifeInv(s) && Enabled(s, step) && Own(step)
    ensures Work(Next(s, step)) < Work(s)
  {
    match step
    case StartPush(c, addr) =>
      assert ClientOk(s, c);
      PushWork(s, c, addr);
    case StartEnd(c) =>
      assert ClientOk(s, c);
      StartEndWork(s, c);
    case StopEnd(c) => StopEndWork(s, c);
    case TaskReceive => ReceiveWork(s);
    case TaskPopNext =>
      assert HeapKnown(s, s.task.which);
      PopNextWork(s);
    case TaskStopBegin => TaskStopWork(s);
    case TaskStopEnd =>
      assert ClientOk(s, s.task.client);
      TaskStopEndWork(s);
    case TaskCallback =>
      assert ClientOk(s, s.task.client);
      CallbackWork(s);
    case TaskSetTime =>
      if s.task.doomed != None {
        DelegateAtOk(s, s.task.doomed.value);
      }
      SetTimeWork(s);
    case TaskReadClient => TaskWorkShrinks(s, step);
    case TaskAddPoll => TaskWorkShrinks(s, step);
    case PollWake(events) => WakeWork(s, events);
    case _ => PollWorkShrinks(s, step);
  }

  // ----- nothing gets stuck -----

  ghost predicate AtRest(s: State) {
    Quiescent(s) && s.poll.todo == []
  }

  lemma Bound(keys: set<nat>) returns (b: nat)
    ensures forall k :: k in keys ==> k < b
  {
    b := 0;
    if keys != {} {
      var k :| k in keys;
      var rest := keys - {k};
      var b' := Bound(rest);
      b := if b' <= k then k + 1 else b';
      forall x | x in keys ensures x < b {
        assert x == k || x in rest;
      }
    }
  }

  /** There is always an address for one more delegate. */
  lemma FreshAddress(s: State) returns (addr: nat)
    ensures addr !in s.delegates
  {
    addr := Bound(s.delegates.Keys);
  }

  lemma TaskCanGoOn(s: State) returns (step: Step)
    requires (forall c :: ClientOk(s, c)) && s.task != Idle
    requires forall c :: !s.ClientAt(c).lock.Computing? && !ByClient(s.ClientAt(c).lock)
    ensures Own(step) && !step.PollWake? && Enabled(s, step)
  {
    step := match s.task
      case Idle => TaskReceive
      case Setting(_, _, _) => TaskSetTime
      case Adding(_, _, _) => TaskAddPoll
      case Draining(_, _) => TaskPopNext
      case ToCall(_, _, _) => TaskCallback
      case InStop(_, _, _) => TaskStopEnd
      case ToStop(_, _, _, _) => TaskStopBegin
      case Expiring(_, _, _) => TaskReadClient;
    if s.task.InStop? || s.task.ToStop? {
      assert ClientOk(s, s.task.client) && !ByClient(s.ClientAt(s.task.client).lock);
    }
  }

  lemma ClientCanGoOn(s: State, c: ClientId) returns (step: Step)
    requires s.ClientAt(c).lock.Computing? || ByClient(s.ClientAt(c).lock)
    ensures Own(step) && !step.PollWake? && Enabled(s, step)
  {
    var addr := FreshAddress(s);
    var lock := s.ClientAt(c).lock;
    step := if lock.Computing? then StartPush(c, addr) else if lock.Starting? then StartEnd(c) else StopEnd(c);
  }

  lemma SomeoneCanGoOn(s: State) returns (step: Step)
    requires LifeInv(s) && !AtRest(s)
    ensures Own(step) && !step.PollWake? && Enabled(s, step)
  {
    if c :| s.ClientAt(c).lock.Computing? || ByClient(s.ClientAt(c).lock) {
      step := ClientCanGoOn(s, c);
    } else if s.poll.todo != [] {
      step := match s.poll.phase case ToDisarm => PollDisarm case ToUnpoll => PollRemove case ToSend => PollSend;
    } else if s.task != Idle {
      step := TaskCanGoOn(s);
    } else {
      step := TaskReceive;
      if s.queue == [] {
        forall c ensures s.ClientAt(c).lock == Free {
          assert ClientOk(s, c) && !ByClient(s.ClientAt(c).lock);
        }
      }
    }
  }

  /** After every run: if anything has been begun and not finished, some thread can go on with it. */
  lemma NoDeadlock(s0: State, run: seq<Step>) returns (step: Step)
    requires Initial(s0) && CanRun(s0, run) && !AtRest(After(s0, run))
    ensures Own(step) && !step.PollWake? && Enabled(After(s0, run), step)
  {
    LifeInitially(s0);
    LifeAlways(s0, run);
    step := SomeoneCanGoOn(After(s0, run));
  }

  ghost predicate NothingDue(s: State) {
    forall w, t :: t in Bag(s.At(w).tree) ==> !DueBy(t, s.clock)
  }

  /** At rest with a timer due, the poll thread can wake. */
  lemma DueWakes(s: State, w: Which, timer: Timer)
    requires ArmInv(s) && AtRest(s) && timer in Bag(s.At(w).tree) && DueBy(timer, s.clock)
    ensures Enabled(s, PollWake([w]))
  {
    ArmAt(s, w);
    TopIsSoonest(s.At(w).tree, timer);
  }

  /** At rest a client's timer is in its heap. */
  lemma RunningIsNotDue(s: State, c: ClientId)
    requires LifeInv(s) && AtRest(s) && NothingDue(s)
    ensures s.ClientAt(c).mTimer != None ==> !DueBy(s.ClientAt(c).mTimer.value, s.clock)
  {
    assert ClientOk(s, c);
    if s.ClientAt(c).mTimer != None {
      var timer := s.ClientAt(c).mTimer.value;
      DelegateAtOk(s, timer);
      assert Owned(s, s.DelegateAt(timer)) && InHeap(s, s.DelegateAt(timer));
    }
  }

  /** Nothing has been left undone, and no timer that is due is in a heap or running. */
  ghost predicate AllDone(s: State) {
    && AtRest(s) && NothingDue(s)
    && forall c :: s.ClientAt(c).mTimer != None ==> !DueBy(s.ClientAt(c).mTimer.value, s.clock)
  }

  /** No own step is possible. */
  ghost predicate Stuck(s: State) {
    forall step :: Own(step) ==> !Enabled(s, step)
  }

  lemma StuckIsDone(s: State)
    requires LifeInv(s) && ArmInv(s) && Stuck(s)
    ensures AllDone(s)
  {
    if !AtRest(s) {
      var step := SomeoneCanGoOn(s);
    }
    forall w, t | t in Bag(s.At(w).tree) ensures !DueBy(t, s.clock) {
      assert Own(PollWake([w])) && !Enabled(s, PollWake([w]));
      if DueBy(t, s.clock) {
        DueWakes(s, w, t);
      }
    }
    forall c ensures s.ClientAt(c).mTimer != None ==> !DueBy(s.ClientAt(c).mTimer.value, s.clock) {
      RunningIsNotDue(s, c);
    }
  }

  // ----- runs of own steps -----

  predicate OwnSteps(steps: seq<Step>) {
    forall i :: 0 <= i < |steps| ==> Own(steps[i])
  }

  lemma {:induction false} OwnRunBounded(s: State, steps: seq<Step>)
    requires LifeInv(s) && CanRun(s, steps) && OwnSteps(steps)
    ensures |steps| + Work(After(s, steps)) <= Work(s)
    decreases |steps|
  {
    if steps != [] {
      OwnStepShrinks(s, steps[0]);
      LifeStep(s, steps[0]);
      OwnRunBounded(Next(s, steps[0]), steps[1..]);
    }
  }

  /**
    * However the threads go on after a run by steps of their own, they take no more than a number that can be read
    * off the state, and once none can go on, all is at rest and nothing that is due is left.
    */
  lemma MustComeToRest(s0: State, run: seq<Step>, steps: seq<Step>)
    requires Initial(s0) && CanRun(s0, run) && CanRun(After(s0, run), steps) && OwnSteps(steps)
    ensures |steps| <= Work(After(s0, run))
    ensures Stuck(After(After(s0, run), steps)) ==> AllDone(After(After(s0, run), steps))
  {
    var s := After(s0, run);
    LifeInitially(s0);
    LifeAlways(s0, run);
    ArmInitially(s0);
    ArmAlways(s0, run);
    OwnRunBounded(s, steps);
    LifeAlways(s, steps);
    ArmAlways(s, steps);
    if Stuck(After(s, steps)) {
      StuckIsDone(After(s, steps));
    }
  }

  lemma ClockStands(s: State, step: Step)
    requires Enabled(s, step) && Own(step)
    ensures Next(s, step).clock == s.clock
  {}

  lemma {:induction false} Settles(s: State) returns (steps: seq<Step>, s': State)
    requires LifeInv(s)
    ensures RunsTo(s, steps, s') && OwnSteps(steps) && s'.clock == s.clock && Stuck(s')
    decreases Work(s)
  {
    steps, s' := [], s;
    if step :| Own(step) && Enabled(s, step) {
      var rest;
      OwnStepShrinks(s, step);
      LifeStep(s, step);
      ClockStands(s, step);
      rest, s' := Settles(Next(s, step));
      RunsOne(s, step);
      RunsOn(s, [step], Next(s, step), rest, s');
      steps := [step] + rest;
    }
  }

  /** So from the end of every run they do come to rest, with the clock standing still. */
  lemma CanComeToRest(s0: State, run: seq<Step>) returns (steps: seq<Step>, s': State)
    requires Initial(s0) && CanRun(s0, run)
    ensures RunsTo(After(s0, run), steps, s') && OwnSteps(steps) && s'.clock == After(s0, run).clock && AllDone(s')
  {
    LifeInitially(s0);
    LifeAlways(s0, run);
    steps, s' := Settles(After(s0, run));
    MustComeToRest(s0, run, steps);
  }
}
