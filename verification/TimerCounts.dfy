/**
  * What is conserved: starts against stops and callbacks, and the shared lock's count against those who share it.
  */
module TimerCounts {
  import opened Wrappers
  import opened TimerSpec
  import opened TimerProtocol
  import opened TimerLifetime

  /** The task has stopped the client's timer on expiry and still owes the callback. */
  ghost predicate OwesCallback(task: Task, c: ClientId) {
    (task.InStop? || task.ToCall?) && task.client == c
  }

  ghost predicate Balanced(client: Client, owes: bool) {
    && client.starts == client.clientStops + client.expiryStops + (if client.mTimer == None then 0 else 1)
    && client.expiryStops == client.callbacks + (if owes then 1 else 0)
  }

  ghost predicate CountInv(s: State) {
    forall c :: Balanced(s.ClientAt(c), OwesCallback(s.task, c))
  }

  /** Everything about a client that is counted here. */
  ghost predicate SameCounters(a: Client, b: Client) {
    && a.starts == b.starts && a.clientStops == b.clientStops && a.expiryStops == b.expiryStops
    && a.callbacks == b.callbacks && (a.mTimer == None <==> b.mTimer == None)
  }

  lemma CountElsewhere(s: State, s': State)
    requires CountInv(s) && forall c :: SameCounters(s.ClientAt(c), s'.ClientAt(c))
    requires forall c :: OwesCallback(s.task, c) == OwesCallback(s'.task, c)
    ensures CountInv(s')
  {
    forall c ensures Balanced(s'.ClientAt(c), OwesCallback(s'.task, c)) {
      assert SameCounters(s.ClientAt(c), s'.ClientAt(c)) && Balanced(s.ClientAt(c), OwesCallback(s.task, c));
    }
  }

  /** Only client `c` is affected. */
  lemma CountOf(s: State, s': State, c: ClientId)
    requires CountInv(s) && s'.clients == s.clients[c := s'.ClientAt(c)]
    requires Balanced(s'.ClientAt(c), OwesCallback(s'.task, c))
    requires forall b :: b != c ==> OwesCallback(s.task, b) == OwesCallback(s'.task, b)
    ensures CountInv(s')
  {
    forall b ensures Balanced(s'.ClientAt(b), OwesCallback(s'.task, b)) {
      assert Balanced(s.ClientAt(b), OwesCallback(s.task, b));
    }
  }

  lemma FinishKeepsCounters(s: State, doomed: Option<Timer>)
    ensures Finish(s, doomed).task == Idle
    ensures forall c :: SameCounters(s.ClientAt(c), Finish(s, doomed).ClientAt(c))
  {}

  lemma DispatchKeepsCounters(s: State, w: Which, action: Action, doomed: Option<Timer>)
    ensures var s' := Dispatch(s, w, action, doomed);
      && (forall c :: !OwesCallback(s'.task, c)) && (forall c :: SameCounters(s.ClientAt(c), s'.ClientAt(c)))
  {
    FinishKeepsCounters(s, doomed);
    FinishKeepsCounters(s.With(w, s.At(w).(fd := Act(s.At(w).fd, Disarm))), doomed);
  }

  /** A message is done with its heap and goes on to the descriptor. */
  lemma CountDispatch(s: State, mid: State, w: Which, action: Action, doomed: Option<Timer>)
    requires CountInv(s) && s.task == Idle && mid.clients == s.clients
    ensures CountInv(Dispatch(mid, w, action, doomed))
  {
    DispatchKeepsCounters(mid, w, action, doomed);
    assert forall c :: mid.ClientAt(c) == s.ClientAt(c);
    CountElsewhere(s, Dispatch(mid, w, action, doomed));
  }

  lemma CountPopped(s: State, mid: State, w: Which, now: BootTime)
    requires CountInv(s) && s.task == Idle && mid.clients == s.clients && mid.At(w).tree.Node?
    ensures CountInv(PopToExpire(mid, w, now))
  {
    assert forall c :: mid.ClientAt(c) == s.ClientAt(c);
    CountElsewhere(s, PopToExpire(mid, w, now));
  }

  lemma CountReceive(s: State)
    requires CountInv(s) && s.task == Idle && s.queue != []
    ensures CountInv(Receive(s))
  {
    var msg, rest := s.queue[0], s.(queue := s.queue[1..]);
    var w := msg.which;
    var t := s.At(w).tree;
    match msg {
      case PushMsg(_, timer) =>
        var d := s.DelegateAt(timer);
        var pushed := rest.With(w, s.At(w).(tree := OnPush(t, timer).tree)).WithDelegate(d.(pushes := d.pushes + 1));
        CountDispatch(s, pushed, w, OnPush(t, timer).action, None);
      case RemoveMsg(_, timer) =>
        var removed := rest.With(w, s.At(w).(tree := OnRemove(t, timer).tree));
        CountDispatch(s, removed, w, OnRemove(t, timer).action, Some(timer));
      case ExpireMsg(_) =>
        if t.Node? {
          CountPopped(s, rest, w, s.clock);
        } else {
          CountDispatch(s, rest, w, UpdateSoonest(None, Top(t)), None);
        }
    }
  }

  lemma CountPopNext(s: State)
    requires CountInv(s) && s.task.Draining?
    ensures CountInv(Next(s, TaskPopNext))
  {
    var Draining(w, now) := s.task;
    DispatchKeepsCounters(s, w, UpdateSoonest(None, Top(s.At(w).tree)), None);
    CountElsewhere(s, Next(s, TaskPopNext));
  }

  lemma CountSetTime(s: State)
    requires CountInv(s) && s.task.Setting?
    ensures CountInv(Next(s, TaskSetTime))
  {
    var Setting(w, due, doomed) := s.task;
    FinishKeepsCounters(s.With(w, s.At(w).(fd := s.At(w).fd.(armed := Some(due)))), doomed);
    CountElsewhere(s, Next(s, TaskSetTime));
  }

  lemma CountStop(s: State, c: ClientId, byTask: bool, s': State)
    requires CountInv(s) && s.ClientAt(c).mTimer != None
    requires s'.clients == StopFields(s, c, byTask).clients
    requires if byTask then s.task.ToStop? && s'.task.InStop? && s'.task.client == c else s'.task == s.task
    ensures CountInv(s')
  {
    assert Balanced(s.ClientAt(c), OwesCallback(s.task, c));
    CountOf(s, s', c);
  }

  lemma CountStopEnd(s: State, c: ClientId, s': State)
    requires CountInv(s) && s.ClientAt(c).lock.Stopping? && s'.clients == StopSend(s, c).clients
    requires s'.task == s.task || (s.task.InStop? && s'.task.ToCall? && s'.task.client == s.task.client)
    ensures CountInv(s')
  {
    assert Balanced(s.ClientAt(c), OwesCallback(s.task, c));
    CountOf(s, s', c);
  }

  lemma CountStartEnd(s: State, c: ClientId)
    requires CountInv(s) && Enabled(s, StartEnd(c)) && s.ClientAt(c).mTimer == None
    ensures CountInv(Next(s, StartEnd(c)))
  {
    assert Balanced(s.ClientAt(c), OwesCallback(s.task, c));
    CountOf(s, Next(s, StartEnd(c)), c);
  }

  lemma CountCallback(s: State)
    requires CountInv(s) && s.task.ToCall?
    ensures CountInv(Next(s, TaskCallback))
  {
    var c := s.task.client;
    assert Balanced(s.ClientAt(c), OwesCallback(s.task, c));
    CountOf(s, Next(s, TaskCallback), c);
  }

  lemma CountTaskStopBegin(s: State)
    requires CountInv(s) && Enabled(s, TaskStopBegin)
    ensures CountInv(Next(s, TaskStopBegin))
  {
    if s.ClientAt(s.task.client).mTimer == None {
      CountElsewhere(s, Next(s, TaskStopBegin));
    } else {
      CountStop(s, s.task.client, true, Next(s, TaskStopBegin));
    }
  }

  /** Steps that count nothing. */
  lemma CountQuietStep(s: State, step: Step)
    requires CountInv(s) && Enabled(s, step)
    requires step.Tick? || step.NewClient? || step.StartBegin? || step.StartPush? || step.Destroy?
      || step == TaskReadClient
      || step == TaskAddPoll
    ensures CountInv(Next(s, step))
  {
    CountElsewhere(s, Next(s, step));
  }

  lemma CountPollStep(s: State, step: Step)
    requires CountInv(s) && Enabled(s, step)
    requires step.PollWake? || step == PollDisarm || step == PollRemove || step == PollSend
    ensures CountInv(Next(s, step))
  {
    CountElsewhere(s, Next(s, step));
  }

  lemma CountStep(s: State, step: Step)
    requires (forall c :: ClientOk(s, c)) && CountInv(s) && Enabled(s, step)
    ensures CountInv(Next(s, step))
  {
    match step
    case StartEnd(c) =>
      assert ClientOk(s, c);
      CountStartEnd(s, c);
    case StopBegin(c) => CountStop(s, c, false, Next(s, step));
    case TaskStopBegin => CountTaskStopBegin(s);
    case StopEnd(c) => CountStopEnd(s, c, Next(s, step));
    case TaskStopEnd => CountStopEnd(s, s.task.client, Next(s, step));
    case TaskCallback => CountCallback(s);
    case TaskReceive => CountReceive(s);
    case TaskPopNext => CountPopNext(s);
    case TaskSetTime => CountSetTime(s);
    case PollWake(_) => CountPollStep(s, step);
    case PollDisarm => CountPollStep(s, step);
    case PollRemove => CountPollStep(s, step);
    case PollSend => CountPollStep(s, step);
    case _ => CountQuietStep(s, step);
  }

  lemma {:induction false} CountAlways(s: State, steps: seq<Step>)
    requires LifeInv(s) && CountInv(s) && CanRun(s, steps)
    ensures CountInv(After(s, steps))
    decreases |steps|
  {
    if steps != [] {
      CountStep(s, steps[0]);
      LifeStep(s, steps[0]);
      CountAlways(Next(s, steps[0]), steps[1..]);
    }
  }

  /**
    * In every interleaving the successful starts of a client's timer are its successful stops, by the client or on
    * expiry, plus one if it is running; it is called back once for each stop on expiry, so at most once per start.
    */
  lemma StartsStopsAndCallbacks(s: State, steps: seq<Step>, c: ClientId)
    requires Initial(s) && CanRun(s, steps)
    ensures var s' := After(s, steps);
      var client := s'.ClientAt(c);
      && client.starts == client.clientStops + client.expiryStops + (if client.mTimer == None then 0 else 1)
      && client.expiryStops == client.callbacks + (if OwesCallback(s'.task, c) then 1 else 0)
      && client.callbacks + client.clientStops <= client.starts
  {
    LifeInitially(s);
    CountAlways(s, steps);
    assert Balanced(After(s, steps).ClientAt(c), OwesCallback(After(s, steps).task, c));
  }

  // ----- the shared lock -----

  /** The delegates of a client that exist; each of them shares the client's lock. */
  ghost function Live(s: State, c: ClientId): set<nat> {
    set a | a in s.delegates && s.delegates[a].owner == c && s.delegates[a].deletes == 0
  }

  ghost predicate LockCounted(s: State, c: ClientId) {
    var client := s.ClientAt(c);
    && client.mRef == (if client.alive then 1 else 0) + |Live(s, c)|
    && (c in s.clients ==> (client.lockDeleted <==> client.mRef == 0))
  }

  ghost predicate LockInv(s: State) {
    forall c :: LockCounted(s, c)
  }

  ghost predicate SameShare(a: Client, b: Client) {
    a.alive == b.alive && a.mRef == b.mRef && a.lockDeleted == b.lockDeleted
  }

  /** Nothing that shares a lock changes. */
  ghost predicate SameSharing(s: State, s': State) {
    && s'.clients.Keys == s.clients.Keys
    && (forall c :: SameShare(s.ClientAt(c), s'.ClientAt(c)))
    && s'.delegates.Keys == s.delegates.Keys
    && (forall a :: a in s.delegates ==>
          s'.delegates[a].owner == s.delegates[a].owner && s'.delegates[a].deletes == s.delegates[a].deletes)
  }

  lemma LockElsewhere(s: State, s': State)
    requires LockInv(s) && SameSharing(s, s')
    ensures LockInv(s')
  {
    forall c ensures LockCounted(s', c) {
      assert LockCounted(s, c) && SameShare(s.ClientAt(c), s'.ClientAt(c));
      assert Live(s', c) == Live(s, c);
    }
  }

  lemma LiveAfterStart(s: State, s': State, d: Delegate, b: ClientId)
    requires Started(s, s', d)
    ensures Live(s', b) == (if b == d.owner then Live(s, b) + {d.timer.addr} else Live(s, b))
      && d.timer.addr !in Live(s, b)
  {}

  lemma LockStart(s: State, s': State, d: Delegate)
    requires LockInv(s) && Started(s, s', d) && d.owner in s.clients
    ensures LockInv(s')
  {
    forall b ensures LockCounted(s', b) {
      assert LockCounted(s, b);
      LiveAfterStart(s, s', d, b);
    }
  }

  lemma LiveAfterDelete(s: State, s': State, d: Delegate, b: ClientId)
    requires Deleted(s, s', d) && d.deletes == 0
    ensures Live(s', b) == Live(s, b) - {d.timer.addr} && (d.timer.addr in Live(s, b) <==> b == d.owner)
  {}

  lemma LockDrop(s: State, s': State, d: Delegate)
    requires LockInv(s) && Deleted(s, s', d) && d.deletes == 0
    ensures LockInv(s')
  {
    forall b ensures LockCounted(s', b) {
      assert LockCounted(s, b);
      LiveAfterDelete(s, s', d, b);
    }
  }

  lemma LockDestroy(s: State, c: ClientId)
    requires LockInv(s) && Enabled(s, Destroy(c))
    ensures LockInv(Next(s, Destroy(c)))
  {
    var s' := Next(s, Destroy(c));
    forall b ensures LockCounted(s', b) {
      assert LockCounted(s, b);
      assert Live(s', b) == Live(s, b);
    }
  }

  lemma LockNewClient(s: State, c: ClientId)
    requires LifeInv(s) && LockInv(s) && Enabled(s, NewClient(c))
    ensures LockInv(Next(s, NewClient(c)))
  {
    var s' := Next(s, NewClient(c));
    forall b ensures LockCounted(s', b) {
      assert LockCounted(s, b);
      assert Live(s', b) == Live(s, b);
      if b == c {
        assert Live(s, c) == {};
      }
    }
  }

  lemma RemovalDeletes(mid: State, timer: Timer, d: Delegate)
    requires mid.task.Adding? && mid.task.doomed == Some(timer) && timer.addr in mid.delegates
    requires mid.delegates[timer.addr] == d && d.timer == timer && d.owner in mid.clients
    ensures Deleted(mid, Delete(mid.(task := Idle), timer), d)
  {}

  lemma LockReceiveRemove(s: State, timer: Timer, mid: State, d: Delegate, keep: bool)
    requires LockInv(s) && SameSharing(s, mid)
    requires mid.task.Adding? && mid.task.doomed == Some(timer) && timer.addr in mid.delegates
    requires mid.delegates[timer.addr] == d && d.timer == timer && d.owner in mid.clients && d.deletes == 0
    ensures LockInv(if keep then Delete(mid.(task := Idle), timer) else mid)
  {
    LockElsewhere(s, mid);
    if keep {
      RemovalDeletes(mid, timer, d);
      LockDrop(mid, Delete(mid.(task := Idle), timer), d);
    }
  }

  lemma RemovalShares(s: State, w: Which, timer: Timer, o: Outcome)
    ensures SameSharing(s, AfterRemoval(s, w, timer, o))
  {}

  lemma ReceivePushShares(s: State)
    requires s.task == Idle && s.queue != [] && s.queue[0].PushMsg?
    requires Known(s, s.queue[0].which, s.queue[0].timer)
    ensures SameSharing(s, Receive(s))
  {}

  lemma ReceiveExpireShares(s: State)
    requires s.task == Idle && s.queue != [] && s.queue[0].ExpireMsg?
    ensures SameSharing(s, Receive(s))
  {}

  lemma LockReceive(s: State)
    requires LifeInv(s) && LockInv(s) && s.task == Idle && s.queue != []
    ensures LockInv(Receive(s))
  {
    match s.queue[0]
    case PushMsg(w, timer) =>
      assert Known(s, w, timer);
      ReceivePushShares(s);
      LockElsewhere(s, Receive(s));
    case RemoveMsg(w, timer) =>
      var o := OnRemove(s.At(w).tree, timer);
      assert Known(s, w, timer);
      LifeAfterRemoval(s, w, timer, o);
      ReceiveRemove(s, w, timer, o);
      RemovalShares(s, w, timer, o);
      var mid := AfterRemoval(s, w, timer, o);
      DelegateAtOk(mid, timer);
      LockReceiveRemove(s, timer, mid, mid.delegates[timer.addr], o.action.Keep?);
    case ExpireMsg(_) =>
      ReceiveExpireShares(s);
      LockElsewhere(s, Receive(s));
  }

  lemma LockSetTime(s: State)
    requires LifeInv(s) && LockInv(s) && s.task.Setting?
    ensures LockInv(Next(s, TaskSetTime))
  {
    if s.task.doomed == None {
      LockElsewhere(s, Next(s, TaskSetTime));
    } else {
      var timer := s.task.doomed.value;
      DelegateAtOk(s, timer);
      DeletesAsTold(s, timer, s.DelegateAt(timer));
      LockDrop(s, Next(s, TaskSetTime), s.DelegateAt(timer));
    }
  }

  lemma LockStop(s: State, c: ClientId, byTask: bool, s': State)
    requires LockInv(s) && s.ClientAt(c).mTimer != None && OwnerKnown(s, c, s.ClientAt(c).mTimer.value)
      && c in s.clients
    requires s'.clients == StopFields(s, c, byTask).clients && s'.delegates == StopFields(s, c, byTask).delegates
    ensures LockInv(s')
  {
    LockElsewhere(s, s');
  }

  lemma LockTaskStopBegin(s: State)
    requires LifeInv(s) && LockInv(s) && Enabled(s, TaskStopBegin)
    ensures LockInv(Next(s, TaskStopBegin))
  {
    var c := s.task.client;
    assert ClientOk(s, c);
    if s.ClientAt(c).mTimer == None {
      LockElsewhere(s, Next(s, TaskStopBegin));
    } else {
      LockStop(s, c, true, Next(s, TaskStopBegin));
    }
  }

  /** Steps that change no count and no delegate. */
  lemma LockQuietStep(s: State, step: Step)
    requires LockInv(s) && Enabled(s, step)
    requires step.Tick? || step == TaskReadClient || step == TaskAddPoll || step.StartBegin? || step.StartEnd?
      || step.StopEnd?
    ensures LockInv(Next(s, step))
  {
    LockElsewhere(s, Next(s, step));
  }

  lemma LockTaskStep(s: State, step: Step)
    requires LockInv(s) && Enabled(s, step) && (step == TaskStopEnd || step == TaskCallback)
      && s.task.client in s.clients
    ensures LockInv(Next(s, step))
  {
    LockElsewhere(s, Next(s, step));
  }

  lemma LockPopNext(s: State)
    requires LockInv(s) && s.task.Draining?
    ensures LockInv(Next(s, TaskPopNext))
  {
    LockElsewhere(s, Next(s, TaskPopNext));
  }

  lemma LockPollStep(s: State, step: Step)
    requires LockInv(s) && Enabled(s, step)
    requires step.PollWake? || step == PollDisarm || step == PollRemove || step == PollSend
    ensures LockInv(Next(s, step))
  {
    LockElsewhere(s, Next(s, step));
  }

  lemma LockStep(s: State, step: Step)
    requires LifeInv(s) && LockInv(s) && Enabled(s, step)
    ensures LockInv(Next(s, step))
  {
    match step
    case StartPush(c, addr) =>
      assert ClientOk(s, c);
      var Computing(w, due) := s.ClientAt(c).lock;
      LockStart(s, Next(s, step), Delegate(Timer(addr, due), c, w, true, true, 0, 0));
    case Destroy(c) => LockDestroy(s, c);
    case NewClient(c) => LockNewClient(s, c);
    case TaskReceive => LockReceive(s);
    case StopBegin(c) =>
      assert ClientOk(s, c);
      LockStop(s, c, false, Next(s, step));
    case TaskStopBegin => LockTaskStopBegin(s);
    case TaskSetTime => LockSetTime(s);
    case TaskStopEnd =>
      assert ClientOk(s, s.task.client);
      LockTaskStep(s, step);
    case TaskCallback =>
      assert ClientOk(s, s.task.client);
      LockTaskStep(s, step);
    case TaskPopNext => LockPopNext(s);
    case PollWake(_) => LockPollStep(s, step);
    case PollDisarm => LockPollStep(s, step);
    case PollRemove => LockPollStep(s, step);
    case PollSend => LockPollStep(s, step);
    case _ => LockQuietStep(s, step);
  }

  lemma {:induction false} LockAlways(s: State, steps: seq<Step>)
    requires LifeInv(s) && LockInv(s) && CanRun(s, steps)
    ensures LockInv(After(s, steps)) && LifeInv(After(s, steps))
    decreases |steps|
  {
    if steps != [] {
      LockStep(s, steps[0]);
      LifeStep(s, steps[0]);
      LockAlways(Next(s, steps[0]), steps[1..]);
    }
  }

  /**
    * In every run a client's lock is shared by exactly the client, while it exists, and its delegates that exist; it is
    * deleted when the last of them goes, and so never while anyone can still use it.
    */
  lemma LockIsSharedExactly(s: State, steps: seq<Step>, c: ClientId)
    requires Initial(s) && CanRun(s, steps) && c in After(s, steps).clients
    ensures var s' := After(s, steps);
      var client := s'.clients[c];
      && client.mRef == (if client.alive then 1 else 0) + |Live(s', c)|
      && (client.lockDeleted <==> !client.alive && Live(s', c) == {})
      && (client.lock != Free || TaskUses(s', c) ==> !client.lockDeleted)
  {
    LifeInitially(s);
    assert forall b :: Live(s, b) == {};
    LockAlways(s, steps);
    var s' := After(s, steps);
    assert LockCounted(s', c) && ClientOk(s', c);
  }
}
