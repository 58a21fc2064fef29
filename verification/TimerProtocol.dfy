/**
  * The timer service as the threads see it: any number of client threads that start and stop timers, the one message
  * task that owns both heaps, and the one thread that polls both timer descriptors.  A step is what one thread does
  * between two points at which another thread can see or change shared state.
  */
module TimerProtocol {
  import opened Wrappers
  import opened HeapSpec
  import opened TimerSpec

  type ClientId = nat

  /** The two containers: timers, and alarms that wake the processor. */
  datatype Which = Sw | Hw

  datatype Msg = PushMsg(which: Which, timer: Timer) | RemoveMsg(which: Which, timer: Timer) | ExpireMsg(which: Which)

  datatype Container = Container(tree: Tree<Timer>, fd: Fd)

  /**
    * A timer delegate, from its creation on and past its deletion.  `mClient` and `mContainer` say whether the pointers
    * are still set; the counters record how often it was put into a heap and how often it was deleted.
    */
  datatype Delegate = Delegate(timer: Timer, owner: ClientId, which: Which, mClient: bool, mContainer: bool,
                               pushes: nat, deletes: nat)

  /** Who is inside `start` or `stop`, and how far: the fields those write are private to the holder of the lock. */
  datatype Lock =
    | Free
    | Computing(which: Which, due: BootTime)                       // `start` has read the clock
    | Starting(timer: Timer)                                       // `start` has made the delegate and sent its push
    | Stopping(timer: Timer, container: bool, byTask: bool)        // `stop` has cleared the fields

  datatype Client = Client(alive: bool, mTimer: Option<Timer>, lock: Lock, mRef: int, lockDeleted: bool,
                           starts: nat, clientStops: nat, expiryStops: nat, callbacks: nat)

  /** Where the message task is. */
  datatype Task =
    | Idle
    | Draining(which: Which, now: BootTime)                     // in the popping loop of an expire message
    | Expiring(which: Which, now: BootTime, timer: Timer)       // has popped a timer, is about to read its client
    | ToStop(which: Which, now: BootTime, client: ClientId, timer: Timer)   // has read its client, is to call stop()
    | InStop(which: Which, now: BootTime, client: ClientId)     // holds the client's lock
    | ToCall(which: Which, now: BootTime, client: ClientId)     // is about to call the client back
    | Adding(which: Which, due: BootTime, doomed: Option<Timer>)   // is about to have the descriptor polled
    | Setting(which: Which, due: BootTime, doomed: Option<Timer>)  // is about to set the descriptor's time

  datatype Phase = ToDisarm | ToUnpoll | ToSend

  /** The events the poll thread still has to handle, and how far it is with the first. */
  datatype Poll = Poll(todo: seq<Which>, phase: Phase)

  datatype State = State(clock: ClockReading, sw: Container, hw: Container, queue: seq<Msg>, task: Task, poll: Poll,
                         clients: map<ClientId, Client>, delegates: map<nat, Delegate>)
  {
    function At(w: Which): Container {
      if w == Sw then sw else hw
    }

    function With(w: Which, c: Container): State {
      if w == Sw then this.(sw := c) else this.(hw := c)
    }

    function ClientAt(c: ClientId): Client {
      if c in clients then clients[c] else Client(false, None, Free, 0, false, 0, 0, 0, 0)
    }

    function WithClient(c: ClientId, client: Client): State {
      this.(clients := clients[c := client])
    }

    function DelegateAt(t: Timer): Delegate {
      if t.addr in delegates then delegates[t.addr] else Delegate(t, 0, Sw, false, false, 0, 0)
    }

    function WithDelegate(d: Delegate): State {
      this.(delegates := delegates[d.timer.addr := d])
    }

    function Send(m: Msg): State {
      this.(queue := queue + [m])
    }

  }

  datatype Step =
    | Tick(to: ClockReading)
    | NewClient(c: ClientId)
    | StartBegin(c: ClientId, which: Which, timeOutInMs: nat)
    | StartPush(c: ClientId, addr: nat)
    | StartEnd(c: ClientId)
    | StopBegin(c: ClientId)
    | StopEnd(c: ClientId)
    | Destroy(c: ClientId)
    | TaskReceive
    | TaskPopNext
    | TaskReadClient
    | TaskStopBegin
    | TaskStopEnd
    | TaskCallback
    | TaskAddPoll
    | TaskSetTime
    | PollWake(events: seq<Which>)
    | PollDisarm
    | PollRemove
    | PollSend

  predicate Running(s: State, c: ClientId) {
    c in s.clients && s.clients[c].alive
  }

  /** The task holds a bare pointer to the client, so the client must outlive it. */
  predicate TaskUses(s: State, c: ClientId) {
    (s.task.ToStop? || s.task.InStop? || s.task.ToCall?) && s.task.client == c
  }

  /** The descriptor wakes the poll thread: it is polled and its time has come. */
  predicate Readable(c: Container, clock: ClockReading) {
    c.fd.polled && c.fd.armed != None && Nanos(c.fd.armed.value) <= Nanos(clock)
  }

  ghost predicate NoRepeats(ws: seq<Which>) {
    forall i, j :: 0 <= i < j < |ws| ==> ws[i] != ws[j]
  }

  /** Only what the threads wait for; every step below is defined whatever the rest of the state is. */
  ghost predicate Enabled(s: State, step: Step) {
    match step
    case Tick(to) => Nanos(s.clock) <= Nanos(to)
    case NewClient(c) => c !in s.clients
    case StartBegin(c, _, ms) =>
      Running(s, c) && s.clients[c].lock == Free && s.clients[c].mTimer == None && ms < INT32_RANGE
    case StartPush(c, addr) => s.ClientAt(c).lock.Computing? && addr !in s.delegates
    case StartEnd(c) => s.ClientAt(c).lock.Starting?
    case StopBegin(c) => Running(s, c) && s.clients[c].lock == Free && s.clients[c].mTimer != None
    case StopEnd(c) => s.ClientAt(c).lock.Stopping? && !s.ClientAt(c).lock.byTask
    case Destroy(c) => Running(s, c) && s.clients[c].lock == Free && s.clients[c].mTimer == None && !TaskUses(s, c)
    case TaskReceive => s.task == Idle && s.queue != []
    case TaskPopNext => s.task.Draining?
    case TaskReadClient => s.task.Expiring?
    case TaskStopBegin => s.task.ToStop? && s.ClientAt(s.task.client).lock == Free
    case TaskStopEnd => s.task.InStop? && s.ClientAt(s.task.client).lock.Stopping?
    case TaskCallback => s.task.ToCall?
    case TaskAddPoll => s.task.Adding?
    case TaskSetTime => s.task.Setting?
    case PollWake(events) =>
      && s.poll.todo == [] && events != [] && NoRepeats(events)
      && forall w :: w in events ==> Readable(s.At(w), s.clock)
    case PollDisarm => s.poll.todo != [] && s.poll.phase == ToDisarm
    case PollRemove => s.poll.todo != [] && s.poll.phase == ToUnpoll
    case PollSend => s.poll.todo != [] && s.poll.phase == ToSend
  }

  // ----- what the steps do -----

  /** First half of `stop`: the fields are cleared under the lock. */
  function StopFields(s: State, c: ClientId, byTask: bool): State
    requires s.ClientAt(c).mTimer != None
  {
    var client := s.ClientAt(c);
    var timer := client.mTimer.value;
    var d := s.DelegateAt(timer);
    var stopped := client.(mTimer := None, lock := Stopping(timer, d.mContainer, byTask));
    s.WithDelegate(d.(mClient := false, mContainer := false)).WithClient(c,
      if byTask then stopped.(expiryStops := client.expiryStops + 1)
      else stopped.(clientStops := client.clientStops + 1))
  }

  /** Second half: the removal is sent, if the container was not cleared before, and the lock is left. */
  function StopSend(s: State, c: ClientId): State
    requires s.ClientAt(c).lock.Stopping?
  {
    var client := s.ClientAt(c);
    var timer := client.lock.timer;
    var sent := if client.lock.container then s.Send(RemoveMsg(s.DelegateAt(timer).which, timer)) else s;
    sent.WithClient(c, client.(lock := Free))
  }

  /** Deletes a delegate, whose destructor drops its share of the client's lock. */
  function Delete(s: State, timer: Timer): State {
    var d := s.DelegateAt(timer);
    var client := s.ClientAt(d.owner);
    s.WithDelegate(d.(deletes := d.deletes + 1)).WithClient(d.owner, Drop(client))
  }

  function Drop(client: Client): Client {
    client.(mRef := client.mRef - 1, lockDeleted := client.lockDeleted || client.mRef == 1)
  }

  /** The end of a message: the delegate a remove message was about is deleted. */
  function Finish(s: State, doomed: Option<Timer>): State {
    var done := s.(task := Idle);
    if doomed == None then done else Delete(done, doomed.value)
  }

  /** Carries out the decision about the descriptor; arming takes two more steps. */
  function Dispatch(s: State, w: Which, action: Action, doomed: Option<Timer>): State {
    match action
    case Keep => Finish(s, doomed)
    case Disarm => Finish(s.With(w, s.At(w).(fd := Act(s.At(w).fd, Disarm))), doomed)
    case Arm(due) => s.(task := Adding(w, due, doomed))
  }

  /** Takes the top out of the heap; the loop goes on with it. */
  function PopToExpire(s: State, w: Which, now: BootTime): State
    requires s.At(w).tree.Node?
  {
    var t := s.At(w).tree;
    s.With(w, s.At(w).(tree := PopTop(OutRanks, t))).(task := Expiring(w, now, t.data))
  }

  function Receive(s: State): State
    requires s.queue != []
  {
    var msg, rest := s.queue[0], s.(queue := s.queue[1..]);
    var w := msg.which;
    var t := s.At(w).tree;
    match msg
    case PushMsg(_, timer) =>
      var o := OnPush(t, timer);
      var d := s.DelegateAt(timer);
      var pushed := rest.With(w, s.At(w).(tree := o.tree)).WithDelegate(d.(pushes := d.pushes + 1));
      Dispatch(pushed, w, o.action, None)
    case RemoveMsg(_, timer) =>
      var o := OnRemove(t, timer);
      Dispatch(rest.With(w, s.At(w).(tree := o.tree)), w, o.action, Some(timer))
    case ExpireMsg(_) =>
      if t.Node? then PopToExpire(rest, w, s.clock)
      else Dispatch(rest, w, UpdateSoonest(None, Top(t)), None)
  }

  function Next(s: State, step: Step): State
    requires Enabled(s, step)
  {
    match step
    case Tick(to) => s.(clock := to)
    case NewClient(c) => s.WithClient(c, Client(true, None, Free, 1, false, 0, 0, 0, 0))
    case StartBegin(c, w, ms) => s.WithClient(c, s.clients[c].(lock := Computing(w, FutureTime(s.clock, ms))))
    case StartPush(c, addr) =>
      var client := s.ClientAt(c);
      var Computing(w, due) := client.lock;
      var timer := Timer(addr, due);
      s.WithDelegate(Delegate(timer, c, w, true, true, 0, 0))
        .WithClient(c, client.(lock := Starting(timer), mRef := client.mRef + 1))
        .Send(PushMsg(w, timer))
    case StartEnd(c) =>
      var client := s.ClientAt(c);
      s.WithClient(c, client.(mTimer := Some(client.lock.timer), lock := Free, starts := client.starts + 1))
    case StopBegin(c) => StopFields(s, c, false)
    case StopEnd(c) => StopSend(s, c)
    case Destroy(c) => s.WithClient(c, Drop(s.clients[c].(alive := false)))
    case TaskReceive => Receive(s)
    case TaskPopNext =>
      var Draining(w, now) := s.task;
      var t := s.At(w).tree;
      if t.Node? && !OutRanks(Timer(0, now), t.data) then PopToExpire(s, w, now)
      else Dispatch(s, w, UpdateSoonest(None, Top(t)), None)
    case TaskReadClient =>
      var Expiring(w, now, timer) := s.task;
      var d := s.DelegateAt(timer);
      s.(task := if d.mClient then ToStop(w, now, d.owner, timer) else Draining(w, now))
    case TaskStopBegin =>
      var ToStop(w, now, c, _) := s.task;
      if s.ClientAt(c).mTimer == None then s.(task := Draining(w, now))
      else StopFields(s, c, true).(task := InStop(w, now, c))
    case TaskStopEnd =>
      var InStop(w, now, c) := s.task;
      StopSend(s, c).(task := ToCall(w, now, c))
    case TaskCallback =>
      var ToCall(w, now, c) := s.task;
      var client := s.ClientAt(c);
      s.WithClient(c, client.(callbacks := client.callbacks + 1)).(task := Draining(w, now))
    case TaskAddPoll =>
      var Adding(w, due, doomed) := s.task;
      s.With(w, s.At(w).(fd := s.At(w).fd.(polled := true))).(task := Setting(w, due, doomed))
    case TaskSetTime =>
      var Setting(w, due, doomed) := s.task;
      Finish(s.With(w, s.At(w).(fd := s.At(w).fd.(armed := Some(due)))), doomed)
    case PollWake(events) => s.(poll := Poll(events, ToDisarm))
    case PollDisarm =>
      var w := s.poll.todo[0];
      s.With(w, s.At(w).(fd := s.At(w).fd.(armed := None))).(poll := s.poll.(phase := ToUnpoll))
    case PollRemove =>
      var w := s.poll.todo[0];
      s.With(w, s.At(w).(fd := s.At(w).fd.(polled := false))).(poll := s.poll.(phase := ToSend))
    case PollSend => s.Send(ExpireMsg(s.poll.todo[0])).(poll := Poll(s.poll.todo[1..], ToDisarm))
  }

  // ----- runs -----

  ghost predicate Initial(s: State) {
    && s.sw == s.hw == Container(Leaf, Fd(None, false)) && s.queue == [] && s.task == Idle && s.poll.todo == []
    && s.clients == map[] && s.delegates == map[]
  }

  ghost predicate CanRun(s: State, steps: seq<Step>)
    decreases |steps|
  {
    steps == [] || (Enabled(s, steps[0]) && CanRun(Next(s, steps[0]), steps[1..]))
  }

  ghost function After(s: State, steps: seq<Step>): State
    requires CanRun(s, steps)
    decreases |steps|
  {
    if steps == [] then s else After(Next(s, steps[0]), steps[1..])
  }
}
