/**
  * No wakeup is lost: whenever the message task is between messages and a heap holds a timer, either that heap's
  * descriptor is polled and set to exactly the soonest due time, or an expire message for it is on its way.
  */
module TimerArming {
  import opened Wrappers
  import opened HeapSpec
  import opened TimerSpec
  import opened TimerProtocol

  /** An expire message is queued, or the poll thread is about to queue one. */
  ghost predicate ExpireComing(s: State, w: Which) {
    w in s.poll.todo || ExpireMsg(w) in s.queue
  }

  ghost predicate Watched(c: Container) {
    c.tree.Node? && c.fd == Fd(Some(c.tree.data.due), true)
  }

  /** The task is in the middle of a message for this container. */
  ghost predicate BusyWith(task: Task, w: Which) {
    task != Idle && task.which == w
  }

  /** What holds of a container at every point of every message. */
  ghost predicate ArmOk(c: Container, coming: bool, task: Task, w: Which) {
    && HeapOk(c.tree)
    && (!BusyWith(task, w) && c.tree.Node? ==> coming || Watched(c))
    && (task.Adding? && task.which == w ==> c.tree.Node? && task.due == c.tree.data.due)
    && (task.Setting? && task.which == w ==> c.tree.Node? && task.due == c.tree.data.due && (coming || c.fd.polled))
  }

  ghost predicate ArmInv(s: State) {
    && NoRepeats(s.poll.todo)
    && ArmOk(s.sw, ExpireComing(s, Sw), s.task, Sw)
    && ArmOk(s.hw, ExpireComing(s, Hw), s.task, Hw)
  }

  lemma ArmAt(s: State, w: Which)
    requires ArmInv(s)
    ensures ArmOk(s.At(w), ExpireComing(s, w), s.task, w)
  {}

  lemma ArmInitially(s: State)
    requires Initial(s)
    ensures ArmInv(s)
  {}

  lemma OtherCameFirst(s: State, s': State, w: Which)
    requires s.queue != [] && s'.queue == s.queue[1..] && s'.poll == s.poll
    requires s.queue[0] != ExpireMsg(w)
    ensures ExpireComing(s', w) == ExpireComing(s, w)
  {
    if ExpireMsg(w) in s.queue {
      var i :| 0 <= i < |s.queue| && s.queue[i] == ExpireMsg(w);
      assert s'.queue[i - 1] == ExpireMsg(w);
    }
  }

  /** Steps that touch neither a container nor the poll thread, and only add to the queue. */
  lemma ArmElsewhere(s: State, s': State)
    requires ArmInv(s) && s'.sw == s.sw && s'.hw == s.hw && s'.poll == s.poll && s.queue <= s'.queue
    requires s'.task == s.task || (BusyInLoop(s.task) && BusyInLoop(s'.task) && s'.task.which == s.task.which)
    ensures ArmInv(s')
  {
    assert forall m :: m in s.queue ==> m in s'.queue;
  }

  /** The task is somewhere in the loop of an expire message. */
  ghost predicate BusyInLoop(task: Task) {
    task != Idle && !task.Adding? && !task.Setting?
  }

  lemma DispatchKeepsContainers(s: State, w: Which, action: Action, doomed: Option<Timer>)
    requires !action.Disarm?
    ensures var s' := Dispatch(s, w, action, doomed);
      && s'.sw == s.sw && s'.hw == s.hw && s'.poll == s.poll && s'.queue == s.queue
      && s'.task == (if action.Arm? then Adding(w, action.due, doomed) else Idle)
  {}

  function Other(w: Which): Which {
    if w == Sw then Hw else Sw
  }

  /** A message body is done with the heap of `w` and goes on to the descriptor, as `action` says. */
  lemma ArmDispatch(s: State, w: Which, action: Action, doomed: Option<Timer>)
    requires NoRepeats(s.poll.todo) && HeapOk(s.At(w).tree) && !action.Disarm?
    requires ArmOk(s.At(Other(w)), ExpireComing(s, Other(w)), Idle, Other(w))
    requires action.Arm? ==> s.At(w).tree.Node? && action.due == s.At(w).tree.data.due
    requires action.Keep? && s.At(w).tree.Node? ==> ExpireComing(s, w) || Watched(s.At(w))
    ensures ArmInv(Dispatch(s, w, action, doomed))
  {
    var s' := Dispatch(s, w, action, doomed);
    DispatchKeepsContainers(s, w, action, doomed);
    assert ExpireComing(s', Sw) == ExpireComing(s, Sw) && ExpireComing(s', Hw) == ExpireComing(s, Hw);
    assert ArmOk(s'.At(w), ExpireComing(s', w), s'.task, w);
    assert ArmOk(s'.At(Other(w)), ExpireComing(s', Other(w)), s'.task, Other(w));
  }

  /** A push or remove message has changed the heap of `w`. */
  lemma ArmHeapChange(s: State, s': State, w: Which, o: Outcome, doomed: Option<Timer>)
    requires ArmInv(s) && s.task == Idle && s.queue != [] && !s.queue[0].ExpireMsg?
    requires HeapOk(o.tree) && Follows(s.At(w).tree, o) && !o.action.Disarm? && (o.action.Arm? ==> o.tree.Node?)
    requires s'.queue == s.queue[1..] && s'.poll == s.poll
    requires s'.At(w) == Container(o.tree, s.At(w).fd) && s'.At(Other(w)) == s.At(Other(w))
    ensures ArmInv(Dispatch(s', w, o.action, doomed))
  {
    ArmAt(s, w);
    ArmAt(s, Other(w));
    OtherCameFirst(s, s', w);
    OtherCameFirst(s, s', Other(w));
    ArmDispatch(s', w, o.action, doomed);
  }

  lemma ArmPush(s: State)
    requires ArmInv(s) && s.task == Idle && s.queue != [] && s.queue[0].PushMsg?
    ensures ArmInv(Receive(s))
  {
    var PushMsg(w, timer) := s.queue[0];
    var o := OnPush(s.At(w).tree, timer);
    ArmAt(s, w);
    PushFollows(s.At(w).tree, timer);
    ArmPushed(s, w, timer, o);
  }

  /** The push as such, whatever `o` is: it is only handed on. */
  lemma ArmPushed(s: State, w: Which, timer: Timer, o: Outcome)
    requires ArmInv(s) && s.task == Idle && s.queue != [] && !s.queue[0].ExpireMsg?
    requires HeapOk(o.tree) && Follows(s.At(w).tree, o) && !o.action.Disarm? && (o.action.Arm? ==> o.tree.Node?)
    ensures var d := s.DelegateAt(timer);
      var s' := s.(queue := s.queue[1..]).With(w, s.At(w).(tree := o.tree)).WithDelegate(d.(pushes := d.pushes + 1));
      ArmInv(Dispatch(s', w, o.action, None))
  {
    var d := s.DelegateAt(timer);
    var s' := s.(queue := s.queue[1..]).With(w, s.At(w).(tree := o.tree)).WithDelegate(d.(pushes := d.pushes + 1));
    ArmHeapChange(s, s', w, o, None);
  }

  lemma ArmRemove(s: State)
    requires ArmInv(s) && s.task == Idle && s.queue != [] && s.queue[0].RemoveMsg?
    ensures ArmInv(Receive(s))
  {
    var RemoveMsg(w, timer) := s.queue[0];
    var o := OnRemove(s.At(w).tree, timer);
    ArmAt(s, w);
    RemoveFollows(s.At(w).tree, timer);
    ArmHeapChange(s, s.(queue := s.queue[1..]).With(w, s.At(w).(tree := o.tree)), w, o, Some(timer));
  }

  lemma ArmPop(s: State, s': State, w: Which, now: BootTime)
    requires s'.At(w) == s.At(w) && HeapOk(s.At(w).tree) && s.At(w).tree.Node? && NoRepeats(s'.poll.todo)
    requires ArmOk(s'.At(Other(w)), ExpireComing(s', Other(w)), Idle, Other(w))
    ensures ArmInv(PopToExpire(s', w, now))
  {
    var s'' := PopToExpire(s', w, now);
    PopTimer(s.At(w).tree);
    assert ExpireComing(s'', Sw) == ExpireComing(s', Sw) && ExpireComing(s'', Hw) == ExpireComing(s', Hw);
    assert ArmOk(s''.At(w), ExpireComing(s'', w), s''.task, w);
    assert ArmOk(s''.At(Other(w)), ExpireComing(s'', Other(w)), s''.task, Other(w));
  }

  lemma ArmExpire(s: State)
    requires ArmInv(s) && s.task == Idle && s.queue != [] && s.queue[0].ExpireMsg?
    ensures ArmInv(Receive(s))
  {
    var w := s.queue[0].which;
    var s' := s.(queue := s.queue[1..]);
    ArmAt(s, w);
    ArmAt(s, Other(w));
    OtherCameFirst(s, s', Other(w));
    assert s'.At(w) == s.At(w) && s'.At(Other(w)) == s.At(Other(w));
    if s.At(w).tree.Node? {
      ArmPop(s, s', w, s.clock);
    } else {
      ArmDispatch(s', w, Keep, None);
    }
  }

  lemma ArmPopNext(s: State)
    requires ArmInv(s) && s.task.Draining?
    ensures ArmInv(Next(s, TaskPopNext))
  {
    var Draining(w, now) := s.task;
    var t := s.At(w).tree;
    ArmAt(s, w);
    ArmAt(s, Other(w));
    if t.Node? && !OutRanks(Timer(0, now), t.data) {
      ArmPop(s, s, w, now);
    } else {
      ArmDispatch(s, w, UpdateSoonest(None, Top(t)), None);
    }
  }

  /** The descriptor is polled first and set second; in between, only the poll thread can stop the polling. */
  lemma ArmDescriptor(s: State, step: Step)
    requires ArmInv(s) && Enabled(s, step) && (step == TaskAddPoll || step == TaskSetTime)
    ensures ArmInv(Next(s, step))
  {
    var s', w := Next(s, step), s.task.which;
    ArmAt(s, w);
    ArmAt(s, Other(w));
    assert ExpireComing(s', Sw) == ExpireComing(s, Sw) && ExpireComing(s', Hw) == ExpireComing(s, Hw);
    assert ArmOk(s'.At(w), ExpireComing(s', w), s'.task, w);
    assert s'.At(Other(w)) == s.At(Other(w));
  }

  /** The poll thread disarms and unpolls only a container for which it is still to send an expire message. */
  lemma ArmPoll(s: State, step: Step)
    requires ArmInv(s) && Enabled(s, step)
    requires step.PollWake? || step == PollDisarm || step == PollRemove || step == PollSend
    ensures ArmInv(Next(s, step))
  {
    var s' := Next(s, step);
    forall v ensures ExpireComing(s, v) ==> ExpireComing(s', v) {
      if step == PollSend {
        assert s'.queue[|s.queue|] == ExpireMsg(s.poll.todo[0]);
        assert v in s.poll.todo ==> v == s.poll.todo[0] || v in s.poll.todo[1..];
        assert ExpireMsg(v) in s.queue ==> ExpireMsg(v) in s'.queue;
      }
    }
    if step == PollDisarm || step == PollRemove {
      assert ExpireComing(s', s.poll.todo[0]);
    }
  }

  lemma ArmStep(s: State, step: Step)
    requires ArmInv(s) && Enabled(s, step)
    ensures ArmInv(Next(s, step))
  {
    match step
    case TaskReceive =>
      match s.queue[0] {
        case PushMsg(_, _) => ArmPush(s);
        case RemoveMsg(_, _) => ArmRemove(s);
        case ExpireMsg(_) => ArmExpire(s);
      }
    case TaskPopNext => ArmPopNext(s);
    case TaskAddPoll => ArmDescriptor(s, step);
    case TaskSetTime => ArmDescriptor(s, step);
    case PollWake(_) => ArmPoll(s, step);
    case PollDisarm => ArmPoll(s, step);
    case PollRemove => ArmPoll(s, step);
    case PollSend => ArmPoll(s, step);
    case _ => ArmElsewhere(s, Next(s, step));
  }

  lemma {:induction false} ArmAlways(s: State, steps: seq<Step>)
    requires ArmInv(s) && CanRun(s, steps)
    ensures ArmInv(After(s, steps))
    decreases |steps|
  {
    if steps != [] {
      ArmStep(s, steps[0]);
      ArmAlways(Next(s, steps[0]), steps[1..]);
    }
  }

  /** In every run: between messages, a heap with a timer is watched at its soonest time or about to be expired. */
  lemma NoLostWakeup(s: State, steps: seq<Step>, w: Which)
    requires Initial(s) && CanRun(s, steps)
    ensures var s' := After(s, steps);
      s'.task == Idle && s'.At(w).tree.Node? ==> Watched(s'.At(w)) || ExpireComing(s', w)
  {
    ArmInitially(s);
    ArmAlways(s, steps);
    ArmAt(After(s, steps), w);
  }

  /** So when nothing is queued or in progress and a timer is due, the poll thread can go ahead. */
  lemma DueTimerWakesPoll(s: State, steps: seq<Step>, w: Which, timer: Timer)
    requires Initial(s) && CanRun(s, steps)
    requires var s' := After(s, steps);
      && s'.task == Idle && s'.queue == [] && s'.poll.todo == []
      && timer in Bag(s'.At(w).tree) && DueBy(timer, s'.clock)
    ensures Enabled(After(s, steps), PollWake([w]))
  {
    var s' := After(s, steps);
    NoLostWakeup(s, steps, w);
    ArmInitially(s);
    ArmAlways(s, steps);
    ArmAt(s', w);
    TopIsSoonest(s'.At(w).tree, timer);
  }
}
