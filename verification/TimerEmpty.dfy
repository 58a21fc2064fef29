/**
  * What becomes of the descriptor of a heap that is empty.  Whatever empties a heap, a removal or an expiry, leaves its
  * descriptor as it is, and from then on only the poll thread changes it until the heap is filled again.
  */
module TimerEmpty {
  import opened Wrappers
  import opened HeapSpec
  import opened TimerSpec
  import opened TimerProtocol
  import opened TimerArming

  predicate Disarms(s: State, step: Step, w: Which) {
    step == PollDisarm && s.poll.todo != [] && s.poll.todo[0] == w
  }

  predicate Unpolls(s: State, step: Step, w: Which) {
    step == PollRemove && s.poll.todo != [] && s.poll.todo[0] == w
  }

  /** The steps that change a descriptor at all. */
  predicate TouchesDescriptor(step: Step) {
    step == TaskAddPoll || step == TaskSetTime || step == PollDisarm || step == PollRemove
  }

  lemma DispatchKeepsDescriptors(s: State, w: Which, priorTop: Option<Timer>, t: Tree<Timer>, doomed: Option<Timer>,
                                 v: Which)
    requires t.Node? || priorTop == None
    ensures Dispatch(s, w, UpdateSoonest(priorTop, Top(t)), doomed).At(v) == s.At(v)
    ensures Dispatch(s, w, Keep, doomed).At(v) == s.At(v)
  {}

  lemma PushGivesNode(t: Tree<Timer>, timer: Timer)
    ensures Push(OutRanks, t, timer).Node?
  {}

  lemma ReceiveKeepsDescriptors(s: State, v: Which)
    requires s.task == Idle && s.queue != []
    ensures Receive(s).At(v).fd == s.At(v).fd
  {
    var msg, rest := s.queue[0], s.(queue := s.queue[1..]);
    var w := msg.which;
    var t := s.At(w).tree;
    match msg {
      case PushMsg(_, timer) =>
        var t' := Push(OutRanks, t, timer);
        var d := s.DelegateAt(timer);
        PushGivesNode(t, timer);
        DispatchKeepsDescriptors(
          rest.With(w, s.At(w).(tree := t')).WithDelegate(d.(pushes := d.pushes + 1)), w, Top(t), t', None, v);
      case RemoveMsg(_, timer) =>
        var t' := Remove(OutRanks, t, timer).tree;
        DispatchKeepsDescriptors(rest.With(w, s.At(w).(tree := t')), w, None, t', Some(timer), v);
      case ExpireMsg(_) =>
        DispatchKeepsDescriptors(rest, w, None, t, None, v);
    }
  }

  lemma PopNextKeepsDescriptors(s: State, v: Which)
    requires s.task.Draining?
    ensures Next(s, TaskPopNext).At(v).fd == s.At(v).fd
  {
    DispatchKeepsDescriptors(s, s.task.which, None, s.At(s.task.which).tree, None, v);
  }

  lemma OthersKeepContainers(s: State, step: Step, v: Which)
    requires Enabled(s, step) && step != TaskReceive && step != TaskPopNext && !TouchesDescriptor(step)
    ensures Next(s, step).At(v) == s.At(v)
  {}

  lemma DescriptorsKept(s: State, step: Step, v: Which)
    requires Enabled(s, step) && !TouchesDescriptor(step)
    ensures Next(s, step).At(v).fd == s.At(v).fd
  {
    match step
    case TaskReceive => ReceiveKeepsDescriptors(s, v);
    case TaskPopNext => PopNextKeepsDescriptors(s, v);
    case _ => OthersKeepContainers(s, step, v);
  }

  lemma TreesKept(s: State, step: Step, v: Which)
    requires Enabled(s, step) && TouchesDescriptor(step)
    ensures Next(s, step).At(v).tree == s.At(v).tree
  {}

  /** The step takes the last timer out of a heap; that leaves its descriptor alone. */
  lemma EmptyingKeepsDescriptor(s: State, step: Step, w: Which)
    requires Enabled(s, step) && s.At(w).tree.Node? && Next(s, step).At(w).tree.Leaf?
    ensures Next(s, step).At(w).fd == s.At(w).fd
  {
    if TouchesDescriptor(step) {
      TreesKept(s, step, w);
    } else {
      DescriptorsKept(s, step, w);
    }
  }

  /** The task adds and arms only for the container it is busy with, which has a timer. */
  lemma TaskKeepsEmpty(s: State, step: Step, w: Which)
    requires Enabled(s, step) && (step == TaskAddPoll || step == TaskSetTime) && s.task.which != w
    ensures Next(s, step).At(w).fd == s.At(w).fd
  {}

  lemma PollTouches(s: State, step: Step, w: Which)
    requires Enabled(s, step) && (step == PollDisarm || step == PollRemove)
    ensures var fd := s.At(w).fd;
      Next(s, step).At(w).fd == Fd(if Disarms(s, step, w) then None else fd.armed, fd.polled && !Unpolls(s, step, w))
  {}

  /** While a heap is empty the task, which adds and arms for the soonest timer only, has nothing to do with it. */
  lemma EmptyStep(s: State, step: Step, w: Which)
    requires ArmInv(s) && Enabled(s, step) && s.At(w).tree.Leaf?
    ensures var fd := s.At(w).fd;
      Next(s, step).At(w).fd == Fd(if Disarms(s, step, w) then None else fd.armed, fd.polled && !Unpolls(s, step, w))
  {
    if !TouchesDescriptor(step) {
      DescriptorsKept(s, step, w);
    } else if step == TaskAddPoll || step == TaskSetTime {
      ArmAt(s, w);
      TaskKeepsEmpty(s, step, w);
    } else {
      PollTouches(s, step, w);
    }
  }

  // ----- runs -----

  ghost predicate StaysEmpty(s: State, steps: seq<Step>, w: Which)
    requires CanRun(s, steps)
    decreases |steps|
  {
    s.At(w).tree.Leaf? && (steps == [] || StaysEmpty(Next(s, steps[0]), steps[1..], w))
  }

  ghost predicate Disarmed(s: State, steps: seq<Step>, w: Which)
    requires CanRun(s, steps)
    decreases |steps|
  {
    steps != [] && (Disarms(s, steps[0], w) || Disarmed(Next(s, steps[0]), steps[1..], w))
  }

  ghost predicate Unpolled(s: State, steps: seq<Step>, w: Which)
    requires CanRun(s, steps)
    decreases |steps|
  {
    steps != [] && (Unpolls(s, steps[0], w) || Unpolled(Next(s, steps[0]), steps[1..], w))
  }

  lemma {:induction false} EmptyRun(s: State, steps: seq<Step>, w: Which)
    requires ArmInv(s) && CanRun(s, steps) && StaysEmpty(s, steps, w)
    ensures var fd := s.At(w).fd;
      After(s, steps).At(w).fd
        == Fd(if Disarmed(s, steps, w) then None else fd.armed, fd.polled && !Unpolled(s, steps, w))
    decreases |steps|
  {
    if steps != [] {
      EmptyStep(s, steps[0], w);
      ArmStep(s, steps[0]);
      EmptyRun(Next(s, steps[0]), steps[1..], w);
    }
  }

  /** The run comes to `s`, `step` empties the heap there, and the heap stays empty through `more`. */
  ghost predicate EmptiedBy(s0: State, steps: seq<Step>, w: Which, before: seq<Step>, s: State, step: Step,
                            more: seq<Step>) {
    && steps == before + [step] + more && CanRun(s0, before) && s == After(s0, before)
    && Enabled(s, step) && s.At(w).tree.Node?
    && CanRun(Next(s, step), more) && StaysEmpty(Next(s, step), more, w)
    && CanRun(s0, steps) && After(s0, steps) == After(Next(s, step), more)
  }

  lemma EmptiedLater(s0: State, steps: seq<Step>, w: Which, before: seq<Step>, s: State, step: Step, more: seq<Step>)
    requires CanRun(s0, steps) && steps != [] && EmptiedBy(Next(s0, steps[0]), steps[1..], w, before, s, step, more)
    ensures EmptiedBy(s0, steps, w, [steps[0]] + before, s, step, more)
  {
    InFront(steps, before, step, more);
    var all := [steps[0]] + before;
    assert all[1..] == before;
    assert CanRun(s0, all) && After(s0, all) == s;
  }

  lemma InFront(steps: seq<Step>, before: seq<Step>, step: Step, more: seq<Step>)
    requires steps != [] && steps[1..] == before + [step] + more
    ensures steps == [steps[0]] + before + [step] + more
  {
    assert [steps[0]] + before + [step] + more == [steps[0]] + (before + [step] + more);
  }

  /** A heap that is empty in the end has been empty all the time, or there was a last step that emptied it. */
  lemma {:induction false} LastEmptying(s0: State, steps: seq<Step>, w: Which)
    returns (before: seq<Step>, s: State, step: Step, more: seq<Step>)
    requires CanRun(s0, steps) && After(s0, steps).At(w).tree.Leaf?
    ensures StaysEmpty(s0, steps, w) || EmptiedBy(s0, steps, w, before, s, step, more)
    decreases |steps|
  {
    before, s, step, more := [], s0, TaskReceive, [];
    if steps != [] {
      var s1, rest := Next(s0, steps[0]), steps[1..];
      var b, m;
      b, s, step, m := LastEmptying(s1, rest, w);
      if !StaysEmpty(s1, rest, w) {
        before, more := [steps[0]] + b, m;
        EmptiedLater(s0, steps, w, b, s, step, m);
      } else if s0.At(w).tree.Node? {
        before, s, step, more := [], s0, steps[0], rest;
        assert steps == [] + [step] + more;
      }
    }
  }

  /**
    * In every run that ends with a heap empty: if it was never filled, its descriptor is disarmed and not polled;
    * otherwise there is a last step that emptied it, whether removal or expiry, and the descriptor is armed if and only
    * if it was armed at that step and the poll thread has not disarmed it since, and for the same time.
    */
  lemma EmptyHeapArmedIff(s0: State, steps: seq<Step>, w: Which)
    returns (before: seq<Step>, s: State, step: Step, more: seq<Step>)
    requires Initial(s0) && CanRun(s0, steps) && After(s0, steps).At(w).tree.Leaf?
    ensures var fd := After(s0, steps).At(w).fd;
      || (StaysEmpty(s0, steps, w) && fd == Fd(None, false))
      || (&& EmptiedBy(s0, steps, w, before, s, step, more)
          && (fd.armed != None <==> s.At(w).fd.armed != None && !Disarmed(Next(s, step), more, w))
          && (fd.armed != None ==> fd.armed == s.At(w).fd.armed)
          && (fd.polled <==> s.At(w).fd.polled && !Unpolled(Next(s, step), more, w)))
  {
    ArmInitially(s0);
    before, s, step, more := LastEmptying(s0, steps, w);
    if StaysEmpty(s0, steps, w) {
      EmptyRun(s0, steps, w);
    } else {
      ArmAlways(s0, before);
      ArmStep(s, step);
      EmptyingKeepsDescriptor(s, step, w);
      EmptyRun(Next(s, step), more, w);
    }
  }
}
