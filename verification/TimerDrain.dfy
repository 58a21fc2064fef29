/**
  * An expire message drains its heap step by step while other threads run between its pops; it pops exactly what it
  * would have popped undisturbed.
  */
module TimerDrain {
  import opened Wrappers
  import opened HeapSpec
  import opened TimerSpec
  import opened TimerProtocol

  /** The task is between two pops of an expire message. */
  predicate InLoop(task: Task) {
    task.Draining? || task.Expiring? || task.ToStop? || task.InStop? || task.ToCall?
  }

  /** What the message still has to pop, and what it will leave. */
  function ToCome(s: State): Drained
    requires InLoop(s.task)
  {
    PopDue(s.At(s.task.which).tree, s.task.now)
  }

  /** The task is where it was or further on in the same loop, and the heap is as it was. */
  ghost predicate StaysInLoop(s: State, s': State) {
    && InLoop(s.task) && InLoop(s'.task) && s'.task.which == s.task.which && s'.task.now == s.task.now
    && s'.At(s.task.which).tree == s.At(s.task.which).tree
  }

  lemma ClientsStayOut(s: State, step: Step)
    requires InLoop(s.task) && Enabled(s, step)
    requires step.Tick? || step.NewClient? || step.StartBegin? || step.StartPush? || step.StartEnd? || step.StopBegin?
      || step.StopEnd? || step.Destroy?
    ensures StaysInLoop(s, Next(s, step))
  {}

  lemma PollStaysOut(s: State, step: Step)
    requires InLoop(s.task) && Enabled(s, step)
    requires step.PollWake? || step == PollDisarm || step == PollRemove || step == PollSend
    ensures StaysInLoop(s, Next(s, step))
  {}

  lemma TaskGoesOn(s: State, step: Step)
    requires InLoop(s.task) && Enabled(s, step)
    requires step == TaskReadClient || step == TaskStopBegin || step == TaskStopEnd || step == TaskCallback
    ensures StaysInLoop(s, Next(s, step))
  {}

  lemma LoopEnds(s: State, w: Which, t: Tree<Timer>)
    requires s.At(w).tree == t
    ensures var s' := Dispatch(s, w, UpdateSoonest(None, Top(t)), None);
      !InLoop(s'.task) && s'.At(w).tree == t
  {}

  /**
    * One step of any thread while an expire message is in its loop: only the next pop changes the heap, it takes the
    * first timer that was to come, and the loop ends when none is.
    */
  lemma LoopStep(s: State, step: Step)
    requires InLoop(s.task) && Enabled(s, step)
    ensures var w, s' := s.task.which, Next(s, step);
      if step != TaskPopNext then StaysInLoop(s, s')
      else if ToCome(s).popped == [] then !InLoop(s'.task) && s'.At(w).tree == ToCome(s).tree
      else
        && s'.task.Expiring? && s'.task.which == w && s'.task.now == s.task.now
        && ToCome(s) == Drained([s'.task.timer] + ToCome(s').popped, ToCome(s').tree)
  {
    match step
    case TaskPopNext =>
      LoopEnds(s, s.task.which, s.At(s.task.which).tree);
    case TaskReadClient => TaskGoesOn(s, step);
    case TaskStopBegin => TaskGoesOn(s, step);
    case TaskStopEnd => TaskGoesOn(s, step);
    case TaskCallback => TaskGoesOn(s, step);
    case PollWake(_) => PollStaysOut(s, step);
    case PollDisarm => PollStaysOut(s, step);
    case PollRemove => PollStaysOut(s, step);
    case PollSend => PollStaysOut(s, step);
    case _ => ClientsStayOut(s, step);
  }

  /** An expire message that finds a timer begins the loop with the first pop of the whole drain. */
  lemma DrainBegins(s: State)
    requires s.task == Idle && s.queue != [] && s.queue[0].ExpireMsg? && s.At(s.queue[0].which).tree.Node?
    ensures var w, s' := s.queue[0].which, Receive(s);
      && s'.task.Expiring? && s'.task.which == w && s'.task.now == s.clock
      && Drain(s.At(w).tree, s.clock) == Drained([s'.task.timer] + ToCome(s').popped, ToCome(s').tree)
  {}

  // ----- the whole loop -----

  /** The timers popped along a run, in order. */
  ghost function Pops(s: State, steps: seq<Step>): seq<Timer>
    requires CanRun(s, steps)
    decreases |steps|
  {
    if steps == [] then []
    else
      var s' := Next(s, steps[0]);
      var popped := (steps[0] == TaskReceive || steps[0] == TaskPopNext) && s'.task.Expiring?;
      (if popped then [s'.task.timer] else []) + Pops(s', steps[1..])
  }

  /** The message is in its loop before every step, so that only the last one can end it. */
  ghost predicate LoopsThrough(s: State, steps: seq<Step>)
    requires CanRun(s, steps)
    decreases |steps|
  {
    steps == [] || (InLoop(s.task) && LoopsThrough(Next(s, steps[0]), steps[1..]))
  }

  /** What was to come at first is what has been popped, followed by what is still to come. */
  ghost predicate Accounted(whole: Drained, w: Which, popped: seq<Timer>, s': State) {
    whole == if InLoop(s'.task) then Drained(popped + ToCome(s').popped, ToCome(s').tree)
      else Drained(popped, s'.At(w).tree)
  }

  lemma AccountedInFront(whole: Drained, later: Drained, t: Timer, w: Which, popped: seq<Timer>, s': State)
    requires Accounted(later, w, popped, s') && whole == Drained([t] + later.popped, later.tree)
    ensures Accounted(whole, w, [t] + popped, s')
  {
    if InLoop(s'.task) {
      assert [t] + (popped + ToCome(s').popped) == [t] + popped + ToCome(s').popped;
    }
  }

  lemma {:induction false} LoopRun(s: State, steps: seq<Step>)
    requires InLoop(s.task) && CanRun(s, steps) && LoopsThrough(s, steps)
    ensures var w, s' := s.task.which, After(s, steps);
      && Accounted(ToCome(s), w, Pops(s, steps), s')
      && (InLoop(s'.task) ==> s'.task.which == w && s'.task.now == s.task.now)
    decreases |steps|
  {
    if steps == [] {
      assert [] + ToCome(s).popped == ToCome(s).popped;
    } else {
      var w, s1, rest := s.task.which, Next(s, steps[0]), steps[1..];
      LoopStep(s, steps[0]);
      if steps[0] != TaskPopNext {
        LoopRun(s1, rest);
        assert [] + Pops(s1, rest) == Pops(s1, rest);
      } else if ToCome(s).popped == [] {
        assert rest == [];
      } else {
        LoopRun(s1, rest);
        AccountedInFront(ToCome(s), ToCome(s1), s1.task.timer, w, Pops(s1, rest), After(s1, rest));
      }
    }
  }

  /** A run that begins with the handling of an expire message and goes no further than the end of its loop. */
  ghost predicate HandlesExpire(s: State, steps: seq<Step>) {
    && s.task == Idle && s.queue != [] && s.queue[0].ExpireMsg?
    && steps != [] && steps[0] == TaskReceive && CanRun(s, steps) && LoopsThrough(Next(s, steps[0]), steps[1..])
  }

  /**
    * Whatever other threads do meanwhile, the timers an expire message pops are, in order, those of an undisturbed
    * drain at the time it read: all of them once its loop has ended, and before that those still to come are the rest.
    */
  lemma DrainIsUndisturbed(s: State, steps: seq<Step>)
    requires HandlesExpire(s, steps)
    ensures var w, s' := s.queue[0].which, After(s, steps);
      && Accounted(Drain(s.At(w).tree, s.clock), w, Pops(s, steps), s')
      && (InLoop(s'.task) ==> s'.task.which == w && s'.task.now == s.clock)
  {
    var w, s1, rest := s.queue[0].which, Next(s, TaskReceive), steps[1..];
    if s.At(w).tree.Node? {
      DrainBegins(s);
      LoopRun(s1, rest);
      AccountedInFront(Drain(s.At(w).tree, s.clock), ToCome(s1), s1.task.timer, w, Pops(s1, rest), After(s1, rest));
    } else {
      assert !InLoop(s1.task) && rest == [];
    }
  }

  /** Expiring or about to stop a client, the task has in hand the timer it popped last. */
  lemma {:induction false} InHandIsLastPopped(s: State, steps: seq<Step>, last: Timer)
    requires InLoop(s.task) && CanRun(s, steps) && LoopsThrough(s, steps)
    requires s.task.Expiring? || s.task.ToStop? ==> s.task.timer == last
    ensures var s' := After(s, steps);
      s'.task.Expiring? || s'.task.ToStop? ==> s'.task.timer == ([last] + Pops(s, steps))[|Pops(s, steps)|]
    decreases |steps|
  {
    if steps != [] {
      var s1, rest := Next(s, steps[0]), steps[1..];
      LoopStep(s, steps[0]);
      if steps[0] != TaskPopNext {
        HandKept(s, steps[0]);
        InHandIsLastPopped(s1, rest, last);
        assert [] + Pops(s1, rest) == Pops(s1, rest);
      } else if ToCome(s).popped == [] {
        assert rest == [];
      } else {
        InHandIsLastPopped(s1, rest, s1.task.timer);
        LastInFront(last, s1.task.timer, Pops(s1, rest));
      }
    }
  }

  lemma LastInFront(last: Timer, t: Timer, ps: seq<Timer>)
    ensures ([last] + ([t] + ps))[|[t] + ps|] == ([t] + ps)[|ps|]
  {}

  lemma HandKept(s: State, step: Step)
    requires InLoop(s.task) && Enabled(s, step) && step != TaskPopNext
    ensures var task := Next(s, step).task;
      task.Expiring? || task.ToStop? ==> (s.task.Expiring? || s.task.ToStop?) && task.timer == s.task.timer
  {}

  lemma StopsLastPopped(s: State, steps: seq<Step>)
    requires HandlesExpire(s, steps) && After(s, steps).task.ToStop?
    ensures var popped := Pops(s, steps);
      popped != [] && After(s, steps).task.timer == popped[|popped| - 1]
  {
    var s1, rest := Next(s, TaskReceive), steps[1..];
    if s.At(s.queue[0].which).tree.Node? {
      DrainBegins(s);
      InHandIsLastPopped(s1, rest, s1.task.timer);
      assert Pops(s, steps) == [s1.task.timer] + Pops(s1, rest);
    } else {
      assert false;
    }
  }
}
