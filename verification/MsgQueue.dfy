/**
  * The message queue: a linked list behind a lock and a condition variable, and a flag that unblocks everybody for
  * good. What one thread does while it holds the lock is one step; a receiver that finds the queue empty gives the lock
  * up and looks again when it has been woken.
  */
module MsgQueue {
  import opened Wrappers
  import LinkedList

  datatype QueueError = Success | InvalidParameter | UnavailableResource

  function ConvertError(e: LinkedList.ListError): QueueError {
    match e
    case Success => Success
    case InvalidParameter => InvalidParameter
    case UnavailableResource => UnavailableResource
  }

  // ----- the queue on values -----

  /**
    * `held` is newest first, as the list is. Of the receivers that wait, `asleep` have not been woken and `awake` have,
    * but have not got the lock back yet.
    */
  datatype Queue<T> = Queue(held: seq<T>, unblocked: bool, asleep: nat, awake: nat)

  datatype Departure<T> = Received(msg: T) | Flushed(msg: T)

  /** A queue with what it has accepted and what has left it, in order. */
  datatype History<T> = History(queue: Queue<T>, accepted: seq<T>, gone: seq<Departure<T>>)

  /** `Wake` is a receiver's that has been woken and has the lock again; `Stir` is a sleeper waking up unasked. */
  datatype Step<T> = Send(msg: T) | Receive | Wake | Stir | Flush | Unblock

  /** Takes the oldest message. */
  function Take<T>(h: History<T>): History<T>
    requires h.queue.held != []
  {
    var n := |h.queue.held| - 1;
    h.(queue := h.queue.(held := h.queue.held[..n]), gone := h.gone + [Received(h.queue.held[n])])
  }

  /** Wakes one sleeper, if there is any. */
  function Signal<T>(q: Queue<T>): Queue<T> {
    if q.asleep == 0 then q else q.(asleep := q.asleep - 1, awake := q.awake + 1)
  }

  /** A receiver with the lock held, past the first look at the flag. */
  function Turn<T>(h: History<T>): History<T> {
    var q := h.queue;
    if q.held != [] then Take(h)
    else if q.unblocked then h
    else h.(queue := q.(asleep := q.asleep + 1))
  }

  function Next<T>(h: History<T>, step: Step<T>): History<T> {
    var q := h.queue;
    match step
    case Send(msg) =>
      if q.unblocked then h
      else h.(queue := Signal(q.(held := [msg] + q.held)), accepted := h.accepted + [msg])
    case Receive => if q.unblocked then h else Turn(h)
    case Wake => if q.awake == 0 then h else Turn(h.(queue := q.(awake := q.awake - 1)))
    case Stir => h.(queue := Signal(q))
    case Flush => h.(queue := q.(held := []), gone := h.gone + AllFlushed(OldestFirst(q.held)))
    case Unblock =>
      if q.unblocked then h else h.(queue := q.(unblocked := true, asleep := 0, awake := q.awake + q.asleep))
  }

  function Run<T>(steps: seq<Step<T>>): History<T> {
    if steps == [] then History(Queue([], false, 0, 0), [], [])
    else Next(Run(steps[..|steps| - 1]), steps[|steps| - 1])
  }

  /** The messages in the order in which they will be received. */
  function OldestFirst<T>(held: seq<T>): (r: seq<T>)
    ensures |r| == |held|
  {
    if held == [] then [] else OldestFirst(held[1..]) + [held[0]]
  }

  function AllFlushed<T>(msgs: seq<T>): seq<Departure<T>> {
    seq(|msgs|, i requires 0 <= i < |msgs| => Flushed(msgs[i]))
  }

  function Messages<T>(gone: seq<Departure<T>>): seq<T> {
    seq(|gone|, i requires 0 <= i < |gone| => gone[i].msg)
  }

  lemma {:induction false} OldestIsLast<T>(held: seq<T>)
    requires held != []
    ensures OldestFirst(held) == [held[|held| - 1]] + OldestFirst(held[..|held| - 1])
  {
    var n := |held| - 1;
    if n > 0 {
      OldestIsLast(held[1..]);
      assert held[1..][..n - 1] == held[..n][1..];
    } else {
      assert held[1..] == [] && held[..n] == [];
    }
  }

  /** What has left, followed by what is queued, is what was accepted. */
  ghost predicate InOrder<T>(h: History<T>) {
    Messages(h.gone) + OldestFirst(h.queue.held) == h.accepted
  }

  lemma TakeKeepsOrder<T>(h: History<T>)
    requires h.queue.held != [] && InOrder(h)
    ensures InOrder(Take(h))
  {
    var oldest := h.queue.held[|h.queue.held| - 1];
    OldestIsLast(h.queue.held);
    assert Messages(Take(h).gone) == Messages(h.gone) + [oldest];
  }

  lemma SendKeepsOrder<T>(h: History<T>, msg: T)
    requires InOrder(h)
    ensures InOrder(Next(h, Send(msg)))
  {
    var held := h.queue.held;
    assert ([msg] + held)[1..] == held;
    assert OldestFirst([msg] + held) == OldestFirst(held) + [msg];
  }

  lemma FlushKeepsOrder<T>(h: History<T>)
    requires InOrder(h)
    ensures InOrder(Next(h, Flush))
  {
    var msgs := OldestFirst(h.queue.held);
    assert Messages(h.gone + AllFlushed(msgs)) == Messages(h.gone) + msgs;
  }

  lemma NextKeepsOrder<T>(h: History<T>, step: Step<T>)
    requires InOrder(h)
    ensures InOrder(Next(h, step))
  {
    match step
    case Send(msg) => SendKeepsOrder(h, msg);
    case Receive =>
      if h.queue.held != [] {
        TakeKeepsOrder(h);
      }
    case Wake =>
      if h.queue.awake > 0 && h.queue.held != [] {
        TakeKeepsOrder(h.(queue := h.queue.(awake := h.queue.awake - 1)));
      }
    case Stir =>
    case Flush => FlushKeepsOrder(h);
    case Unblock =>
  }

  /** In every run the messages leave in the order in which they were accepted, each once, and the others are queued. */
  lemma {:induction false} FirstInFirstOut<T>(steps: seq<Step<T>>)
    ensures InOrder(Run(steps))
  {
    if steps != [] {
      FirstInFirstOut(steps[..|steps| - 1]);
      NextKeepsOrder(Run(steps[..|steps| - 1]), steps[|steps| - 1]);
    }
  }

  /** A receiver that gets the lock with messages queued: one that comes to a queue not unblocked, or one woken. */
  predicate Serves<T>(q: Queue<T>, step: Step<T>) {
    q.held != [] && ((step == Receive && !q.unblocked) || (step == Wake && q.awake > 0))
  }

  /**
    * After every run: a receiver that finds messages gets the one that was accepted first of those still there, and
    * leaves one fewer; nobody else receives anything; and nobody goes to sleep but on an empty queue that is not
    * unblocked.
    */
  lemma ReceiverGetsTheOldest<T>(steps: seq<Step<T>>, step: Step<T>)
    ensures var h, h' := Run(steps), Run(steps + [step]);
      && |h.gone| + |h.queue.held| == |h.accepted|
      && (Serves(h.queue, step) ==>
            && h'.gone == h.gone + [Received(h.accepted[|h.gone|])]
            && |h'.queue.held| == |h.queue.held| - 1
            && h'.queue.asleep == h.queue.asleep)
      && (!Serves(h.queue, step) && step != Flush ==> h'.gone == h.gone && |h'.queue.held| >= |h.queue.held|)
      && (h'.queue.asleep > h.queue.asleep ==> h.queue.held == [] && !h.queue.unblocked)
      && (step == Flush ==> h'.queue.held == [] && forall i :: |h.gone| <= i < |h'.gone| ==> h'.gone[i].Flushed?)
  {
    var h := Run(steps);
    assert (steps + [step])[..|steps|] == steps;
    FirstInFirstOut(steps);
    assert |Messages(h.gone)| == |h.gone|;
    if h.queue.held != [] {
      OldestIsLast(h.queue.held);
      assert h.accepted[|h.gone|] == OldestFirst(h.queue.held)[0];
    }
  }

  /** Every message queued has been signalled to a sleeper, or nobody sleeps. */
  ghost predicate NobodyMissesOut<T>(q: Queue<T>) {
    q.asleep > 0 ==> |q.held| <= q.awake && !q.unblocked
  }

  /** In every run, as long as anybody sleeps there are as many on the way to the queue as there are messages in it. */
  lemma {:induction false} NoSignalIsLost<T>(steps: seq<Step<T>>)
    ensures NobodyMissesOut(Run(steps).queue)
  {
    if steps != [] {
      NoSignalIsLost(steps[..|steps| - 1]);
    }
  }

  lemma NextStaysUnblocked<T>(h: History<T>, step: Step<T>)
    requires h.queue.unblocked && h.queue.asleep == 0
    ensures var h' := Next(h, step);
      && h'.queue.unblocked && h'.accepted == h.accepted && h'.queue.asleep == 0 && h'.queue.awake <= h.queue.awake
      && (h'.queue.awake > 0 ==> Next(h', Wake).queue.awake == h'.queue.awake - 1)
  {}

  /** Once unblocked, a queue accepts nothing, nobody sleeps, and every receiver on its way gets away. */
  lemma {:induction false} UnblockedForGood<T>(steps: seq<Step<T>>, more: seq<Step<T>>)
    requires Run(steps).queue.unblocked
    ensures var h, h' := Run(steps), Run(steps + more);
      && h'.queue.unblocked && h'.accepted == h.accepted && h'.queue.asleep == 0 && h'.queue.awake <= h.queue.awake
      && (h'.queue.awake > 0 ==> Next(h', Wake).queue.awake == h'.queue.awake - 1)
  {
    if more == [] {
      NoSignalIsLost(steps);
      assert steps + more == steps;
    } else {
      var n := |more| - 1;
      UnblockedForGood(steps, more[..n]);
      assert (steps + more)[..|steps + more| - 1] == steps + more[..n];
      NextStaysUnblocked(Run(steps + more[..n]), more[n]);
    }
  }

  // ----- the queue as an object -----

  datatype Received<T> = Got(msg: T) | MustWait | Unavailable

  class MsgQ<T> {
    const msgList: LinkedList.List<T>
    var unblocked: bool
    var asleep: nat   // what the condition variable has: receivers that wait,
    var awake: nat    // and those let go that have yet to get the lock back

    ghost predicate Valid()
      reads this, msgList, msgList.spine
    {
      msgList.Valid()
    }

    ghost function State(): Queue<T>
      reads this, msgList
    {
      Queue(msgList.contents, unblocked, asleep, awake)
    }

    constructor ()
      ensures Valid() && State() == Queue([], false, 0, 0) && fresh(msgList)
    {
      msgList := new LinkedList.List();
      unblocked, asleep, awake := false, 0, 0;
    }

    /** Queues a message with its deallocator, if it has one, and wakes a receiver. */
    method Snd(msg: Option<T>, dealloc: bool) returns (rv: QueueError)
      requires Valid()
      modifies this`asleep, this`awake, msgList, msgList.spine
      ensures Valid() && msgList.freed == old(msgList.freed)
      ensures rv == if msg == None then InvalidParameter else if unblocked then UnavailableResource else Success
      ensures rv == Success ==>
        && msgList.contents == [msg.value] + old(msgList.contents) && msgList.owned == [dealloc] + old(msgList.owned)
        && asleep == (if old(asleep) > 0 then old(asleep) - 1 else 0) && asleep + awake == old(asleep + awake)
      ensures rv != Success ==> State() == old(State()) && msgList.owned == old(msgList.owned)
      ensures msg != None ==> State() == Next(History(old(State()), [], []), Send(msg.value)).queue
    {
      if msg == None {
        return InvalidParameter;
      }
      if unblocked {
        return UnavailableResource;
      }
      var err := msgList.Add(msg, dealloc);
      if asleep > 0 {
        asleep, awake := asleep - 1, awake + 1;
      }
      return ConvertError(err);
    }

    /** One turn of a receiver with the lock held: on entry, or woken from a wait. */
    method Rcv(woken: bool) returns (r: Received<T>)
      requires Valid() && (woken ==> awake > 0)
      modifies this`asleep, this`awake, msgList, msgList.spine
      ensures Valid() && msgList.freed == old(msgList.freed)
      ensures var q, n := old(msgList.contents), |old(msgList.contents)| - 1;
        if !woken && unblocked then r == Unavailable && msgList.contents == q
        else if q != [] then
          r == Got(q[n]) && msgList.contents == q[..n] && msgList.owned == old(msgList.owned)[..n]
        else if unblocked then r == Unavailable && msgList.contents == q
        else r == MustWait && msgList.contents == q
      ensures asleep == old(asleep) + (if r == MustWait then 1 else 0) && awake == old(awake) - (if woken then 1 else 0)
      ensures var h := Next(History(old(State()), [], []), if woken then Wake else Receive);
        State() == h.queue && h.gone == if r.Got? then [Departure.Received(r.msg)] else []
    {
      if woken {
        awake := awake - 1;
      } else if unblocked {
        return Unavailable;
      }
      var empty := msgList.Empty();
      if empty && !unblocked {
        asleep := asleep + 1;
        return MustWait;
      }
      var err, msg := msgList.Remove();
      if err == LinkedList.Success {
        return Got(msg.value);
      }
      return Unavailable;
    }

    /** Drops all messages and frees those that came with a deallocator. */
    method FlushAll()
      requires Valid()
      modifies msgList
      ensures Valid() && msgList.contents == []
      ensures msgList.freed == old(msgList.freed) + LinkedList.Owned(old(msgList.contents), old(msgList.owned))
      ensures State() == Next(History(old(State()), [], []), Step.Flush).queue
    {
      msgList.Flush();
    }

    method UnblockAll() returns (rv: QueueError)
      requires Valid()
      modifies this`unblocked, this`asleep, this`awake
      ensures Valid() && unblocked
      ensures rv == if old(unblocked) then UnavailableResource else Success
      ensures rv == Success ==> asleep == 0 && awake == old(awake) + old(asleep)
      ensures rv != Success ==> State() == old(State())
      ensures State() == Next(History(old(State()), [], []), Unblock).queue
    {
      if unblocked {
        return UnavailableResource;
      }
      unblocked, asleep, awake := true, 0, awake + asleep;
      return Success;
    }
  }
}
