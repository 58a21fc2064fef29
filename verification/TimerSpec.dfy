/**
  * Times, the ranking of timers by time, and what one message does to a container of timers.
  */
module TimerSpec {
  import opened Wrappers
  import opened HeapSpec

  const NSEC_PER_SEC := 1_000_000_000
  const INT32_RANGE := 0x1_0000_0000

  /** The conversion of a difference to the 32-bit int that holds a rank. */
  function ToInt32(x: int): int {
    var low := x % INT32_RANGE;
    if low < INT32_RANGE / 2 then low else low - INT32_RANGE
  }

  datatype Timespec = Timespec(sec: int, nsec: int)

  function Nanos(t: Timespec): int {
    t.sec * NSEC_PER_SEC + t.nsec
  }

  predicate Normalised(t: Timespec) {
    0 <= t.nsec < NSEC_PER_SEC
  }

  /** Positive if `mine` ranks higher than `other`, that is, comes first: the larger time ranks lower. */
  function Ranks(mine: Timespec, other: Timespec): int {
    var rank := ToInt32(other.sec - mine.sec);
    if rank == 0 then ToInt32(other.nsec - mine.nsec) else rank
  }

  function Sign(x: int): int {
    if x < 0 then -1 else if x == 0 then 0 else 1
  }

  /** A gap in whole seconds that keeps its sign, and does not vanish, when it is cut to 32 bits. */
  predicate GapSurvives(d: int) {
    var low := d % INT32_RANGE;
    d == 0 || (if d > 0 then 0 < low < INT32_RANGE / 2 else INT32_RANGE / 2 <= low)
  }

  ghost predicate RankAgreesWithTime(a: Timespec, b: Timespec) {
    Sign(Ranks(a, b)) == Sign(Nanos(b) - Nanos(a))
  }

  lemma NanosOrder(a: Timespec, b: Timespec)
    requires Normalised(a) && Normalised(b)
    ensures a.sec < b.sec ==> Nanos(a) < Nanos(b)
    ensures a.sec == b.sec ==> Nanos(b) - Nanos(a) == b.nsec - a.nsec
  {
    if a.sec < b.sec {
      assert b.sec * NSEC_PER_SEC >= (a.sec + 1) * NSEC_PER_SEC;
    }
  }

  /** For two given second counts, ranks follow time for all nanosecond parts exactly when the gap survives the cut. */
  lemma RankIsTimeOrder(sa: int, sb: int)
    ensures GapSurvives(sb - sa) <==>
      forall na, nb :: Normalised(Timespec(sa, na)) && Normalised(Timespec(sb, nb))
        ==> RankAgreesWithTime(Timespec(sa, na), Timespec(sb, nb))
  {
    if GapSurvives(sb - sa) {
      forall na, nb | Normalised(Timespec(sa, na)) && Normalised(Timespec(sb, nb))
        ensures RankAgreesWithTime(Timespec(sa, na), Timespec(sb, nb))
      {
        NanosOrder(Timespec(sa, na), Timespec(sb, nb));
        NanosOrder(Timespec(sb, nb), Timespec(sa, na));
      }
    } else {
      NanosOrder(Timespec(sa, 0), Timespec(sb, 0));
      NanosOrder(Timespec(sb, 0), Timespec(sa, 0));
      assert Normalised(Timespec(sa, 0)) && Normalised(Timespec(sb, 0));
      assert !RankAgreesWithTime(Timespec(sa, 0), Timespec(sb, 0));
    }
  }

  /** A time more than 2^31 seconds after another outranks it. */
  lemma FarRanksFlip()
    ensures Ranks(Timespec(0x8000_0002, 0), Timespec(1, 0)) > 0 > Ranks(Timespec(1, 0), Timespec(0x8000_0002, 0))
  {}

  // ----- timers -----

  /** A positive time since boot, as a 32-bit count of seconds can hold it. */
  type BootTime = t: Timespec | Normalised(t) && 0 <= t.sec < INT32_RANGE / 2 && (t.sec > 0 || t.nsec > 0)
    witness Timespec(1, 0)

  /** A timer delegate: its address and the time it is due. */
  datatype Timer = Timer(addr: nat, due: BootTime)

  predicate OutRanks(a: Timer, b: Timer) {
    Ranks(a.due, b.due) > 0
  }

  predicate DueBy(t: Timer, now: BootTime) {
    Nanos(t.due) <= Nanos(now)
  }

  lemma OutRanksIsEarlier(a: Timer, b: Timer)
    ensures OutRanks(a, b) <==> Nanos(a.due) < Nanos(b.due)
  {
    var d := b.due.sec - a.due.sec;
    assert GapSurvives(d);
    RankIsTimeOrder(a.due.sec, b.due.sec);
    assert RankAgreesWithTime(Timespec(a.due.sec, a.due.nsec), Timespec(b.due.sec, b.due.nsec));
  }

  /** The times a boot clock can give make the ranking total, as the heap needs it. */
  lemma TimersRankTotally()
    ensures RanksTotally(OutRanks)
  {
    forall a, b | OutRanks(a, b) ensures !OutRanks(b, a) {
      OutRanksIsEarlier(a, b);
      OutRanksIsEarlier(b, a);
    }
    forall a, b, c | !OutRanks(a, b) && !OutRanks(b, c) ensures !OutRanks(a, c) {
      OutRanksIsEarlier(a, b);
      OutRanksIsEarlier(b, c);
      OutRanksIsEarlier(a, c);
    }
  }

  /** A clock reading from which every 32-bit count of milliseconds still ends within 32 bits of seconds. */
  type ClockReading = t: BootTime | t.sec < INT32_RANGE / 2 - 4_294_968 witness Timespec(1, 0)

  /** The due time of a timer started at `now`. */
  function FutureTime(now: ClockReading, timeOutInMs: nat): (future: BootTime)
    requires timeOutInMs < INT32_RANGE
    ensures Nanos(future) == Nanos(now) + timeOutInMs * 1_000_000
  {
    var sec := now.sec + timeOutInMs / 1000;
    var nsec := now.nsec + timeOutInMs % 1000 * 1_000_000;
    assert timeOutInMs == timeOutInMs / 1000 * 1000 + timeOutInMs % 1000;
    if nsec >= NSEC_PER_SEC then Timespec(sec + nsec / NSEC_PER_SEC, nsec % NSEC_PER_SEC) else Timespec(sec, nsec)
  }

  // ----- one container -----

  function Top(t: Tree<Timer>): Option<Timer> {
    if t.Leaf? then None else Some(t.data)
  }

  /** What is to be done with the timer descriptor. */
  datatype Action = Keep | Disarm | Arm(due: BootTime)

  /** The timer descriptor: the absolute time it is set to, if any, and whether it is polled. */
  datatype Fd = Fd(armed: Option<BootTime>, polled: bool)

  function Act(fd: Fd, action: Action): Fd {
    match action
    case Keep => fd
    case Disarm => Fd(None, false)
    case Arm(due) => Fd(Some(due), true)
  }

  /** The decision made from the top before and after a change of the heap. */
  function UpdateSoonest(priorTop: Option<Timer>, curTop: Option<Timer>): Action {
    if curTop == priorTop then Keep
    else if curTop == None then Disarm
    else if priorTop == None || OutRanks(curTop.value, priorTop.value) then Arm(curTop.value.due)
    else Keep
  }

  datatype Outcome = Outcome(tree: Tree<Timer>, action: Action)

  function OnPush(t: Tree<Timer>, timer: Timer): Outcome {
    var t' := Push(OutRanks, t, timer);
    Outcome(t', UpdateSoonest(Top(t), Top(t')))
  }

  /** The time is set again only if the timer taken out was the top, or both are NULL. */
  function AfterRemove(t: Tree<Timer>, timer: Timer, r: Removal<Timer>): Outcome {
    var same := Top(t) == if r.found then Some(timer) else None;
    Outcome(r.tree, if same then UpdateSoonest(None, Top(r.tree)) else Keep)
  }

  function OnRemove(t: Tree<Timer>, timer: Timer): Outcome {
    AfterRemove(t, timer, Remove(OutRanks, t, timer))
  }

  datatype Drained = Drained(popped: seq<Timer>, tree: Tree<Timer>)

  /** Pops while the top does not lie after `now`. */
  function PopDue(t: Tree<Timer>, now: BootTime): Drained
    decreases Nodes(t)
  {
    if t.Leaf? || OutRanks(Timer(0, now), t.data) then Drained([], t)
    else
      NodesAfterPop(OutRanks, t);
      var rest := PopDue(PopTop(OutRanks, t), now);
      Drained([t.data] + rest.popped, rest.tree)
  }

  /** An expire message pops once whatever the time is, and then whatever is due. */
  function Drain(t: Tree<Timer>, now: BootTime): Drained {
    if t.Leaf? then Drained([], t)
    else
      var rest := PopDue(PopTop(OutRanks, t), now);
      Drained([t.data] + rest.popped, rest.tree)
  }

  function OnExpire(t: Tree<Timer>, now: BootTime): Outcome {
    var t' := Drain(t, now).tree;
    Outcome(t', UpdateSoonest(None, Top(t')))
  }

  // ----- what an expire message leaves and takes -----

  ghost predicate HeapOk(t: Tree<Timer>) {
    Sized(t) && Ordered(OutRanks, t)
  }

  ghost predicate InTimeOrder(ts: seq<Timer>) {
    forall i, j :: 0 <= i < j < |ts| ==> Nanos(ts[i].due) <= Nanos(ts[j].due)
  }

  lemma PushTimer(t: Tree<Timer>, timer: Timer)
    requires HeapOk(t)
    ensures var t' := Push(OutRanks, t, timer);
      && HeapOk(t') && Bag(t') == Bag(t) + multiset{timer}
      && t'.Node? && t'.data == (if t.Leaf? || OutRanks(timer, t.data) then timer else t.data)
  {
    TimersRankTotally();
    PushRefines(OutRanks, t, timer);
  }

  lemma PopTimer(t: Tree<Timer>)
    requires HeapOk(t) && t.Node?
    ensures var t' := PopTop(OutRanks, t);
      HeapOk(t') && Bag(t') == Bag(t) - multiset{t.data} && t.data in Bag(t)
  {
    TimersRankTotally();
    PopRefines(OutRanks, t);
  }

  lemma RemoveTimer(t: Tree<Timer>, timer: Timer)
    requires HeapOk(t)
    ensures var r := Remove(OutRanks, t, timer);
      && (r.found <==> timer in Bag(t)) && (!r.found ==> r.tree == t)
      && HeapOk(r.tree) && Bag(r.tree) == Bag(t) - multiset{timer}
  {
    TimersRankTotally();
    RemoveRefines(OutRanks, t, timer);
  }

  /** Nothing in the heap is due before its top. */
  lemma TopIsSoonest(t: Tree<Timer>, x: Timer)
    requires HeapOk(t) && x in Bag(t)
    ensures t.Node? && Nanos(t.data.due) <= Nanos(x.due)
  {
    TimersRankTotally();
    TopIsHighest(OutRanks, t, x);
    OutRanksIsEarlier(x, t.data);
  }

  lemma TopIsSoonestOfAll(t: Tree<Timer>)
    requires HeapOk(t) && t.Node?
    ensures t.data in Bag(t) && forall x :: x in Bag(t) ==> Nanos(t.data.due) <= Nanos(x.due)
  {
    forall x | x in Bag(t) ensures Nanos(t.data.due) <= Nanos(x.due) {
      TopIsSoonest(t, x);
    }
  }

  ghost predicate DueDrained(t: Tree<Timer>, now: BootTime, d: Drained) {
    && HeapOk(d.tree) && multiset(d.popped) + Bag(d.tree) == Bag(t) && InTimeOrder(d.popped)
    && (forall x :: x in d.popped ==> x in Bag(t) && DueBy(x, now))
    && (forall x :: x in Bag(d.tree) ==> !DueBy(x, now))
  }

  /** Nothing is due if the top is not. */
  lemma NothingDue(t: Tree<Timer>, now: BootTime)
    requires HeapOk(t) && (t.Leaf? || OutRanks(Timer(0, now), t.data))
    ensures DueDrained(t, now, Drained([], t))
  {
    forall x | x in Bag(t) ensures !DueBy(x, now) {
      TopIsSoonest(t, x);
      OutRanksIsEarlier(Timer(0, now), t.data);
    }
  }

  lemma TopDue(t: Tree<Timer>, now: BootTime, rest: Drained)
    requires HeapOk(t) && t.Node? && !OutRanks(Timer(0, now), t.data)
    requires DueDrained(PopTop(OutRanks, t), now, rest)
    ensures DueDrained(t, now, Drained([t.data] + rest.popped, rest.tree))
  {
    PopTimer(t);
    TopIsSoonestOfAll(t);
    AddFirst(t.data, Bag(t), rest.popped, Bag(rest.tree));
    OutRanksIsEarlier(Timer(0, now), t.data);
  }

  lemma {:induction false} PopDueIsExact(t: Tree<Timer>, now: BootTime)
    requires HeapOk(t)
    ensures DueDrained(t, now, PopDue(t, now))
    decreases Nodes(t)
  {
    if t.Leaf? || OutRanks(Timer(0, now), t.data) {
      NothingDue(t, now);
    } else {
      PopTimer(t);
      NodesAfterPop(OutRanks, t);
      PopDueIsExact(PopTop(OutRanks, t), now);
      TopDue(t, now, PopDue(PopTop(OutRanks, t), now));
    }
  }

  /** The step of the proof above: the old top goes in front of what the rest of the drain pops. */
  lemma AddFirst(top: Timer, b: multiset<Timer>, popped: seq<Timer>, left: multiset<Timer>)
    requires top in b && forall x :: x in b ==> Nanos(top.due) <= Nanos(x.due)
    requires multiset(popped) + left == b - multiset{top} && InTimeOrder(popped)
    ensures multiset([top] + popped) + left == b && InTimeOrder([top] + popped)
    ensures forall x :: x in popped || x in left ==> x in b
  {
    assert multiset([top] + popped) == multiset{top} + multiset(popped);
    forall x | x in popped || x in left ensures x in b {
      assert x in multiset(popped) + left;
    }
    forall i, j | 0 <= i < j < |[top] + popped|
      ensures Nanos(([top] + popped)[i].due) <= Nanos(([top] + popped)[j].due)
    {
      assert ([top] + popped)[j] == popped[j - 1] && popped[j - 1] in b;
    }
  }

  /** The first pop: what it takes, whether due or not, comes before all else. */
  lemma DrainIsPopThenDue(t: Tree<Timer>, now: BootTime)
    requires HeapOk(t) && t.Node?
    ensures var rest := PopDue(PopTop(OutRanks, t), now);
      && Drain(t, now) == Drained([t.data] + rest.popped, rest.tree)
      && HeapOk(rest.tree) && multiset([t.data] + rest.popped) + Bag(rest.tree) == Bag(t)
      && InTimeOrder([t.data] + rest.popped)
      && (forall x :: x in rest.popped ==> DueBy(x, now))
      && (forall x :: x in Bag(rest.tree) ==> !DueBy(x, now))
  {
    PopTimer(t);
    var t' := PopTop(OutRanks, t);
    PopDueIsExact(t', now);
    TopIsSoonestOfAll(t);
    AddFirst(t.data, Bag(t), PopDue(t', now).popped, Bag(PopDue(t', now).tree));
  }

  /**
    * One expire message pops in time order, keeps what is strictly later than `now`, loses nothing, and pops a
    * timer before it is due exactly when the top was not due, and then only that one.
    */
  lemma DrainIsExact(t: Tree<Timer>, now: BootTime)
    requires HeapOk(t)
    ensures var d := Drain(t, now);
      && HeapOk(d.tree) && multiset(d.popped) + Bag(d.tree) == Bag(t) && InTimeOrder(d.popped)
      && (forall x :: x in Bag(d.tree) ==> !DueBy(x, now))
      && (t.Node? ==> d.popped != [] && d.popped[0] == t.data)
      && (forall i :: 0 <= i < |d.popped| ==> (DueBy(d.popped[i], now) <==> i > 0 || DueBy(t.data, now)))
  {
    if t.Node? {
      DrainIsPopThenDue(t, now);
      var rest := PopDue(PopTop(OutRanks, t), now);
      var popped := [t.data] + rest.popped;
      forall i | 0 < i < |popped| ensures DueBy(popped[i], now) {
        assert popped[i] == rest.popped[i - 1] && popped[i] in rest.popped;
      }
    }
  }

  // ----- the descriptor always follows the top -----

  /** Whether a descriptor armed as told keeps the soonest time, given that it did before. */
  ghost predicate Follows(t: Tree<Timer>, o: Outcome) {
    o.tree.Node? ==>
      match o.action
      case Keep => t.Node? && t.data == o.tree.data
      case Disarm => false
      case Arm(due) => due == o.tree.data.due
  }

  /** The decisions as such, whatever the trees are. */
  lemma ChangeOfTopFollows(t: Tree<Timer>, t': Tree<Timer>)
    requires t'.Node? && (t.Node? && t'.data != t.data ==> OutRanks(t'.data, t.data))
    ensures var o := Outcome(t', UpdateSoonest(Top(t), Top(t')));
      Follows(t, o) && !o.action.Disarm?
  {}

  lemma RemovalFollows(t: Tree<Timer>, timer: Timer, r: Removal<Timer>)
    requires t.Leaf? ==> !r.found && r.tree == t
    requires t.Node? ==> if timer == t.data then r.found else r.tree.Node? && r.tree.data == t.data
    ensures var o := AfterRemove(t, timer, r);
      Follows(t, o) && !o.action.Disarm? && (o.action.Arm? ==> o.tree.Node?) && (o.tree.Leaf? ==> o.action == Keep)
  {}

  lemma FreshStartFollows(t: Tree<Timer>)
    ensures var o := Outcome(t, UpdateSoonest(None, Top(t)));
      Follows(Leaf, o) && !o.action.Disarm? && (t.Leaf? ==> o.action == Keep)
  {}

  lemma PushFollows(t: Tree<Timer>, timer: Timer)
    requires HeapOk(t)
    ensures var o := OnPush(t, timer);
      && HeapOk(o.tree) && Bag(o.tree) == Bag(t) + multiset{timer} && Follows(t, o) && !o.action.Disarm?
      && (o.action.Arm? ==> o.tree.Node?)
  {
    PushTimer(t, timer);
    ChangeOfTopFollows(t, Push(OutRanks, t, timer));
  }

  lemma RemoveFollows(t: Tree<Timer>, timer: Timer)
    requires HeapOk(t)
    ensures var o := OnRemove(t, timer);
      && HeapOk(o.tree) && Bag(o.tree) == Bag(t) - multiset{timer} && Follows(t, o) && !o.action.Disarm?
      && (o.action.Arm? ==> o.tree.Node?)
  {
    RemoveTimer(t, timer);
    RemoveKeepsTop(t, timer);
    RemovalFollows(t, timer, Remove(OutRanks, t, timer));
  }

  lemma RemoveKeepsTop(t: Tree<Timer>, timer: Timer)
    ensures var r := Remove(OutRanks, t, timer);
      && (t.Leaf? ==> !r.found && r.tree == t)
      && (t.Node? ==> if timer == t.data then r.found else r.tree.Node? && r.tree.data == t.data)
  {
    if t.Node? {
      RemoveElsewhereKeepsTop(OutRanks, t, timer);
    }
  }

  lemma ExpireFollows(t: Tree<Timer>, now: BootTime)
    requires HeapOk(t)
    ensures var o := OnExpire(t, now);
      && HeapOk(o.tree) && Bag(o.tree) <= Bag(t) && Follows(Leaf, o) && !o.action.Disarm?
      && (o.tree.Leaf? ==> o.action == Keep)
  {
    DrainIsExact(t, now);
    FreshStartFollows(Drain(t, now).tree);
    PartOfSum(multiset(Drain(t, now).popped), Bag(Drain(t, now).tree), Bag(t));
  }

  lemma PartOfSum(a: multiset<Timer>, b: multiset<Timer>, whole: multiset<Timer>)
    requires a + b == whole
    ensures b <= whole
  {}

  /** A push sets the descriptor exactly if the timer is due before all others. */
  lemma PushArmsForSooner(t: Tree<Timer>, timer: Timer)
    requires HeapOk(t)
    ensures OnPush(t, timer).action ==
      if t.Leaf? || Nanos(timer.due) < Nanos(t.data.due) then Arm(timer.due) else Keep
  {
    PushTimer(t, timer);
    if t.Node? {
      OutRanksIsEarlier(timer, t.data);
    }
  }

  /** A removal sets it exactly if it takes out the top and leaves something. */
  lemma RemoveArmsForTop(t: Tree<Timer>, timer: Timer)
    requires HeapOk(t)
    ensures var o := OnRemove(t, timer);
      o.action == if t.Node? && t.data == timer && o.tree.Node? then Arm(o.tree.data.due) else Keep
  {
    RemoveKeepsTop(t, timer);
  }

  /** An expiry sets it exactly if it leaves something. */
  lemma ExpireArmsIfLeft(t: Tree<Timer>, now: BootTime)
    ensures var o := OnExpire(t, now);
      o.action == if o.tree.Node? then Arm(o.tree.data.due) else Keep
  {}
}
