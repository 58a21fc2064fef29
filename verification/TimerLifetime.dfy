/**
  * The life of a timer delegate: it is put into a heap once and deleted once, nothing ever refers to it after that,
  * and a timer that runs is in its heap.
  */
module TimerLifetime {
  import opened Wrappers
  import opened HeapSpec
  import opened TimerSpec
  import opened TimerProtocol

  // ----- where a delegate can be -----

  ghost predicate ToPush(s: State, d: Delegate) {
    PushMsg(d.which, d.timer) in s.queue
  }

  ghost predicate ToRemove(s: State, d: Delegate) {
    RemoveMsg(d.which, d.timer) in s.queue
  }

  ghost predicate InHeap(s: State, d: Delegate) {
    d.timer in Bag(s.At(d.which).tree)
  }

  /** Its client has it as its running timer, or is just starting it. */
  ghost predicate Owned(s: State, d: Delegate) {
    s.ClientAt(d.owner).mTimer == Some(d.timer) || s.ClientAt(d.owner).lock == Starting(d.timer)
  }

  /** Somebody is inside `stop` and has cleared it but not yet sent its removal. */
  ghost predicate BeingStopped(s: State, d: Delegate) {
    s.ClientAt(d.owner).lock.Stopping? && s.ClientAt(d.owner).lock.timer == d.timer
  }

  /** The task deletes it at the end of the message in progress. */
  ghost predicate Doomed(s: State, d: Delegate) {
    (s.task.Adding? || s.task.Setting?) && s.task.doomed == Some(d.timer)
  }

  /** The task has popped it and is in its `expire`. */
  ghost predicate Popped(s: State, d: Delegate) {
    (s.task.Expiring? || s.task.ToStop?) && s.task.timer == d.timer
  }

  /** The task has popped it and still means to stop whatever its client runs. */
  ghost predicate InHand(s: State, d: Delegate) {
    (s.task.Expiring? && s.task.timer == d.timer) || (s.task.ToStop? && s.task.client == d.owner)
  }

  // ----- the invariant -----

  datatype Place = Place(toPush: bool, toRemove: bool, inHeap: bool, owned: bool, beingStopped: bool, doomed: bool,
                         popped: bool, inHand: bool)

  ghost function PlaceOf(s: State, d: Delegate): Place {
    Place(ToPush(s, d), ToRemove(s, d), InHeap(s, d), Owned(s, d), BeingStopped(s, d), Doomed(s, d), Popped(s, d),
      InHand(s, d))
  }

  /** The four ways a delegate is accounted for between creation and deletion exclude each other. */
  ghost predicate PlaceOk(d: Delegate, p: Place) {
    && d.pushes == (if p.toPush then 0 else 1)
    && d.deletes == (if p.owned || p.beingStopped || p.toRemove || p.doomed then 0 else 1)
    && !(p.owned && p.beingStopped) && !(p.owned && p.toRemove) && !(p.owned && p.doomed)
    && !(p.beingStopped && p.toRemove) && !(p.beingStopped && p.doomed) && !(p.toRemove && p.doomed)
    && d.mClient == d.mContainer == p.owned
    && !(p.toPush && p.inHeap)
    && (p.toPush || p.inHeap ==> d.deletes == 0 && !p.doomed && !p.popped)
    && (p.owned && !p.toPush && !p.inHeap ==> p.inHand)
    && (p.popped ==> d.deletes == 0)
  }

  ghost predicate DelegateOk(s: State, d: Delegate) {
    PlaceOk(d, PlaceOf(s, d))
  }

  ghost predicate Known(s: State, w: Which, t: Timer) {
    t.addr in s.delegates && s.delegates[t.addr].timer == t && s.delegates[t.addr].which == w
  }

  ghost predicate OwnerKnown(s: State, c: ClientId, t: Timer) {
    t.addr in s.delegates && s.delegates[t.addr].timer == t && s.delegates[t.addr].owner == c
  }

  ghost predicate ClientOk(s: State, c: ClientId) {
    var client := s.ClientAt(c);
    && (client.mTimer != None ==> client.lock == Free && OwnerKnown(s, c, client.mTimer.value))
    && (client.lock.Starting? || client.lock.Stopping? ==> OwnerKnown(s, c, client.lock.timer))
    && (client.lock.Stopping? ==> client.lock.container)
    && (!client.alive ==> client.mTimer == None && client.lock == Free)
    && (s.task.InStop? && s.task.client == c <==> client.lock.Stopping? && client.lock.byTask)
    && (TaskUses(s, c) ==> client.alive)
  }

  ghost predicate HeapKnown(s: State, w: Which) {
    && HeapOk(s.At(w).tree)
    && forall t :: t in Bag(s.At(w).tree) ==> Known(s, w, t) && Bag(s.At(w).tree)[t] == 1
  }

  ghost predicate TaskKnown(s: State) {
    && (s.task.Expiring? ==> Known(s, s.task.which, s.task.timer))
    && (s.task.ToStop? ==> Known(s, s.task.which, s.task.timer) && OwnerKnown(s, s.task.client, s.task.timer))
    && ((s.task.Adding? || s.task.Setting?) && s.task.doomed != None ==> Known(s, s.task.which, s.task.doomed.value))
  }

  /** No push or remove message is queued twice, and no delegate's removal before its push. */
  ghost predicate QueueOk(q: seq<Msg>) {
    && (forall i, j :: 0 <= i < j < |q| && q[i] == q[j] ==> q[i].ExpireMsg?)
    && (forall i, j :: 0 <= i < j < |q| && q[i].RemoveMsg? ==> q[j] != PushMsg(q[i].which, q[i].timer))
  }

  ghost predicate QueueKnown(s: State) {
    forall m :: m in s.queue && !m.ExpireMsg? ==> Known(s, m.which, m.timer)
  }

  ghost predicate AccountOk(s: State, a: nat) {
    a in s.delegates ==>
      s.delegates[a].timer.addr == a && s.delegates[a].owner in s.clients && DelegateOk(s, s.delegates[a])
  }

  ghost predicate DelegatesOk(s: State) {
    forall a :: AccountOk(s, a)
  }

  ghost predicate ClientsOk(s: State) {
    forall c :: ClientOk(s, c)
  }

  /** Whatever a heap, a queued message or the task mentions is a delegate of the right container. */
  ghost predicate AllKnown(s: State) {
    HeapKnown(s, Sw) && HeapKnown(s, Hw) && TaskKnown(s) && QueueOk(s.queue) && QueueKnown(s)
  }

  ghost predicate LifeInv(s: State) {
    DelegatesOk(s) && ClientsOk(s) && AllKnown(s)
  }

  lemma LifeInitially(s: State)
    requires Initial(s)
    ensures LifeInv(s)
  {}

  lemma DelegateAtOk(s: State, t: Timer)
    requires LifeInv(s) && t.addr in s.delegates && s.delegates[t.addr].timer == t
    ensures DelegateOk(s, s.DelegateAt(t)) && s.DelegateAt(t) == s.delegates[t.addr] && s.DelegateAt(t).timer == t
    ensures s.DelegateAt(t).owner in s.clients
  {
    assert AccountOk(s, t.addr);
  }

  /** What is known of a timer stays known while delegates keep their timer, owner and container. */
  ghost predicate SameIdentities(s: State, s': State) {
    && s.clients.Keys <= s'.clients.Keys
    && s.delegates.Keys <= s'.delegates.Keys
    && forall a :: a in s.delegates ==>
        && s'.delegates[a].timer == s.delegates[a].timer && s'.delegates[a].owner == s.delegates[a].owner
        && s'.delegates[a].which == s.delegates[a].which
  }

  lemma UpdateKeepsIdentities(s: State, s': State, d: Delegate)
    requires s.clients.Keys <= s'.clients.Keys && s'.delegates == s.delegates[d.timer.addr := d]
    requires d.timer.addr in s.delegates ==>
      var e := s.delegates[d.timer.addr];
      e.timer == d.timer && e.owner == d.owner && e.which == d.which
    ensures SameIdentities(s, s')
  {}

  lemma HeapsStayKnown(s: State, s': State)
    requires HeapKnown(s, Sw) && HeapKnown(s, Hw) && SameIdentities(s, s')
    requires s'.sw.tree == s.sw.tree && s'.hw.tree == s.hw.tree
    ensures HeapKnown(s', Sw) && HeapKnown(s', Hw)
  {
    forall w, t | t in Bag(s'.At(w).tree) ensures Known(s', w, t) {
      assert s'.At(w).tree == s.At(w).tree;
      assert Known(s, w, t);
    }
    assert s'.At(Sw).tree == s.At(Sw).tree && s'.At(Hw).tree == s.At(Hw).tree;
  }

  lemma QueueStaysKnown(s: State, s': State)
    requires QueueKnown(s) && SameIdentities(s, s')
    requires forall m :: m in s'.queue && !m.ExpireMsg? ==> m in s.queue || Known(s', m.which, m.timer)
    ensures QueueKnown(s')
  {
    forall m | m in s'.queue && !m.ExpireMsg? ensures Known(s', m.which, m.timer) {
      if m in s.queue {
        assert Known(s, m.which, m.timer);
      }
    }
  }

  // ----- steps that move no delegate -----

  lemma SendKeepsQueueOk(q: seq<Msg>, m: Msg)
    requires QueueOk(q)
    requires !m.ExpireMsg? ==> m !in q
    requires m.PushMsg? ==> RemoveMsg(m.which, m.timer) !in q
    ensures QueueOk(q + [m]) && forall n :: n in q + [m] <==> n in q || n == m
  {}

  /** Nothing changes but the clock, counters, descriptors, queued expire messages and where the task is. */
  ghost predicate Quiet(s: State, s': State) {
    && s'.delegates == s.delegates && s'.sw.tree == s.sw.tree && s'.hw.tree == s.hw.tree
    && (forall c :: s'.ClientAt(c).mTimer == s.ClientAt(c).mTimer && s'.ClientAt(c).lock == s.ClientAt(c).lock)
    && s.clients.Keys <= s'.clients.Keys
    && QueueOk(s'.queue) && (forall m: Msg :: !m.ExpireMsg? ==> (m in s'.queue <==> m in s.queue))
    && (forall d: Delegate :: Doomed(s', d) == Doomed(s, d))
    && (forall d: Delegate :: Popped(s', d) ==> Popped(s, d))
  }

  lemma QuietDelegate(s: State, s': State, d: Delegate)
    requires Quiet(s, s') && DelegateOk(s, d)
    requires Owned(s, d) && InHand(s, d) && !ToPush(s, d) && !InHeap(s, d) ==> InHand(s', d)
    ensures DelegateOk(s', d)
  {
    var p, p' := PlaceOf(s, d), PlaceOf(s', d);
    assert p'.(popped := p.popped, inHand := p.inHand) == p;
    assert p'.popped ==> p.popped;
  }

  ghost predicate QuietClient(s: State, s': State, c: ClientId) {
    && s'.ClientAt(c).mTimer == s.ClientAt(c).mTimer && s'.ClientAt(c).lock == s.ClientAt(c).lock
    && (!s'.ClientAt(c).alive ==> s.ClientAt(c).mTimer == None && s.ClientAt(c).lock == Free)
    && (TaskUses(s', c) ==> s'.ClientAt(c).alive)
  }

  lemma QuietClients(s: State, s': State)
    requires ClientsOk(s)
    requires s'.delegates == s.delegates && (s'.task.InStop? || s.task.InStop? ==> s'.task == s.task)
    requires forall c :: QuietClient(s, s', c)
    ensures ClientsOk(s')
  {
    forall c ensures ClientOk(s', c) {
      assert ClientOk(s, c) && QuietClient(s, s', c);
    }
  }

  lemma QuietStep(s: State, s': State)
    requires LifeInv(s) && Quiet(s, s') && TaskKnown(s')
    requires forall a :: a in s.delegates ==>
      var d := s.delegates[a];
      Owned(s, d) && InHand(s, d) && !ToPush(s, d) && !InHeap(s, d) ==> InHand(s', d)
    requires ClientsOk(s')
    ensures LifeInv(s')
  {
    forall a ensures AccountOk(s', a) {
      assert AccountOk(s, a);
      if a in s.delegates {
        QuietDelegate(s, s', s.delegates[a]);
      }
    }
    HeapsStayKnown(s, s');
    QueueStaysKnown(s, s');
  }

  lemma LifeTick(s: State, to: ClockReading)
    requires LifeInv(s)
    ensures LifeInv(s.(clock := to))
  {
    var s' := s.(clock := to);
    forall c ensures QuietClient(s, s', c) {
      assert ClientOk(s, c);
    }
    QuietClients(s, s');
    QuietStep(s, s');
  }

  lemma LifeNewClient(s: State, c: ClientId)
    requires LifeInv(s) && c !in s.clients
    ensures LifeInv(Next(s, NewClient(c)))
  {
    var s' := Next(s, NewClient(c));
    forall c ensures QuietClient(s, s', c) {
      assert ClientOk(s, c);
    }
    QuietClients(s, s');
    QuietStep(s, s');
  }

  lemma LifeDestroy(s: State, c: ClientId)
    requires LifeInv(s) && Enabled(s, Destroy(c))
    ensures LifeInv(Next(s, Destroy(c)))
  {
    var s' := Next(s, Destroy(c));
    forall c ensures QuietClient(s, s', c) {
      assert ClientOk(s, c);
    }
    QuietClients(s, s');
    QuietStep(s, s');
  }

  lemma LifeCallback(s: State)
    requires LifeInv(s) && s.task.ToCall?
    ensures LifeInv(Next(s, TaskCallback))
  {
    var s' := Next(s, TaskCallback);
    forall c ensures QuietClient(s, s', c) {
      assert ClientOk(s, c);
    }
    QuietClients(s, s');
    QuietStep(s, s');
  }

  lemma LifeAddPoll(s: State)
    requires LifeInv(s) && s.task.Adding?
    ensures LifeInv(Next(s, TaskAddPoll))
  {
    var s' := Next(s, TaskAddPoll);
    forall c ensures QuietClient(s, s', c) {
      assert ClientOk(s, c);
    }
    QuietClients(s, s');
    QuietStep(s, s');
  }

  /** Nothing but descriptors and the poll thread's own state. */
  lemma LifePoll(s: State, s': State)
    requires LifeInv(s) && s'.delegates == s.delegates && s'.clients == s.clients && s'.task == s.task
    requires s'.sw.tree == s.sw.tree && s'.hw.tree == s.hw.tree
    requires s'.queue == s.queue || exists w :: s'.queue == s.queue + [ExpireMsg(w)]
    ensures LifeInv(s')
  {
    if s'.queue != s.queue {
      var w :| s'.queue == s.queue + [ExpireMsg(w)];
      SendKeepsQueueOk(s.queue, ExpireMsg(w));
    }
    forall c ensures QuietClient(s, s', c) {
      assert ClientOk(s, c);
    }
    QuietClients(s, s');
    QuietStep(s, s');
  }

  lemma LifeReadClient(s: State)
    requires LifeInv(s) && s.task.Expiring?
    ensures LifeInv(Next(s, TaskReadClient))
  {
    var s' := Next(s, TaskReadClient);
    var d := s.DelegateAt(s.task.timer);
    DelegateAtOk(s, s.task.timer);
    forall c ensures QuietClient(s, s', c) {
      assert ClientOk(s, c);
    }
    QuietClients(s, s');
    forall a | a in s.delegates && Owned(s, s.delegates[a]) && InHand(s, s.delegates[a])
      ensures InHand(s', s.delegates[a])
    {
      assert AccountOk(s, a) && AccountOk(s, d.timer.addr);
      assert s.delegates[a].timer == d.timer;
    }
    QuietStep(s, s');
  }

  lemma LifeNothingToStop(s: State)
    requires LifeInv(s) && Enabled(s, TaskStopBegin) && s.ClientAt(s.task.client).mTimer == None
    ensures LifeInv(Next(s, TaskStopBegin))
  {
    var s' := Next(s, TaskStopBegin);
    forall c ensures QuietClient(s, s', c) {
      assert ClientOk(s, c);
    }
    QuietClients(s, s');
    QuietStep(s, s');
  }

  // ----- starting -----

  lemma FreshTimer(s: State, timer: Timer)
    requires LifeInv(s) && timer.addr !in s.delegates
    ensures forall m :: m in s.queue && !m.ExpireMsg? ==> m.timer != timer
    ensures forall w :: timer !in Bag(s.At(w).tree)
    ensures s.task.Expiring? ==> s.task.timer != timer
    ensures (s.task.Adding? || s.task.Setting?) ==> s.task.doomed != Some(timer)
    ensures forall c :: s.ClientAt(c).mTimer != Some(timer)
    ensures forall c ::
      s.ClientAt(c).lock.Starting? || s.ClientAt(c).lock.Stopping? ==> s.ClientAt(c).lock.timer != timer
  {
    forall m | m in s.queue && !m.ExpireMsg? ensures m.timer != timer {
      assert Known(s, m.which, m.timer);
    }
    forall w ensures timer !in Bag(s.At(w).tree) {
      assert !Known(s, w, timer);
    }
    forall c
      ensures s.ClientAt(c).mTimer != Some(timer)
      ensures s.ClientAt(c).lock.Starting? || s.ClientAt(c).lock.Stopping? ==> s.ClientAt(c).lock.timer != timer
    {
      assert ClientOk(s, c);
    }
  }

  /** The lock has been taken and the clock read, no more. */
  ghost predicate Began(s: State, s': State, c: ClientId) {
    var client, client' := s.ClientAt(c), s'.ClientAt(c);
    && client.alive && client.lock == Free && client.mTimer == None && c in s.clients
    && s'.clients == s.clients[c := client']
    && client'.lock.Computing? && client' == client.(lock := client'.lock)
    && s'.delegates == s.delegates && s'.queue == s.queue && s'.sw == s.sw && s'.hw == s.hw && s'.task == s.task
  }

  lemma BeganDelegate(s: State, s': State, c: ClientId, d: Delegate)
    requires Began(s, s', c) && DelegateOk(s, d)
    ensures DelegateOk(s', d)
  {
    assert PlaceOf(s', d) == PlaceOf(s, d);
  }

  lemma BeganClients(s: State, s': State, c: ClientId)
    requires ClientsOk(s) && Began(s, s', c)
    ensures ClientsOk(s')
  {
    forall b ensures ClientOk(s', b) {
      assert ClientOk(s, b) && ClientOk(s, c);
    }
  }

  lemma LifeBegan(s: State, s': State, c: ClientId)
    requires LifeInv(s) && Began(s, s', c)
    ensures LifeInv(s')
  {
    forall a ensures AccountOk(s', a) {
      assert AccountOk(s, a);
      if a in s.delegates {
        BeganDelegate(s, s', c, s.delegates[a]);
      }
    }
    BeganClients(s, s', c);
    HeapsStayKnown(s, s');
    QueueStaysKnown(s, s');
  }

  /** A new delegate, its push in the queue and its client inside `start`. */
  ghost predicate Started(s: State, s': State, d: Delegate) {
    var client := s.ClientAt(d.owner);
    && d.timer.addr !in s.delegates && d.pushes == 0 && d.deletes == 0 && d.mClient && d.mContainer
    && client.alive && client.lock.Computing? && client.mTimer == None
    && s'.delegates == s.delegates[d.timer.addr := d] && s'.queue == s.queue + [PushMsg(d.which, d.timer)]
    && s'.sw == s.sw && s'.hw == s.hw && s'.task == s.task
    && s'.clients == s.clients[d.owner := client.(lock := Starting(d.timer), mRef := client.mRef + 1)]
  }

  lemma StartedOthers(s: State, s': State, d: Delegate, e: Delegate)
    requires LifeInv(s) && Started(s, s', d) && e.timer.addr in s.delegates && s.delegates[e.timer.addr] == e
    ensures DelegateOk(s', e)
  {
    assert AccountOk(s, e.timer.addr) && e.timer != d.timer;
    assert forall m :: m in s'.queue <==> m in s.queue || m == PushMsg(d.which, d.timer);
    assert PlaceOf(s', e) == PlaceOf(s, e);
  }

  lemma StartedSelf(s: State, s': State, d: Delegate)
    requires LifeInv(s) && Started(s, s', d)
    ensures DelegateOk(s', d)
  {
    FreshTimer(s, d.timer);
    assert s'.queue[|s.queue|] == PushMsg(d.which, d.timer);
    assert PlaceOf(s', d) == Place(true, false, false, true, false, false, false, InHand(s', d));
  }

  lemma StartedClients(s: State, s': State, d: Delegate)
    requires LifeInv(s) && Started(s, s', d)
    ensures ClientsOk(s')
  {
    forall c ensures ClientOk(s', c) {
      assert ClientOk(s, c) && ClientOk(s, d.owner);
    }
  }

  lemma StartedDelegates(s: State, s': State, d: Delegate)
    requires LifeInv(s) && Started(s, s', d)
    ensures DelegatesOk(s')
  {
    forall a ensures AccountOk(s', a) {
      assert AccountOk(s, a);
      if a == d.timer.addr {
        StartedSelf(s, s', d);
      } else if a in s.delegates {
        StartedOthers(s, s', d, s.delegates[a]);
      }
    }
  }

  lemma StartedRest(s: State, s': State, d: Delegate)
    requires LifeInv(s) && Started(s, s', d)
    ensures AllKnown(s')
  {
    UpdateKeepsIdentities(s, s', d);
    FreshTimer(s, d.timer);
    SendKeepsQueueOk(s.queue, PushMsg(d.which, d.timer));
    HeapsStayKnown(s, s');
    QueueStaysKnown(s, s');
  }

  lemma LifeStarted(s: State, s': State, d: Delegate)
    requires LifeInv(s) && Started(s, s', d)
    ensures LifeInv(s')
  {
    assert ClientOk(s, d.owner);
    StartedDelegates(s, s', d);
    StartedClients(s, s', d);
    StartedRest(s, s', d);
  }

  /** The client's lock is left with the new timer running. */
  ghost predicate StartDone(s: State, s': State, c: ClientId) {
    var client, client' := s.ClientAt(c), s'.ClientAt(c);
    && client.lock.Starting? && client.mTimer == None && c in s.clients && s'.clients == s.clients[c := client']
    && client'.alive == client.alive && client'.mTimer == Some(client.lock.timer) && client'.lock == Free
    && s'.delegates == s.delegates && s'.queue == s.queue && s'.sw == s.sw && s'.hw == s.hw && s'.task == s.task
  }

  lemma StartDoneDelegate(s: State, s': State, c: ClientId, d: Delegate)
    requires StartDone(s, s', c) && DelegateOk(s, d)
    ensures DelegateOk(s', d)
  {
    assert PlaceOf(s', d) == PlaceOf(s, d);
  }

  lemma StartDoneClients(s: State, s': State, c: ClientId)
    requires ClientsOk(s) && StartDone(s, s', c)
    ensures ClientsOk(s')
  {
    forall b ensures ClientOk(s', b) {
      assert ClientOk(s, b) && ClientOk(s, c);
    }
  }

  lemma LifeStartDone(s: State, s': State, c: ClientId)
    requires LifeInv(s) && StartDone(s, s', c)
    ensures LifeInv(s')
  {
    forall a ensures AccountOk(s', a) {
      assert AccountOk(s, a);
      if a in s.delegates {
        StartDoneDelegate(s, s', c, s.delegates[a]);
      }
    }
    StartDoneClients(s, s', c);
    HeapsStayKnown(s, s');
    QueueStaysKnown(s, s');
  }

  lemma LifeStartEnd(s: State, c: ClientId)
    requires LifeInv(s) && Enabled(s, StartEnd(c))
    ensures LifeInv(Next(s, StartEnd(c)))
  {
    assert ClientOk(s, c);
    LifeStartDone(s, Next(s, StartEnd(c)), c);
  }

  // ----- stopping -----

  /** The client's fields and its timer's are cleared and the lock is held. */
  ghost predicate Cleared(s: State, s': State, d: Delegate, byTask: bool) {
    var client, client' := s.ClientAt(d.owner), s'.ClientAt(d.owner);
    && client.alive && client.mTimer == Some(d.timer) && d.owner in s.clients
    && d.timer.addr in s.delegates && s.delegates[d.timer.addr] == d
    && s'.delegates == s.delegates[d.timer.addr := d.(mClient := false, mContainer := false)]
    && s'.queue == s.queue && s'.sw == s.sw && s'.hw == s.hw
    && s'.clients == s.clients[d.owner := client']
    && client'.alive && client'.mTimer == None && client'.lock == Stopping(d.timer, d.mContainer, byTask)
    && (if byTask then s.task.ToStop? && s.task.client == d.owner
      && s'.task == InStop(s.task.which, s.task.now, d.owner)
        else s'.task == s.task)
  }

  lemma ClearedOthers(s: State, s': State, d: Delegate, byTask: bool, e: Delegate)
    requires ClientOk(s, d.owner) && DelegateOk(s, e) && Cleared(s, s', d, byTask) && e.timer != d.timer
    ensures DelegateOk(s', e)
  {
    assert PlaceOf(s', e) == PlaceOf(s, e).(inHand := PlaceOf(s', e).inHand, popped := Popped(s', e));
    if byTask && e.owner == d.owner {
      assert !Owned(s, e);
    }
  }

  lemma ClearedSelf(s: State, s': State, d: Delegate, byTask: bool)
    requires ClientOk(s, d.owner) && DelegateOk(s, d) && Cleared(s, s', d, byTask)
    ensures DelegateOk(s', d.(mClient := false, mContainer := false))
  {
    assert Owned(s, d);
    var d' := d.(mClient := false, mContainer := false);
    assert PlaceOf(s', d')
      == PlaceOf(s, d).(owned := false, beingStopped := true, inHand := PlaceOf(s', d').inHand,
        popped := Popped(s', d'));
  }

  lemma ClearedClients(s: State, s': State, d: Delegate, byTask: bool)
    requires ClientsOk(s) && Cleared(s, s', d, byTask) && d.mContainer
    ensures ClientsOk(s')
  {
    forall c ensures ClientOk(s', c) {
      assert ClientOk(s, c) && ClientOk(s, d.owner);
    }
  }

  lemma ClearedDelegates(s: State, s': State, d: Delegate, byTask: bool)
    requires DelegatesOk(s) && ClientOk(s, d.owner) && Cleared(s, s', d, byTask)
    ensures DelegatesOk(s')
  {
    assert AccountOk(s, d.timer.addr);
    forall a ensures AccountOk(s', a) {
      assert AccountOk(s, a);
      if a == d.timer.addr {
        ClearedSelf(s, s', d, byTask);
      } else if a in s.delegates {
        ClearedOthers(s, s', d, byTask, s.delegates[a]);
      }
    }
  }

  lemma LifeCleared(s: State, s': State, d: Delegate, byTask: bool)
    requires LifeInv(s) && Cleared(s, s', d, byTask)
    ensures LifeInv(s')
  {
    UpdateKeepsIdentities(s, s', d.(mClient := false, mContainer := false));
    assert ClientOk(s, d.owner) && AccountOk(s, d.timer.addr) && Owned(s, d);
    ClearedDelegates(s, s', d, byTask);
    ClearedClients(s, s', d, byTask);
    HeapsStayKnown(s, s');
    QueueStaysKnown(s, s');
  }

  /** The removal is in the queue and the lock is free again. */
  ghost predicate Released(s: State, s': State, d: Delegate) {
    var client, client' := s.ClientAt(d.owner), s'.ClientAt(d.owner);
    && client.lock.Stopping? && client.lock.timer == d.timer && client.lock.container && d.owner in s.clients
    && d.timer.addr in s.delegates && s.delegates[d.timer.addr] == d && s'.delegates == s.delegates
    && s'.queue == s.queue + [RemoveMsg(d.which, d.timer)] && s'.sw == s.sw && s'.hw == s.hw
    && s'.clients == s.clients[d.owner := client'] && client' == client.(lock := Free)
    && (if client.lock.byTask then s.task.InStop? && s'.task == ToCall(s.task.which, s.task.now, d.owner)
        else s'.task == s.task)
  }

  lemma ReleasedDelegate(s: State, s': State, d: Delegate, e: Delegate)
    requires Released(s, s', d) && DelegateOk(s, e) && (e == d || e.timer != d.timer)
    ensures DelegateOk(s', e)
  {
    var msg := RemoveMsg(d.which, d.timer);
    assert s'.queue[|s.queue|] == msg;
    assert forall m :: m in s'.queue <==> m in s.queue || m == msg;
    if e == d {
      assert PlaceOf(s', e) == PlaceOf(s, e).(beingStopped := false, toRemove := true);
    } else {
      assert PlaceOf(s', e) == PlaceOf(s, e);
    }
  }

  lemma ReleasedClients(s: State, s': State, d: Delegate)
    requires ClientsOk(s) && Released(s, s', d)
    ensures ClientsOk(s')
  {
    forall c ensures ClientOk(s', c) {
      assert ClientOk(s, c) && ClientOk(s, d.owner);
    }
  }

  lemma ReleasedDelegates(s: State, s': State, d: Delegate)
    requires DelegatesOk(s) && Released(s, s', d)
    ensures DelegatesOk(s')
  {
    forall a ensures AccountOk(s', a) {
      assert AccountOk(s, a);
      if a in s.delegates {
        ReleasedDelegate(s, s', d, s.delegates[a]);
      }
    }
  }

  lemma LifeReleased(s: State, s': State, d: Delegate)
    requires LifeInv(s) && Released(s, s', d)
    ensures LifeInv(s')
  {
    assert ClientOk(s, d.owner) && AccountOk(s, d.timer.addr) && BeingStopped(s, d);
    SendKeepsQueueOk(s.queue, RemoveMsg(d.which, d.timer));
    ReleasedDelegates(s, s', d);
    ReleasedClients(s, s', d);
    HeapsStayKnown(s, s');
    QueueStaysKnown(s, s');
  }

  // ----- the message task -----

  ghost predicate SameClient(a: Client, b: Client) {
    a.alive == b.alive && a.mTimer == b.mTimer && a.lock == b.lock
  }

  /** Clients are left alone and the task uses none of them. */
  lemma ClientsStayOk(s: State, s': State)
    requires ClientsOk(s) && SameIdentities(s, s')
    requires forall c :: SameClient(s.ClientAt(c), s'.ClientAt(c))
    requires !s.task.InStop? && !s'.task.ToStop? && !s'.task.InStop? && !s'.task.ToCall?
    ensures ClientsOk(s')
  {
    forall c ensures ClientOk(s', c) {
      assert ClientOk(s, c) && SameClient(s.ClientAt(c), s'.ClientAt(c));
    }
  }

  lemma ReceiveKeepsQueueOk(q: seq<Msg>)
    requires QueueOk(q) && q != []
    ensures QueueOk(q[1..])
    ensures forall m: Msg :: !m.ExpireMsg? ==> (m in q[1..] <==> m in q && m != q[0])
    ensures q[0].RemoveMsg? ==> PushMsg(q[0].which, q[0].timer) !in q
  {
    forall m: Msg | !m.ExpireMsg? ensures m in q[1..] <==> m in q && m != q[0] {
      if m in q && m != q[0] {
        var k :| 0 <= k < |q| && q[k] == m;
        assert q[1..][k - 1] == m;
      }
    }
  }

  /** The container of `d` has `bag` in its heap now; the other one is as it was. */
  ghost predicate HeapNow(s: State, s': State, w: Which, bag: multiset<Timer>) {
    && HeapOk(s'.At(w).tree) && Bag(s'.At(w).tree) == bag
    && s'.At(if w == Sw then Hw else Sw).tree == s.At(if w == Sw then Hw else Sw).tree
  }

  lemma HeapsKnownAfter(s: State, s': State, w: Which, bag: multiset<Timer>)
    requires HeapKnown(s, Sw) && HeapKnown(s, Hw) && SameIdentities(s, s') && HeapNow(s, s', w, bag)
    requires forall t :: t in bag ==> bag[t] == 1 && (t in Bag(s.At(w).tree) || Known(s', w, t))
    ensures HeapKnown(s', Sw) && HeapKnown(s', Hw)
  {
    var v := if w == Sw then Hw else Sw;
    forall t | t in Bag(s'.At(v).tree) ensures Known(s', v, t) {
      assert Known(s, v, t);
    }
    forall t | t in Bag(s'.At(w).tree) ensures Known(s', w, t) {
      if t in Bag(s.At(w).tree) {
        assert Known(s, w, t);
      }
    }
    assert HeapKnown(s', v) && HeapKnown(s', w);
  }

  lemma HeapsKnownAfterPush(s: State, s': State, d: Delegate)
    requires HeapKnown(s, Sw) && HeapKnown(s, Hw) && SameIdentities(s, s')
    requires HeapNow(s, s', d.which, Bag(s.At(d.which).tree) + multiset{d.timer})
    requires !InHeap(s, d) && Known(s', d.which, d.timer)
    ensures HeapKnown(s', Sw) && HeapKnown(s', Hw)
  {
    var before := Bag(s.At(d.which).tree);
    assert HeapKnown(s, d.which);
    forall t | t in before + multiset{d.timer}
      ensures (before + multiset{d.timer})[t] == 1 && (t in before || Known(s', d.which, t))
    {
      assert t != d.timer ==> t in before;
    }
    HeapsKnownAfter(s, s', d.which, before + multiset{d.timer});
  }

  lemma HeapsKnownAfterTake(s: State, s': State, d: Delegate)
    requires HeapKnown(s, Sw) && HeapKnown(s, Hw) && SameIdentities(s, s')
    requires HeapNow(s, s', d.which, Bag(s.At(d.which).tree) - multiset{d.timer})
    ensures HeapKnown(s', Sw) && HeapKnown(s', Hw)
  {
    var before := Bag(s.At(d.which).tree);
    assert HeapKnown(s, d.which);
    forall t | t in before - multiset{d.timer} ensures (before - multiset{d.timer})[t] == 1 && t in before {}
    HeapsKnownAfter(s, s', d.which, before - multiset{d.timer});
  }

  lemma InHeapAfter(s: State, s': State, w: Which, bag: multiset<Timer>, e: Delegate)
    requires HeapNow(s, s', w, bag)
    ensures InHeap(s', e) == if e.which == w then e.timer in bag else InHeap(s, e)
  {}

  lemma InHeapAfterTake(s: State, s': State, d: Delegate, e: Delegate)
    requires HeapNow(s, s', d.which, Bag(s.At(d.which).tree) - multiset{d.timer})
      && Bag(s.At(d.which).tree)[d.timer] <= 1
    ensures InHeap(s', e) == (InHeap(s, e) && (e.which != d.which || e.timer != d.timer))
  {
    InHeapAfter(s, s', d.which, Bag(s.At(d.which).tree) - multiset{d.timer}, e);
  }

  lemma InHeapAfterPush(s: State, s': State, d: Delegate, e: Delegate)
    requires HeapNow(s, s', d.which, Bag(s.At(d.which).tree) + multiset{d.timer})
    ensures InHeap(s', e) == (InHeap(s, e) || (e.which == d.which && e.timer == d.timer))
  {
    InHeapAfter(s, s', d.which, Bag(s.At(d.which).tree) + multiset{d.timer}, e);
  }

  ghost predicate NothingDoomed(task: Task) {
    task == Idle || (task.Adding? && task.doomed == None)
  }

  /** A push message has been handled, as far as the heap goes. */
  ghost predicate Pushed(s: State, s': State, d: Delegate) {
    && s.task == Idle && NothingDoomed(s'.task) && s'.clients == s.clients
    && s.queue != [] && s.queue[0] == PushMsg(d.which, d.timer) && s'.queue == s.queue[1..]
    && d.timer.addr in s.delegates && s.delegates[d.timer.addr] == d
    && s'.delegates == s.delegates[d.timer.addr := d.(pushes := d.pushes + 1)]
    && HeapNow(s, s', d.which, Bag(s.At(d.which).tree) + multiset{d.timer})
  }

  lemma PushedDelegate(s: State, s': State, d: Delegate, e: Delegate)
    requires Pushed(s, s', d) && DelegateOk(s, e) && (e == d || e.timer != d.timer)
    requires QueueOk(s.queue)
    ensures DelegateOk(s', if e == d then d.(pushes := d.pushes + 1) else e)
  {
    ReceiveKeepsQueueOk(s.queue);
    InHeapAfterPush(s, s', d, e);
    if e == d {
      assert PlaceOf(s', d.(pushes := d.pushes + 1)) == PlaceOf(s, d).(toPush := false, inHeap := true);
    } else {
      assert PlaceOf(s', e) == PlaceOf(s, e);
    }
  }

  lemma PushedDelegates(s: State, s': State, d: Delegate)
    requires DelegatesOk(s) && QueueOk(s.queue) && Pushed(s, s', d)
    ensures DelegatesOk(s')
  {
    forall a ensures AccountOk(s', a) {
      assert AccountOk(s, a);
      if a in s.delegates {
        PushedDelegate(s, s', d, s.delegates[a]);
      }
    }
  }

  lemma PushedClients(s: State, s': State, d: Delegate)
    requires ClientsOk(s) && Pushed(s, s', d)
    ensures ClientsOk(s')
  {
    UpdateKeepsIdentities(s, s', d.(pushes := d.pushes + 1));
    ClientsStayOk(s, s');
  }

  lemma PushedRest(s: State, s': State, d: Delegate)
    requires AllKnown(s) && DelegateOk(s, d) && Pushed(s, s', d)
    ensures AllKnown(s')
  {
    UpdateKeepsIdentities(s, s', d.(pushes := d.pushes + 1));
    ReceiveKeepsQueueOk(s.queue);
    assert ToPush(s, d);
    HeapsKnownAfterPush(s, s', d);
    QueueStaysKnown(s, s');
  }

  lemma LifePushed(s: State, s': State, d: Delegate)
    requires LifeInv(s) && Pushed(s, s', d)
    ensures LifeInv(s')
  {
    assert AccountOk(s, d.timer.addr);
    PushedDelegates(s, s', d);
    PushedClients(s, s', d);
    PushedRest(s, s', d);
  }

  /** A remove message has been handled, as far as the heap goes; the delegate is still to be deleted. */
  ghost predicate Removed(s: State, s': State, d: Delegate) {
    && s.task == Idle && s'.task.Adding? && s'.task.doomed == Some(d.timer) && s'.task.which == d.which
    && s.queue != [] && s.queue[0] == RemoveMsg(d.which, d.timer) && s'.queue == s.queue[1..]
    && d.timer.addr in s.delegates && s.delegates[d.timer.addr] == d
    && s'.delegates == s.delegates && s'.clients == s.clients
    && HeapNow(s, s', d.which, Bag(s.At(d.which).tree) - multiset{d.timer})
  }

  lemma RemovedDelegate(s: State, s': State, d: Delegate, e: Delegate)
    requires Removed(s, s', d) && DelegateOk(s, e) && (e == d || e.timer != d.timer)
    requires QueueOk(s.queue)
    requires Bag(s.At(d.which).tree)[d.timer] <= 1
    ensures DelegateOk(s', e)
  {
    ReceiveKeepsQueueOk(s.queue);
    InHeapAfterTake(s, s', d, e);
    if e == d {
      assert PlaceOf(s', d) == PlaceOf(s, d).(toRemove := false, inHeap := false, doomed := true);
    } else {
      assert PlaceOf(s', e) == PlaceOf(s, e);
    }
  }

  lemma RemovedDelegates(s: State, s': State, d: Delegate)
    requires DelegatesOk(s) && AllKnown(s) && Removed(s, s', d)
    ensures DelegatesOk(s')
  {
    forall a ensures AccountOk(s', a) {
      assert AccountOk(s, a);
      if a in s.delegates {
        RemovedDelegate(s, s', d, s.delegates[a]);
      }
    }
  }

  lemma RemovedClients(s: State, s': State, d: Delegate)
    requires ClientsOk(s) && Removed(s, s', d)
    ensures ClientsOk(s')
  {
    ClientsStayOk(s, s');
  }

  lemma RemovedRest(s: State, s': State, d: Delegate)
    requires AllKnown(s) && DelegateOk(s, d) && Removed(s, s', d)
    ensures AllKnown(s')
  {
    ReceiveKeepsQueueOk(s.queue);
    assert ToRemove(s, d);
    HeapsKnownAfterTake(s, s', d);
    QueueStaysKnown(s, s');
  }

  lemma LifeRemoved(s: State, s': State, d: Delegate)
    requires LifeInv(s) && Removed(s, s', d)
    ensures LifeInv(s')
  {
    assert AccountOk(s, d.timer.addr);
    RemovedDelegates(s, s', d);
    RemovedClients(s, s', d);
    RemovedRest(s, s', d);
  }

  /** The delegate a remove message was about is deleted, and the message is over. */
  ghost predicate Deleted(s: State, s': State, d: Delegate) {
    && (s.task.Adding? || s.task.Setting?) && s.task.doomed == Some(d.timer) && s'.task == Idle
    && d.timer.addr in s.delegates && s.delegates[d.timer.addr] == d && d.owner in s.clients
    && s'.delegates == s.delegates[d.timer.addr := d.(deletes := d.deletes + 1)]
    && s'.queue == s.queue && s'.sw.tree == s.sw.tree && s'.hw.tree == s.hw.tree
    && s'.clients == s.clients[d.owner := Drop(s.clients[d.owner])]
  }

  lemma DeletedDelegate(s: State, s': State, d: Delegate, e: Delegate)
    requires Deleted(s, s', d) && DelegateOk(s, e) && (e == d || e.timer != d.timer)
    ensures DelegateOk(s', if e == d then d.(deletes := d.deletes + 1) else e)
  {
    if e == d {
      assert PlaceOf(s', d.(deletes := d.deletes + 1)) == PlaceOf(s, d).(doomed := false);
    } else {
      assert PlaceOf(s', e) == PlaceOf(s, e);
    }
  }

  lemma DeletedDelegates(s: State, s': State, d: Delegate)
    requires DelegatesOk(s) && Deleted(s, s', d)
    ensures DelegatesOk(s')
  {
    forall a ensures AccountOk(s', a) {
      assert AccountOk(s, a);
      if a in s.delegates {
        DeletedDelegate(s, s', d, s.delegates[a]);
      }
    }
  }

  lemma DeletedClients(s: State, s': State, d: Delegate)
    requires ClientsOk(s) && Deleted(s, s', d)
    ensures ClientsOk(s')
  {
    UpdateKeepsIdentities(s, s', d.(deletes := d.deletes + 1));
    ClientsStayOk(s, s');
  }

  lemma DeletedRest(s: State, s': State, d: Delegate)
    requires AllKnown(s) && DelegateOk(s, d) && Deleted(s, s', d)
    ensures AllKnown(s')
  {
    UpdateKeepsIdentities(s, s', d.(deletes := d.deletes + 1));
    HeapsStayKnown(s, s');
    QueueStaysKnown(s, s');
  }

  lemma LifeDeleted(s: State, s': State, d: Delegate)
    requires LifeInv(s) && Deleted(s, s', d)
    ensures LifeInv(s')
  {
    assert AccountOk(s, d.timer.addr);
    DeletedDelegates(s, s', d);
    DeletedClients(s, s', d);
    DeletedRest(s, s', d);
  }

  /** The top of a heap is out, and the task is about to expire it; an expire message may have been taken as well. */
  ghost predicate PoppedNow(s: State, s': State, d: Delegate) {
    && (s.task == Idle || s.task.Draining?) && s'.task.Expiring? && s'.task.timer == d.timer && s'.task.which == d.which
    && (s'.queue == s.queue || (s.queue != [] && s.queue[0].ExpireMsg? && s'.queue == s.queue[1..]))
    && d.timer.addr in s.delegates && s.delegates[d.timer.addr] == d && d.timer in Bag(s.At(d.which).tree)
    && s'.delegates == s.delegates && s'.clients == s.clients
    && HeapNow(s, s', d.which, Bag(s.At(d.which).tree) - multiset{d.timer})
  }

  lemma PoppedQueue(q: seq<Msg>, q': seq<Msg>)
    requires QueueOk(q) && (q' == q || (q != [] && q[0].ExpireMsg? && q' == q[1..]))
    ensures QueueOk(q') && forall m: Msg :: !m.ExpireMsg? ==> (m in q' <==> m in q)
  {
    if q' != q {
      ReceiveKeepsQueueOk(q);
    }
  }

  lemma PoppedPlace(s: State, s': State, d: Delegate, e: Delegate)
    requires (s.task == Idle || s.task.Draining?) && s'.task.Expiring? && s'.task.timer == d.timer
      && s'.clients == s.clients
    requires ToPush(s', e) == ToPush(s, e) && ToRemove(s', e) == ToRemove(s, e)
    ensures PlaceOf(s', e)
      == PlaceOf(s, e).(inHeap := InHeap(s', e), popped := e.timer == d.timer, inHand := e.timer == d.timer)
    ensures !Popped(s, e) && !InHand(s, e)
  {}

  lemma PoppedDelegate(s: State, s': State, d: Delegate, e: Delegate)
    requires PoppedNow(s, s', d) && DelegateOk(s, e) && (e == d || e.timer != d.timer)
    requires QueueOk(s.queue)
    requires Bag(s.At(d.which).tree)[d.timer] <= 1
    ensures DelegateOk(s', e)
  {
    PoppedQueue(s.queue, s'.queue);
    InHeapAfterTake(s, s', d, e);
    PoppedPlace(s, s', d, e);
  }

  lemma PoppedDelegates(s: State, s': State, d: Delegate)
    requires DelegatesOk(s) && AllKnown(s) && PoppedNow(s, s', d)
    ensures DelegatesOk(s')
  {
    forall a ensures AccountOk(s', a) {
      assert AccountOk(s, a);
      if a in s.delegates {
        PoppedDelegate(s, s', d, s.delegates[a]);
      }
    }
  }

  lemma PoppedClients(s: State, s': State, d: Delegate)
    requires ClientsOk(s) && PoppedNow(s, s', d)
    ensures ClientsOk(s')
  {
    ClientsStayOk(s, s');
  }

  lemma PoppedRest(s: State, s': State, d: Delegate)
    requires AllKnown(s) && DelegateOk(s, d) && PoppedNow(s, s', d)
    ensures AllKnown(s')
  {
    PoppedQueue(s.queue, s'.queue);
    HeapsKnownAfterTake(s, s', d);
    QueueStaysKnown(s, s');
  }

  lemma LifePopped(s: State, s': State, d: Delegate)
    requires LifeInv(s) && PoppedNow(s, s', d)
    ensures LifeInv(s')
  {
    assert AccountOk(s, d.timer.addr);
    PoppedDelegates(s, s', d);
    PoppedClients(s, s', d);
    PoppedRest(s, s', d);
  }

  // ----- every step -----

  /** The state in which a push message goes on to the descriptor. */
  ghost function AfterPush(s: State, w: Which, timer: Timer, o: Outcome): State {
    var rest := if s.queue == [] then s else s.(queue := s.queue[1..]);
    var d := s.DelegateAt(timer);
    rest.With(w, s.At(w).(tree := o.tree)).WithDelegate(d.(pushes := d.pushes + 1))
  }

  lemma PushHandled(s: State, w: Which, timer: Timer, o: Outcome)
    requires s.task == Idle && s.queue != [] && s.queue[0] == PushMsg(w, timer) && Known(s, w, timer)
    requires HeapOk(o.tree) && Bag(o.tree) == Bag(s.At(w).tree) + multiset{timer} && !o.action.Disarm?
    ensures Pushed(s, Dispatch(AfterPush(s, w, timer, o), w, o.action, None), s.delegates[timer.addr])
  {}

  lemma ReceivePush(s: State, w: Which, timer: Timer, o: Outcome)
    requires s.task == Idle && s.queue != [] && s.queue[0] == PushMsg(w, timer) && o == OnPush(s.At(w).tree, timer)
    ensures Receive(s) == Dispatch(AfterPush(s, w, timer, o), w, o.action, None)
  {}

  lemma LifeReceivePush(s: State)
    requires LifeInv(s) && s.task == Idle && s.queue != [] && s.queue[0].PushMsg?
    ensures LifeInv(Receive(s))
  {
    var PushMsg(w, timer) := s.queue[0];
    assert Known(s, w, timer) && HeapKnown(s, w);
    var o := OnPush(s.At(w).tree, timer);
    PushFollows(s.At(w).tree, timer);
    ReceivePush(s, w, timer, o);
    PushHandled(s, w, timer, o);
    LifePushed(s, Dispatch(AfterPush(s, w, timer, o), w, o.action, None), s.delegates[timer.addr]);
  }

  /** A remove message up to the point where only the descriptor and the deletion are left. */
  ghost function AfterRemoval(s: State, w: Which, timer: Timer, o: Outcome): State {
    var rest := if s.queue == [] then s else s.(queue := s.queue[1..]);
    rest.With(w, s.At(w).(tree := o.tree))
      .(task := Adding(w, if o.action.Arm? then o.action.due else timer.due, Some(timer)))
  }

  lemma LifeAfterRemoval(s: State, w: Which, timer: Timer, o: Outcome)
    requires LifeInv(s) && s.task == Idle && s.queue != [] && s.queue[0] == RemoveMsg(w, timer)
    requires o == OnRemove(s.At(w).tree, timer)
    ensures LifeInv(AfterRemoval(s, w, timer, o)) && !o.action.Disarm?
  {
    assert Known(s, w, timer) && HeapKnown(s, w);
    RemoveFollows(s.At(w).tree, timer);
    LifeRemoved(s, AfterRemoval(s, w, timer, o), s.delegates[timer.addr]);
  }

  lemma ReceiveRemove(s: State, w: Which, timer: Timer, o: Outcome)
    requires s.task == Idle && s.queue != [] && s.queue[0] == RemoveMsg(w, timer) && o == OnRemove(s.At(w).tree, timer)
    requires !o.action.Disarm?
    ensures var mid := AfterRemoval(s, w, timer, o);
      Receive(s) == if o.action.Keep? then Delete(mid.(task := Idle), timer) else mid
  {}

  lemma LifeReceiveRemove(s: State)
    requires LifeInv(s) && s.task == Idle && s.queue != [] && s.queue[0].RemoveMsg?
    ensures LifeInv(Receive(s))
  {
    var RemoveMsg(w, timer) := s.queue[0];
    var o := OnRemove(s.At(w).tree, timer);
    var mid := AfterRemoval(s, w, timer, o);
    LifeAfterRemoval(s, w, timer, o);
    ReceiveRemove(s, w, timer, o);
    if o.action.Keep? {
      DelegateAtOk(mid, timer);
      LifeDeleted(mid, Receive(s), mid.DelegateAt(timer));
    }
  }

  lemma LifePopToExpire(s: State, s': State, w: Which, now: BootTime)
    requires LifeInv(s) && (s.task == Idle || s.task.Draining?) && s.At(w).tree.Node?
    requires s' == s || (s.queue != [] && s.queue[0].ExpireMsg? && s' == s.(queue := s.queue[1..]))
    ensures LifeInv(PopToExpire(s', w, now))
  {
    var t := s.At(w).tree;
    assert HeapKnown(s, w);
    PopTimer(t);
    assert Known(s, w, t.data);
    LifePopped(s, PopToExpire(s', w, now), s.delegates[t.data.addr]);
  }

  /** The task leaves a message with nothing to delete; descriptors may have changed. */
  lemma LifeLeave(s: State, s': State)
    requires LifeInv(s) && !s.task.Expiring? && !s.task.ToStop? && !s.task.InStop?
    requires (s.task.Adding? || s.task.Setting?) ==> s.task.doomed == None
    requires NothingDoomed(s'.task) && s'.delegates == s.delegates && s'.clients == s.clients
    requires s'.sw.tree == s.sw.tree && s'.hw.tree == s.hw.tree
    requires s'.queue == s.queue || (s.queue != [] && s.queue[0].ExpireMsg? && s'.queue == s.queue[1..])
    ensures LifeInv(s')
  {
    PoppedQueue(s.queue, s'.queue);
    forall c ensures QuietClient(s, s', c) {
      assert ClientOk(s, c);
    }
    QuietClients(s, s');
    QuietStep(s, s');
  }

  lemma LoopOver(s: State, w: Which, action: Action)
    requires !action.Disarm?
    ensures var s' := Dispatch(s, w, action, None);
      && NothingDoomed(s'.task) && s'.delegates == s.delegates && s'.clients == s.clients && s'.queue == s.queue
      && s'.sw == s.sw && s'.hw == s.hw
  {}

  lemma LifeReceive(s: State)
    requires LifeInv(s) && s.task == Idle && s.queue != []
    ensures LifeInv(Receive(s))
  {
    match s.queue[0]
    case PushMsg(_, _) => LifeReceivePush(s);
    case RemoveMsg(_, _) => LifeReceiveRemove(s);
    case ExpireMsg(w) =>
      var rest := s.(queue := s.queue[1..]);
      if s.At(w).tree.Node? {
        LifePopToExpire(s, rest, w, s.clock);
      } else {
        LoopOver(rest, w, Keep);
        LifeLeave(s, Receive(s));
      }
  }

  lemma LifePopNext(s: State)
    requires LifeInv(s) && s.task.Draining?
    ensures LifeInv(Next(s, TaskPopNext))
  {
    var Draining(w, now) := s.task;
    var t := s.At(w).tree;
    if t.Node? && !OutRanks(Timer(0, now), t.data) {
      LifePopToExpire(s, s, w, now);
    } else {
      LoopOver(s, w, UpdateSoonest(None, Top(t)));
      LifeLeave(s, Next(s, TaskPopNext));
    }
  }

  lemma LifeSetTimeKeeping(s: State)
    requires LifeInv(s) && s.task.Setting? && s.task.doomed == None
    ensures LifeInv(Next(s, TaskSetTime))
  {
    LifeLeave(s, Next(s, TaskSetTime));
  }

  lemma DeletesAsTold(s: State, timer: Timer, d: Delegate)
    requires s.task.Setting? && s.task.doomed == Some(timer) && timer.addr in s.delegates
      && s.delegates[timer.addr] == d
    requires d.timer == timer && d.owner in s.clients
    ensures Deleted(s, Next(s, TaskSetTime), d)
  {}

  lemma LifeSetTimeDeleting(s: State)
    requires LifeInv(s) && s.task.Setting? && s.task.doomed != None
    ensures LifeInv(Next(s, TaskSetTime))
  {
    var timer := s.task.doomed.value;
    DelegateAtOk(s, timer);
    DeletesAsTold(s, timer, s.DelegateAt(timer));
    LifeDeleted(s, Next(s, TaskSetTime), s.DelegateAt(timer));
  }

  lemma LifeStopBegin(s: State, c: ClientId, byTask: bool, s': State)
    requires LifeInv(s) && s.ClientAt(c).mTimer != None
    requires byTask ==> s.task.ToStop? && s.task.client == c
    requires s' == if byTask then StopFields(s, c, true).(task := InStop(s.task.which, s.task.now, c))
      else StopFields(s, c, false)
    ensures LifeInv(s')
  {
    assert ClientOk(s, c);
    var timer := s.ClientAt(c).mTimer.value;
    DelegateAtOk(s, timer);
    LifeCleared(s, s', s.DelegateAt(timer), byTask);
  }

  lemma LifeStopEnd(s: State, c: ClientId, s': State)
    requires LifeInv(s) && s.ClientAt(c).lock.Stopping?
    requires s.ClientAt(c).lock.byTask ==> s.task.InStop? && s.task.client == c
    requires s' == if s.ClientAt(c).lock.byTask then StopSend(s, c).(task := ToCall(s.task.which, s.task.now, c))
      else StopSend(s, c)
    ensures LifeInv(s')
  {
    assert ClientOk(s, c);
    var timer := s.ClientAt(c).lock.timer;
    DelegateAtOk(s, timer);
    LifeReleased(s, s', s.DelegateAt(timer));
  }

  lemma LifeClientStep(s: State, step: Step)
    requires LifeInv(s) && Enabled(s, step)
    requires step.StartBegin? || step.StartPush? || step.StartEnd? || step.StopBegin? || step.StopEnd?
    ensures LifeInv(Next(s, step))
  {
    match step
    case StartBegin(c, _, _) => LifeBegan(s, Next(s, step), c);
    case StartPush(c, addr) =>
      assert ClientOk(s, c);
      var Computing(w, due) := s.ClientAt(c).lock;
      LifeStarted(s, Next(s, step), Delegate(Timer(addr, due), c, w, true, true, 0, 0));
    case StartEnd(c) => LifeStartEnd(s, c);
    case StopBegin(c) => LifeStopBegin(s, c, false, Next(s, step));
    case StopEnd(c) => LifeStopEnd(s, c, Next(s, step));
  }

  lemma LifeTaskStop(s: State, step: Step)
    requires LifeInv(s) && Enabled(s, step) && (step == TaskStopBegin || step == TaskStopEnd)
    ensures LifeInv(Next(s, step))
  {
    if step == TaskStopEnd {
      assert ClientOk(s, s.task.client);
      LifeStopEnd(s, s.task.client, Next(s, step));
    } else if s.ClientAt(s.task.client).mTimer == None {
      LifeNothingToStop(s);
    } else {
      LifeStopBegin(s, s.task.client, true, Next(s, step));
    }
  }

  lemma LifeSetTime(s: State)
    requires LifeInv(s) && s.task.Setting?
    ensures LifeInv(Next(s, TaskSetTime))
  {
    if s.task.doomed == None {
      LifeSetTimeKeeping(s);
    } else {
      LifeSetTimeDeleting(s);
    }
  }

  lemma LifePollStep(s: State, step: Step)
    requires LifeInv(s) && Enabled(s, step)
    requires step.PollWake? || step == PollDisarm || step == PollRemove || step == PollSend
    ensures LifeInv(Next(s, step))
  {
    LifePoll(s, Next(s, step));
  }

  lemma LifeStep(s: State, step: Step)
    requires LifeInv(s) && Enabled(s, step)
    ensures LifeInv(Next(s, step))
  {
    match step
    case Tick(to) => LifeTick(s, to);
    case NewClient(c) => LifeNewClient(s, c);
    case Destroy(c) => LifeDestroy(s, c);
    case TaskReceive => LifeReceive(s);
    case TaskPopNext => LifePopNext(s);
    case TaskReadClient => LifeReadClient(s);
    case TaskStopBegin => LifeTaskStop(s, step);
    case TaskStopEnd => LifeTaskStop(s, step);
    case TaskCallback => LifeCallback(s);
    case TaskAddPoll => LifeAddPoll(s);
    case TaskSetTime => LifeSetTime(s);
    case PollWake(_) => LifePollStep(s, step);
    case PollDisarm => LifePollStep(s, step);
    case PollRemove => LifePollStep(s, step);
    case PollSend => LifePollStep(s, step);
    case _ => LifeClientStep(s, step);
  }

  lemma {:induction false} LifeAlways(s: State, steps: seq<Step>)
    requires LifeInv(s) && CanRun(s, steps)
    ensures LifeInv(After(s, steps))
    decreases |steps|
  {
    if steps != [] {
      LifeStep(s, steps[0]);
      LifeAlways(Next(s, steps[0]), steps[1..]);
    }
  }

  // ----- what it means -----

  /** The thread inside `start` or `stop` has the timer in its hands. */
  predicate Holds(lock: Lock, timer: Timer) {
    (lock.Starting? || lock.Stopping?) && lock.timer == timer
  }

  /**
    * In every run a delegate has been put into a heap at most once and deleted at most once, and once it is deleted no
    * heap, queued message, client or step in progress refers to it.
    */
  lemma NoUseAfterDelete(s: State, steps: seq<Step>, a: nat)
    requires Initial(s) && CanRun(s, steps) && a in After(s, steps).delegates
    ensures var s' := After(s, steps);
      var d := s'.delegates[a];
      && d.pushes <= 1 && d.deletes <= 1 && d.timer.addr == a
      && (d.deletes == 1 ==>
          && d.pushes == 1
          && (forall w :: d.timer !in Bag(s'.At(w).tree))
          && (forall w :: PushMsg(w, d.timer) !in s'.queue && RemoveMsg(w, d.timer) !in s'.queue)
          && (forall c :: s'.ClientAt(c).mTimer != Some(d.timer) && !Holds(s'.ClientAt(c).lock, d.timer))
          && !Popped(s', d) && !Doomed(s', d))
  {
    LifeInitially(s);
    LifeAlways(s, steps);
    var s' := After(s, steps);
    var d := s'.delegates[a];
    assert AccountOk(s', a);
    forall w ensures d.timer in Bag(s'.At(w).tree) ==> w == d.which {
      if d.timer in Bag(s'.At(w).tree) {
        assert Known(s', w, d.timer);
      }
    }
    forall w ensures PushMsg(w, d.timer) in s'.queue || RemoveMsg(w, d.timer) in s'.queue ==> w == d.which {
      if PushMsg(w, d.timer) in s'.queue || RemoveMsg(w, d.timer) in s'.queue {
        assert Known(s', w, d.timer);
      }
    }
    forall c ensures s'.ClientAt(c).mTimer == Some(d.timer) || Holds(s'.ClientAt(c).lock, d.timer) ==> c == d.owner {
      assert ClientOk(s', c);
    }
  }

  /** Nobody is inside `start` or `stop`, nothing is queued and the task rests. */
  ghost predicate Quiescent(s: State) {
    s.task == Idle && s.queue == [] && forall c :: s.ClientAt(c).lock == Free
  }

  /**
    * When everything has come to rest, each delegate ever made either runs, is in its heap and exists, or has been
    * deleted, exactly once: no timer is lost and none leaks.
    */
  lemma AtRestRunningOrDeleted(s: State, steps: seq<Step>, a: nat)
    requires Initial(s) && CanRun(s, steps) && a in After(s, steps).delegates && Quiescent(After(s, steps))
    ensures var s' := After(s, steps);
      var d := s'.delegates[a];
      && d.pushes == 1 && (d.deletes == 1 <==> !InHeap(s', d)) && (InHeap(s', d) <==> Owned(s', d))
      && (Owned(s', d) <==> s'.ClientAt(d.owner).mTimer == Some(d.timer))
  {
    LifeInitially(s);
    LifeAlways(s, steps);
    assert AccountOk(After(s, steps), a);
  }

  /** A timer that runs is in its heap, or its push is queued, or the task has just popped it to expire it. */
  lemma RunningTimerIsTracked(s: State, steps: seq<Step>, c: ClientId)
    requires Initial(s) && CanRun(s, steps) && After(s, steps).ClientAt(c).mTimer != None
    ensures var s' := After(s, steps);
      var timer := s'.ClientAt(c).mTimer.value;
      var d := s'.DelegateAt(timer);
      && timer.addr in s'.delegates && d.timer == timer && d.owner == c && d.deletes == 0
      && (InHeap(s', d) || ToPush(s', d) || InHand(s', d))
      && (ToPush(s', d) ==> !InHeap(s', d))
  {
    LifeInitially(s);
    LifeAlways(s, steps);
    var s' := After(s, steps);
    assert ClientOk(s', c);
    DelegateAtOk(s', s'.ClientAt(c).mTimer.value);
  }
}
