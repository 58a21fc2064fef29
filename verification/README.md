# Model of the device tree's GPS timers, AGPS protocol, string converters and sensor reader

A Dafny model of the parts of this device tree that hold real algorithms, and proofs of what they keep.
`dafny verify dfyconfig.toml` checks the whole project.

**The timer service** (`gps/utils`). Client threads start and stop timers; every change of the two timer heaps is a
message to one task; one thread polls the two timer descriptors and turns an expiry into a message.

- `HeapSpec` is the heap as a value, `LocHeap` the heap as linked nodes rewritten in place. Every method of the second has
  exactly the effect of the function of that name in the first. Over any history the heap is a bag that pops a
  highest-ranked element, and a removal that prunes by rank misses nothing. Removal matches by address, as
  `gps/utils/LocHeap.cpp:173` does; the comment at `gps/utils/LocHeap.h:84-85` says by rank.
- `TimerSpec` and `LocTimer` are the ranking of timers by time, one container and the bodies of its three messages.
- `TimerProtocol` is the service as its threads see it, in steps between which any other thread may run. A step is
  something one thread does between two points where shared state is visible: the lock of a client makes the private
  parts of `start` and `stop` atomic, but time can pass between `start`'s reading of the clock and the push it sends,
  and the push can be handled before it returns. `TimerArming` proves that no wakeup is lost, `TimerDrain` that a whole
  drain is not disturbed, `TimerLifetime` that delegates are pushed and deleted once and never used afterwards and that
  no running timer is lost, `TimerCounts` the conservation of starts, stops and callbacks and of the lock's shares,
  `TimerRaces` what the service does *not* promise and when it keeps its word after all; `TimerRuns` has the stretches
  of runs that the runs there are put together from. `TimerEmpty` says what becomes of the descriptor of an empty heap,
  and `TimerProgress` that the service never gets stuck and always comes to rest.

**The AGPS state machine** (`gps/loc_api/libloc_api_50001`). `AgpsSpec` is the protocol on values, `Agps` the object over
the linked list, with its searches and restarting broadcasts, `AgpsProperties` what every run keeps. `AgpsEvents` says of
each event, in every mode, who is told which status, who is listed afterwards and what the mode is then.

**The UTF converters** (`libshims/libcutils`). `UtfSpec` defines encoding, decoding and both length functions on bytes and
units, says in numbers what every byte string and every unit comes to, broken sequences included, and `Utf` has the loops
and buffers. Modified UTF-8 is that of section 4.4.7 of the Java Virtual Machine Specification;
surrogate pairs are those of section 2.1 of RFC 2781.

**The sensor reader** (`sensors/STML0XX`). `RingBuffer` is the circular reader, `SensorSpec` what one unbounded pass over
the input delivers, `AkmSensor` the consumer that can stop inside a sync event. `SensorReadings` says, from the events
alone, what value each field of each reading has and what each sync event delivers.

**The list and the queue** (`gps/utils`). `LinkedList` rewrites links in place, and `ListOwnership` follows the data that
was added with a deallocator. `MsgQueue` is the message queue on the list, with its sleeping receivers and their signals.

## What turned out false

- *A timer is never expired early* is false, in two ways, each with a run from the start. The first pop of an expire
  message is unconditional, and the due timer it was sent for may have been replaced by then: `TimerRaces.ExpiryPopsEarly`.
  And expiring a timer means stopping whatever its client runs by then: `TimerRaces.ExpiryHitsNewTimer`.
  `TimerRaces.StopsPoppedIffClientSet` and `TimerRaces.WhatExpiryStops` say exactly when it is the popped timer that is
  stopped (its delegate's client is still set) and when that one is due (it is not the first popped, or the top was due).
- *An empty heap means a disarmed descriptor* is false: `TimerRaces.EmptyHeapStaysArmed` and
  `TimerRaces.EmptiedByExpiryStaysArmed` are runs that end empty, at rest and armed, emptied by a removal and by an expiry.
  Whatever empties a heap leaves its descriptor as it was, and until the heap is filled again the descriptor is armed exactly
  if it was armed then and the poll thread has not disarmed it since: `TimerEmpty.EmptyHeapArmedIff`.
  `LocTimer.NeverDisarms` shows that the disarming branch is never taken at all.
- *Ranks follow time* is false for times far apart (`TimerSpec.FarRanksFlip`); it holds exactly when the gap in whole
  seconds survives the cut to 32 bits: `TimerSpec.RankIsTimeOrder`.
- *Subscriber IDs are distinct* is false: `AgpsProperties.IdsCanBeShared` is a run that lists two subscribers with one ID.
  They stay distinct exactly as long as no subscription joins a BIT subscriber without an IPv4 address under its ID with
  another IPv6 address: `AgpsProperties.IdsStayDistinctIff`.
- *A subscription is recorded* is false for one that comes back while its own entry waits for the close, as in the run of
  `AgpsProperties.ReturningSubscriberIsLost`; `AgpsProperties.SubscriptionTakesEffect` gives the exact condition.

## Model

| member | source | states |
|---|---|---|
| HeapSpec.PushRefines | gps/utils/LocHeap.cpp:107-124 | pushing adds exactly one element to the bag, keeps sizes exact and order, and changes the top only to an element that outranks it |
| HeapSpec.PopRefines | gps/utils/LocHeap.cpp:134-164 | popping takes out the top, which nothing left behind outranks, and keeps sizes and order |
| HeapSpec.RemoveFindsMembers | gps/utils/LocHeap.cpp:170-193 | the search that prunes by rank finds an address exactly when it is in the heap, for any total ranking |
| HeapSpec.RemoveRefines | gps/utils/LocHeap.cpp:170-193 | a removal takes out one occurrence of the address if there is one and otherwise changes nothing; sizes and order are kept |
| HeapSpec.RemoveElsewhereKeepsTop | gps/utils/LocHeap.cpp:170-193 | only taking out the top itself changes the top |
| HeapSpec.TopIsHighest | gps/utils/LocHeap.h:54-58 | in an ordered heap no element outranks the top |
| HeapSpec.HistoryRefinesBag | gps/utils/LocHeap.cpp:228-267 | over any history of push, pop and remove every size is exact, no child outranks its parent, and each operation does to the elements what it does to a bag |
| HeapSpec.PushKeepsBalance | gps/utils/LocHeap.cpp:113-123 | no node becomes more lopsided by a push than it was, or than one element |
| HeapSpec.PushOnlyHeapIsShallow | gps/utils/LocHeap.cpp:101-124 | a heap built by pushes alone has left minus right size 0 or 1 everywhere and height floor(log2 n) + 1 |
| LocHeap.HeapNode.Push | gps/utils/LocHeap.cpp:107-124 | in place, with only data swapped on the way down, the subtree becomes the one the value-level push gives; the footprint grows by the new node |
| LocHeap.HeapNode.Swap | gps/utils/LocHeap.cpp:87-92 | two nodes exchange their data and no link changes |
| LocHeap.HeapNode.Pop | gps/utils/LocHeap.cpp:134-164 | in place, the popped node carries the old top's data, is cut off with no children, and is out of the tree; the rest is the value-level result; the slot is null exactly if it was the last node |
| LocHeap.HeapNode.Remove | gps/utils/LocHeap.cpp:170-193 | in place, finds and cuts off a node exactly when the value-level removal finds it, and leaves that tree |
| LocHeap.HeapNode.CheckNodes | gps/utils/LocHeap.cpp:197-220 | the self-check answers true exactly for trees with exact sizes and no child that outranks its parent |
| LocHeap.LocHeap.Push | gps/utils/LocHeap.cpp:228-235 | allocates a node and pushes it, or makes it the tree |
| LocHeap.LocHeap.Peek | gps/utils/LocHeap.cpp:237-243 | the top's data, or NULL for an empty heap |
| LocHeap.LocHeap.Pop | gps/utils/LocHeap.cpp:245-254 | returns the top's data and leaves the popped tree; NULL and no change on an empty heap |
| LocHeap.LocHeap.Remove | gps/utils/LocHeap.cpp:256-267 | returns the element asked for exactly if its address was in the heap, NULL otherwise |
| TimerSpec.RankIsTimeOrder | gps/utils/LocTimer.cpp:503-517 | for two second counts, ranks agree with time for all nanosecond parts if and only if the gap keeps its sign in 32 bits |
| TimerSpec.FarRanksFlip | gps/utils/LocTimer.cpp:510 | two times for which the later one outranks the earlier |
| TimerSpec.OutRanksIsEarlier | gps/utils/LocTimer.cpp:503-517 | for boot times, a timer outranks another exactly if it is due earlier in total nanoseconds |
| TimerSpec.TimersRankTotally | gps/utils/LocTimer.cpp:503-517 | the ranking of boot times is a total preorder, as the heap needs |
| TimerSpec.FutureTime | gps/utils/LocTimer.cpp:551-558 | the due time is normalised and is exactly the given number of milliseconds after now |
| TimerSpec.DrainIsExact | gps/utils/LocTimer.cpp:360-374 | one expire message pops in time order, keeps only what is strictly later than now, loses nothing, and pops a timer that is not due exactly if the top was not, and then only that one |
| TimerSpec.PushFollows | gps/utils/LocTimer.cpp:317-321 | after a push the descriptor is set to the new top's time, or left alone with the top unchanged |
| TimerSpec.RemoveFollows | gps/utils/LocTimer.cpp:334-346 | after a removal the descriptor is set to the new top's time, or left alone with the top unchanged or no timer left |
| TimerSpec.ExpireFollows | gps/utils/LocTimer.cpp:360-374 | after an expire message the descriptor is set to the soonest time left, if there is one |
| TimerSpec.PushArmsForSooner | gps/utils/LocTimer.cpp:281-321 | a push sets the descriptor exactly if the heap was empty or the timer is due before its top, and then to its time |
| TimerSpec.RemoveArmsForTop | gps/utils/LocTimer.cpp:334-346 | a removal sets it exactly if it takes out the top and leaves a timer |
| TimerSpec.ExpireArmsIfLeft | gps/utils/LocTimer.cpp:360-374 | an expire message sets it exactly if it leaves a timer |
| LocTimer.TimerContainer.UpdateSoonestTime | gps/utils/LocTimer.cpp:281-306 | polls and sets, disarms, or leaves the descriptor as the prior and the current top decide |
| LocTimer.TimerContainer.PopIfOutRanks | gps/utils/LocTimer.cpp:383-390 | pops the top unless it lies after now: one step of the drain |
| LocTimer.TimerContainer.ProcPush | gps/utils/LocTimer.cpp:317-321 | new heap and descriptor; a descriptor that watched the soonest time still does |
| LocTimer.TimerContainer.ProcRemove | gps/utils/LocTimer.cpp:334-346 | new heap and descriptor; a descriptor that watched the soonest time still does |
| LocTimer.TimerContainer.ProcExpire | gps/utils/LocTimer.cpp:360-374 | the popping loop pops exactly the drain, in order, and leaves the descriptor watching the soonest time whatever it did before |
| LocTimer.NeverDisarms | gps/utils/LocTimer.cpp:289-294 | no message ever takes the branch that removes the poll and disarms |
| LocTimer.LastRemovalLeavesArmed | gps/utils/LocTimer.cpp:339-343 | a removal that leaves any heap empty leaves the descriptor as it was |
| TimerArming.NoLostWakeup | gps/utils/LocTimer.cpp:281-381 | in every run, between messages, a heap with a timer has its descriptor polled and set to exactly the soonest time, or an expire message for it is queued or about to be |
| TimerArming.DueTimerWakesPoll | gps/utils/LocTimer.cpp:446-470 | in every run, when nothing is queued or in progress and a timer is due, the poll thread can wake for its container |
| TimerArming.ArmDescriptor | gps/utils/LocTimer.cpp:296-304 | polling before setting the time keeps the invariant, whatever the poll thread does in between |
| TimerArming.ArmPoll | gps/utils/LocTimer.cpp:377-380 | the poll thread disarms and unpolls only what it is about to send an expire message for |
| TimerDrain.DrainIsUndisturbed | gps/utils/LocTimer.cpp:360-374 | from the handling of an expire message to the end of its loop, whatever other threads do in between, the timers popped are in order exactly those of the undisturbed drain at the time it read, and what is left is what that leaves |
| TimerDrain.LoopStep | gps/utils/LocTimer.cpp:367-373 | one step of any thread: only the next pop changes the heap, it takes the first timer that was to come, and the loop ends when none is |
| TimerDrain.DrainBegins | gps/utils/LocTimer.cpp:363-368 | the first pop of an expire message is the first of the whole drain |
| TimerLifetime.NoUseAfterDelete | gps/utils/LocTimer.cpp:310-350 | in every run a delegate is pushed at most once and deleted at most once, only after its push, and then no heap, queued message, client, thread inside start or stop, or step in progress refers to it |
| TimerLifetime.AtRestRunningOrDeleted | gps/utils/LocTimer.cpp:484-501 | when all is at rest every delegate ever made has been pushed once and either runs, is in its heap and exists, or has been deleted exactly once |
| TimerLifetime.RunningTimerIsTracked | gps/utils/LocTimer.cpp:547-565 | in every run a client's running timer exists, is its own, and is in its heap, or its push is queued, or the task has it in hand |
| TimerLifetime.LifeStep | gps/utils/LocTimer.cpp:475-580 | every step of every thread keeps the account of where each delegate is |
| TimerCounts.StartsStopsAndCallbacks | gps/utils/LocTimer.cpp:520-580 | in every run starts equal stops by the client and on expiry plus one if running, and stops on expiry equal callbacks plus one if a callback is owed; so at most one callback per start |
| TimerCounts.LockIsSharedExactly | gps/utils/LocSharedLock.h:48-52 | in every run the count is the client, while it exists, plus its existing delegates; the lock is deleted exactly when both are gone and never while held or used |
| TimerRaces.StopsPoppedIffClientSet | gps/utils/LocTimer.cpp:520-532 | in every run, about to stop a client on expiry, the task stops the timer it popped if and only if that delegate's client is still set |
| TimerRaces.WhatExpiryStops | gps/utils/LocTimer.cpp:360-374 | in every run what an expire message stops is the timer it popped last, due exactly if not the first popped or the top was due, or, with the client cleared, a newer timer that is never overdue |
| TimerRaces.ExpiryHitsNewTimer | gps/utils/LocTimer.cpp:520-532 | from every initial state a run in which a due timer is popped and its client replaces it, so that what the task stops and calls back for next is the new timer, which is not due |
| TimerRaces.ExpiryPopsEarly | gps/utils/LocTimer.cpp:367-373 | from every initial state a run in which an expire message meets, pops and is about to stop a timer that is not due, the due one having been replaced just before the message was queued |
| TimerRaces.LastRemovalKeepsDescriptor | gps/utils/LocTimer.cpp:339-343 | in every run the removal of the last timer leaves the descriptor as it was: armed for the timer taken out, unless an expiry is on its way |
| TimerRaces.EmptyHeapStaysArmed | gps/utils/LocTimer.cpp:281-306 | from every initial state a run that ends at rest with an empty heap, nothing on its way, and the descriptor polled and armed |
| TimerRaces.EmptiedByExpiryStaysArmed | gps/utils/LocTimer.cpp:360-374 | from every initial state a run to an expire message that takes the only timer out, and from there to rest with the heap empty, nothing on its way, and the descriptor polled and armed |
| TimerEmpty.EmptyingKeepsDescriptor | gps/utils/LocTimer.cpp:281-306 | any step that takes the last timer out of a heap leaves its descriptor as it was |
| TimerEmpty.EmptyHeapArmedIff | gps/utils/LocTimer.cpp:281-381 | in every run that ends with a heap empty, its descriptor is armed if and only if it was armed when the heap was last emptied, by whatever step, and the poll thread has not disarmed it since; polled likewise; neither if it was never filled |
| TimerProgress.NoDeadlock | gps/utils/LocTimer.cpp:281-381 | after every run, unless all is at rest, a thread inside start or stop, the message task or the poll thread can go on |
| TimerProgress.MustComeToRest | gps/utils/LocTimer.cpp:281-470 | after every run the threads' own steps, wakeups included, are bounded by a number read off the state, however they interleave; and where no more is possible all is at rest and no timer in a heap or running is due |
| TimerProgress.CanComeToRest | gps/utils/LocTimer.cpp:281-470 | so from the end of every run such a state is reached, with the clock standing still |
| AgpsSpec.First | gps/utils/linked_list.c:285-324 | the index found is the first the target selects, or the length if there is none |
| Agps.AgpsStateMachine.SearchAndDelete | gps/loc_api/libloc_api_50001/loc_eng_agps.cpp:69-81 | tells and takes out the first subscriber reached, and nobody else; false exactly if nobody is reached |
| Agps.AgpsStateMachine.NotifySubscribers | gps/loc_api/libloc_api_50001/loc_eng_agps.cpp:715-736 | the restarting loop ends, tells everyone reached once in list order, and deletes them and nobody else if told to |
| Agps.AgpsStateMachine.AddSubscriber | gps/loc_api/libloc_api_50001/loc_eng_agps.cpp:738-748 | adds a fresh copy at the head unless a listed subscriber says it is the same |
| Agps.AgpsStateMachine.SendRsrcRequest | gps/loc_api/libloc_api_50001/loc_eng_agps.cpp:750-777 | sends a request only with an active subscriber and a release only without one |
| Agps.AgpsStateMachine.SubscribeRsrc | gps/loc_api/libloc_api_50001/loc_eng_agps.cpp:779-787 | the whole new state after a subscription in each mode, or the denial of a second subscriber |
| Agps.AgpsStateMachine.UnsubscribeRsrc | gps/loc_api/libloc_api_50001/loc_eng_agps.cpp:789-801 | the whole new state after an unsubscription in each mode; true exactly if someone listed matched |
| Agps.AgpsStateMachine.OnRsrcEvent | gps/loc_api/libloc_api_50001/loc_eng_agps.cpp:700-713 | the whole new state after GRANTED, RELEASED or DENIED in each mode, of which the rows of AgpsEvents say who is told what, who stays and what is sent; nothing for other events |
| Agps.AgpsStateMachine.OnClosed | gps/loc_api/libloc_api_50001/loc_eng_agps.cpp:550-568 | Releasing tells and deletes the inactive, and asks again exactly if an active one is left |
| Agps.AgpsStateMachine.HasActiveSubscribers | gps/loc_api/libloc_api_50001/loc_eng_agps.cpp:803-810 | true exactly if someone listed is active |
| Agps.AgpsStateMachine.DropAllSubscribers | gps/loc_api/libloc_api_50001/loc_eng_agps.h:242-243 | the list is empty, and nothing else changes: mode, log and requests stay |
| AgpsProperties.RunAgrees | gps/loc_api/libloc_api_50001/loc_eng_agps.cpp:258-579 | in every run without a drop: no entry would have been taken for a later one, Released exactly if the list is empty, Pending and Acquired have an active subscriber, Releasing an inactive one |
| AgpsProperties.RunDistinct | gps/loc_api/libloc_api_50001/loc_eng_agps.cpp:738-748 | in every run, drops included, no entry would have been taken for one that joined after it |
| AgpsProperties.UnsubscribeAgrees | gps/loc_api/libloc_api_50001/loc_eng_agps.cpp:531-548 | an unsubscription keeps all that; in Releasing it never empties the list, so the way back to Released there is never taken |
| AgpsProperties.LeavingKeepsInactive | gps/loc_api/libloc_api_50001/loc_eng_agps.cpp:789-801 | one that leaves at once never takes an inactive subscriber with it, although matching is by ID across kinds |
| AgpsProperties.SharedIdsAreAddresslessBits | gps/loc_api/libloc_api_50001/loc_eng_agps.cpp:106-113 | in every run, drops included, two entries share an ID only if the older is a BIT subscriber without IPv4 address and with another IPv6 address |
| AgpsProperties.AddKeepsIdsIff | gps/loc_api/libloc_api_50001/loc_eng_agps.cpp:738-748 | with distinct IDs listed, adding a subscriber keeps them distinct if and only if no listed BIT subscriber without IPv4 address has its ID and another IPv6 address |
| AgpsProperties.IdsStayDistinctIff | gps/loc_api/libloc_api_50001/loc_eng_agps.cpp:738-801 | all through any run, drops included, IDs are distinct if and only if no event of it is such a subscription |
| AgpsProperties.IdsCanBeShared | gps/loc_api/libloc_api_50001/loc_eng_agps.cpp:106-113 | a run of two subscriptions that ends with one ID listed twice |
| AgpsProperties.GrantsAreReal | gps/loc_api/libloc_api_50001/loc_eng_agps.cpp:325-579 | in every run, drops included, an active listed subscriber has been told GRANTED since it joined, by what was sent since then, if and only if the machine is Acquired; in Pending and Releasing nobody at all has |
| AgpsProperties.EveryEntryJoined | gps/loc_api/libloc_api_50001/loc_eng_agps.cpp:738-748 | every entry joined in a subscription of that subscriber that matched nobody listed, at the point in the log its record says |
| AgpsProperties.StepSends | gps/loc_api/libloc_api_50001/loc_eng_agps.cpp:757-775 | the guard never holds a request back: each event sends exactly what its change of mode calls for, even after a drop |
| AgpsProperties.RequestsAreConserved | gps/loc_api/libloc_api_50001/loc_eng_agps.cpp:258-579 | in every run, drops included, requests sent equal releases sent plus connections lost plus one while Pending or Acquired |
| AgpsProperties.BroadcastSplits | gps/loc_api/libloc_api_50001/loc_eng_agps.cpp:715-736 | a deleting broadcast splits the list, both parts in the old order: those reached are each told once and gone, nobody else is told anything, and those not reached are what is left |
| AgpsProperties.NobodyLeavesSilently | gps/loc_api/libloc_api_50001/loc_eng_agps.cpp:715-736 | however any run, with drops before or not, goes on without one, everyone who was listed is still listed or has since been told RELEASED, DENIED or, unless a WIFI subscriber, UNSUBSCRIBE |
| AgpsProperties.LeavingSparesWifi | gps/loc_api/libloc_api_50001/loc_eng_agps.cpp:185-193 | the UNSUBSCRIBE of one that leaves at once reaches no WIFI subscriber, which would be deleted without passing it on |
| AgpsProperties.SubscriptionTakesEffect | gps/loc_api/libloc_api_50001/loc_eng_agps.cpp:738-787 | a subscription is stood for by an active entry afterwards if and only if an active one already did, or nobody listed matched it and it was not denied as a second subscriber |
| AgpsProperties.ReturningSubscriberIsLost | gps/loc_api/libloc_api_50001/loc_eng_agps.cpp:738-748 | a run at whose end no active entry stands for the subscriber that subscribed last |
| AgpsEvents.ConnectionLost | gps/loc_api/libloc_api_50001/loc_eng_agps.cpp:473-481 | RELEASED in Acquired, or DENIED in Pending: everybody listed is told exactly that status, once and in list order, nobody is left listed and nothing is sent |
| AgpsEvents.CloseComplete | gps/loc_api/libloc_api_50001/loc_eng_agps.cpp:550-568 | RELEASED or DENIED in Releasing: exactly the inactive are told that status and go; the active stay in order and untold, and if there is one the machine is Pending with one more request sent |
| AgpsEvents.ConnectionGranted | gps/loc_api/libloc_api_50001/loc_eng_agps.cpp:369-377 | GRANTED in Pending: exactly the active are told GRANTED and nobody leaves |
| AgpsEvents.OthersAreIgnored | gps/loc_api/libloc_api_50001/loc_eng_agps.cpp:258-579 | in any mode, an event of the service other than those does nothing at all |
| AgpsEvents.Joins | gps/loc_api/libloc_api_50001/loc_eng_agps.cpp:738-787 | a subscription tells its own subscriber DENIED as a second one or GRANTED in Acquired, and nobody else anything; it joins at the front exactly if it is not denied and nobody listed matches it |
| AgpsEvents.Leaves | gps/loc_api/libloc_api_50001/loc_eng_agps.cpp:341-367 | in any mode but Released, the first listed subscriber that matches is marked to wait if it is a WIFI one and otherwise is told UNSUBSCRIBE and leaves; nobody else is told or leaves, and the mode follows from who is left |
| AgpsEvents.SaysWhatItIs | gps/loc_api/libloc_api_50001/loc_eng_agps.cpp:258-579 | whatever the event, the list and the mode, every status told is the event's own: the one received, UNSUBSCRIBE for a leave, GRANTED or DENIED for a subscription |
| UtfSpec.SeqLengthByLeadingBits | libshims/libcutils/strdup8to16.cpp:30-31 | the shift-and-mask table gives the length the leading bits announce, four for every byte from 0xf0 on |
| UtfSpec.RoundTrip | libshims/libcutils/strdup8to16.cpp:152-178 | decoding what was encoded gives back every sequence of 16-bit units, zeros and unpaired surrogates included |
| UtfSpec.EncodedUnitShape | libshims/libcutils/strdup16to8.cpp:148-161 | the lead byte written announces exactly the bytes written, and none is NUL |
| UtfSpec.EncodedHasNoNul | libshims/libcutils/strdup16to8.cpp:124-135 | an encoded string holds no NUL byte, embedded zeros included |
| UtfSpec.PairIsCodePoint | libshims/libcutils/strdup8to16.cpp:164-169 | a code point from 0x10000 to 0x10fffd becomes a high and a low surrogate that stand for it |
| UtfSpec.CodePointIsPair | libshims/libcutils/strdup8to16.cpp:113-178 | the four bytes of such a code point decode, whatever follows, to exactly the pair that stands for it |
| UtfSpec.BrokenSequence | libshims/libcutils/strdup8to16.cpp:129-141 | if a lead announces more bytes and the string ends, or a byte does not continue it, at position i, the first unit is 0xfffd and decoding goes on at exactly that position |
| UtfSpec.StrayByte | libshims/libcutils/strdup8to16.cpp:113-127 | a continuation byte at the front gives 0xfffd and uses one byte |
| UtfSpec.CompleteSequence | libshims/libcutils/strdup8to16.cpp:129-144 | a complete sequence decodes to the units of the number its bytes stand for and uses exactly the announced bytes |
| UtfSpec.UnitsAreNumbers | libshims/libcutils/strdup8to16.cpp:160-173 | in numbers: a unit up to 0xffff, a surrogate pair up to 0x10fffd, the single unit 0xfffd above |
| UtfSpec.BeginsSomehow | libshims/libcutils/strdup8to16.cpp:113-144 | every byte string begins with a stray byte, a complete sequence, or one broken at a position, so that the three rows above say what any bytes decode to |
| UtfSpec.EncodingIsModifiedUtf8 | libshims/libcutils/strdup16to8.cpp:148-161 | the bytes written for each unit, in numbers, by its range, NUL in two bytes |
| UtfSpec.BufferIsLargeEnough | libshims/libcutils/strdup8to16.cpp:63-100 | for every byte string the length function gives what the decoder writes plus one for each four-byte lead that makes no pair |
| UtfSpec.ShortSequencesAreUnits | libshims/libcutils/strdup8to16.cpp:113-144 | what is not led by a four-byte lead decodes to a single unit |
| UtfSpec.EncodedLengthIsLength | libshims/libcutils/strdup16to8.cpp:89-94 | the counted length is the encoded length, at most three bytes a unit |
| Utf.Strlen8to16 | libshims/libcutils/strdup8to16.cpp:69-100 | the counting loop gives the buffer length of the C string |
| Utf.GetUtf32FromUtf8 | libshims/libcutils/strdup8to16.cpp:113-144 | reads one code point and moves past it, never past the NUL, and stays at the NUL; which code point it is, for complete, broken and stray bytes, the rows of UtfSpec say |
| Utf.Strcpy8to16 | libshims/libcutils/strdup8to16.cpp:152-178 | given a buffer of the counted length, writes exactly the decoded units within it and nothing behind them, for any bytes |
| Utf.Strdup8to16 | libshims/libcutils/strdup8to16.cpp:44-61 | a new buffer with the decoded string; NULL exactly for NULL or a size that cannot be asked for |
| Utf.Strnlen16to8 | libshims/libcutils/strdup16to8.cpp:56-121 | on both paths exactly the smaller of the encoded length and SIZE_MAX - 1 |
| Utf.LengthChecked | libshims/libcutils/strdup16to8.cpp:99-120 | with wrapping additions the slow path still saturates exactly |
| Utf.Strncpy16to8 | libshims/libcutils/strdup16to8.cpp:136-167 | writes exactly the encoded bytes and one NUL, and nothing behind it |
| Utf.Strndup16to8 | libshims/libcutils/strdup16to8.cpp:28-50 | a new C string of exactly the needed size; NULL exactly for NULL or a saturated length |
| Utf.ThereAndBack | libshims/libcutils/strdup8to16.cpp:44-61 | an encoded string in memory, whatever lies behind it, decodes to its units into a buffer of exactly their number |
| RingBuffer.InputEventCircularReader.constructor | sensors/STML0XX/InputEventReader.cpp:36-43 | an empty reader of the given capacity |
| RingBuffer.InputEventCircularReader.UnreadIsSafe | sensors/STML0XX/InputEventReader.cpp:54-67 | no unread event lies where a read may write or where that may be copied down to |
| RingBuffer.InputEventCircularReader.Fill | sensors/STML0XX/InputEventReader.cpp:50-73 | any short read appends its events to the unread ones; an error or a partial event leaves those as they were; all within 2n slots |
| RingBuffer.InputEventCircularReader.ReadEvent | sensors/STML0XX/InputEventReader.cpp:75-80 | available exactly if something is unread, and then the oldest |
| RingBuffer.InputEventCircularReader.Next | sensors/STML0XX/InputEventReader.cpp:82-89 | drops the oldest unread event |
| SensorSpec.FlushOne | sensors/STML0XX/AkmSensor.cpp:267-281 | clearing the lowest pending sensor takes exactly its delivery off the front of what the sync event delivers |
| SensorSpec.PassAppends | sensors/STML0XX/AkmSensor.cpp:260-290 | a pass over two stretches of input is the pass over the first and then over the second |
| SensorSpec.BatchIndependence | sensors/STML0XX/AkmSensor.cpp:248-292 | for any sequence of faithful calls, whatever they ask for and read, all deliveries together are a prefix of what one unbounded pass delivers, and all of it once nothing is unread |
| SensorSpec.ProcessTouchesOneSensor | sensors/STML0XX/AkmSensor.cpp:332-426 | an axis event makes its own sensor pending and leaves every other sensor's flag and reading alone |
| SensorSpec.LatestValueWins | sensors/STML0XX/AkmSensor.cpp:332-426 | of two values of one code only the later counts |
| SensorSpec.BiasIsDistance | sensors/STML0XX/AkmSensor.cpp:374-392 | an uncalibrated axis less its bias is the calibrated axis as last reported, over real numbers |
| SensorSpec.OrderMattersOnlyForBiases | sensors/STML0XX/AkmSensor.cpp:332-426 | events of two different codes can be swapped, whatever the state and the values, if and only if neither gives the other its bias |
| SensorReadings.ReadingsAreLatest | sensors/STML0XX/AkmSensor.cpp:332-426 | after any events, each field of each sensor's reading is the latest value of that field's own code, halved and times the scale as a number, or what it was before; each bias is that axis less the calibrated one as it stood at that event; nothing else changes |
| SensorReadings.SyncDeliversHeardOf | sensors/STML0XX/AkmSensor.cpp:260-290 | over any events, a sync event delivers, once each and lowest first, exactly the enabled sensors one of whose codes has come since the last sync event, with their readings of the moment; no other event delivers anything |
| SensorReadings.UnknownChangesNothing | sensors/STML0XX/AkmSensor.cpp:284-288 | wherever it comes, an event of another type or another axis changes neither readings nor what is pending nor what is delivered |
| AkmSensor.AkmSensor.FlushPending | sensors/STML0XX/AkmSensor.cpp:267-281 | delivers in sensor order until the count is used up; what is left pending is exactly the rest |
| AkmSensor.AkmSensor.ReadEvents | sensors/STML0XX/AkmSensor.cpp:248-292 | one call: the exact error numbers, at most `count` deliveries, and deliveries followed by what is still to come equal the unbounded pass, of which the rows of SensorReadings say what it delivers; fewer than asked only if nothing is unread |
| AkmSensor.AkmSensor.ReadInTurn | sensors/STML0XX/AkmSensor.cpp:248-292 | any sequence of calls, with any counts and whatever the kernel gives or fails with: all they deliver is a prefix of what one unbounded pass over all input taken in delivers, and all of it once nothing is unread; each call gives what it owes |
| LinkedList.List.Add | gps/utils/linked_list.c:110-155 | data goes in front, all links stay consistent; NULL data is refused |
| LinkedList.List.Remove | gps/utils/linked_list.c:162-204 | the last data comes out, all links stay consistent; an empty list says so |
| LinkedList.List.Flush | gps/utils/linked_list.c:230-260 | the list is empty and the owned data has been freed, which ListOwnership.OwnedInOrder gives by position |
| LinkedList.List.Search | gps/utils/linked_list.c:267-327 | the predicate is applied up to the first match only; removal unlinks exactly that element and frees it only if owned and not copied out; an empty list leaves the out-parameter alone |
| LinkedList.List.Locate | gps/utils/linked_list.c:285-324 | the searching loop tries exactly the elements up to the first match, and ends at it or at null |
| ListOwnership.OwnedInOrder | gps/utils/linked_list.c:241-252 | what a flush frees is the data at increasing positions in list order, and a position is among them if and only if its element came with a deallocator |
| ListOwnership.OwnedIsConserved | gps/utils/linked_list.c:110-327 | in every run of additions, removals, searches and flushes, the owned data accepted is what was freed, what was handed out and what is still listed, each once |
| ListOwnership.Perform | gps/utils/linked_list.c:110-327 | each operation of the list itself is one of those steps, and hands out the owned data that step says |
| ListOwnership.PerformAll | gps/utils/linked_list.c:110-327 | so the conservation holds of a list object after any sequence of calls |
| MsgQueue.MsgQ.Snd | gps/utils/msg_q.c:185-221 | accepts a message exactly if it is not NULL and the queue is not unblocked: it goes in front with its deallocator, and one sleeping receiver is woken if there is any |
| MsgQueue.MsgQ.Rcv | gps/utils/msg_q.c:228-269 | one turn of a receiver: unavailable on entry if unblocked; otherwise the oldest message, which leaves one fewer, if there is any; otherwise it waits if not unblocked and is turned away if so. A woken receiver still gets a queued message after an unblock |
| MsgQueue.MsgQ.FlushAll | gps/utils/msg_q.c:276-299 | the queue is empty and owned messages are freed |
| MsgQueue.MsgQ.UnblockAll | gps/utils/msg_q.c:306-336 | the queue is unblocked with its messages kept and every sleeping receiver woken; unavailable the second time |
| MsgQueue.FirstInFirstOut | gps/utils/msg_q.c:185-269 | in every run, flushes included, messages received or flushed, in the order in which they left, followed by the messages queued, are the messages accepted |
| MsgQueue.ReceiverGetsTheOldest | gps/utils/msg_q.c:249-262 | after every run, a receiver that comes to a queue not unblocked, or was woken, with messages queued receives the one accepted first of those and leaves one fewer; nobody else receives any, and one goes to sleep only on an empty queue that is not unblocked |
| MsgQueue.NoSignalIsLost | gps/utils/msg_q.c:204-264 | in every run, while any receiver sleeps, the queue is not unblocked and as many receivers have been woken and are on their way as there are messages queued |
| MsgQueue.UnblockedForGood | gps/utils/msg_q.c:204-264 | after an unblock nothing is accepted any more, nobody sleeps, and every receiver on its way gets away |

## Left out

- timerfd, epoll, pthread and clock calls: they are state (armed time, polled flag, queue, lock) and atomic steps with a clock that only moves forward. A signal wakes one sleeping receiver; that it may wake more is a receiver waking up unasked, which may happen at any time.
- Creation on demand of containers, tasks and threads, and failures to create or allocate them.
- `LocTimerWrapper` and the C entry points. Destroying a `LocTimer` is modelled only where no step in progress of the message task still holds its pointer, which the code leaves to its callers.
- Times outside a boot clock: due times are positive and below 2^31 seconds; a settime of zero, which would disarm, cannot occur then.
- `mSize` is an unbounded integer, since a heap of 2^31 nodes does not fit in memory.
- `LocHeap.HeapNode.Push`: the two branches for an absent child and the size comparison are joined in one condition, which has the same effect.
- `DSStateMachine`, servicers, APN and bearer, addresses sent with a request, and adapter callbacks: the machine keeps a log of notifications and of requests. `sendRsrcRequest` always succeeds there, as in the base class.
- The receiver of a deleting notification is one of the list's own objects, which the loop deletes while it still compares with it; the model compares with a copy. The IPv6 field of a subscriber that is not a BIT one is an arbitrary string.
- A subscriber is a value in its list element, not an object with an address of its own; marking it inactive rewrites the element's data.
- NULL list and queue handles, and `malloc` failures in the list, the queue and the converters.
- Sensor timestamps, single-precision rounding of readings, enabling, delays and the sysfs files. The pending mask is five flags.
- Code that only forwards or wraps: the location engine's messages, the adapters, camera, light, Bluetooth, other shims, the compass daemon and the hub sensors.
