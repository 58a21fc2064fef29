/**
  * The state machine as an object over the linked list: its mode and what it has sent are fields, the subscribers are
  * the elements of the list, which is searched, and a broadcast that deletes restarts its search after every element it
  * takes out.
  */
module Agps {
  import opened Wrappers
  import opened AgpsSpec
  import opened AgpsProperties
  import opened LinkedList

  /** A search tries the elements up to the first one reached, and tells that one only. */
  lemma {:induction false} ReachedUpTo(n: Notification, es: seq<Entry>, k: nat)
    requires IsFirstReached(n, es, k)
    ensures Reached(n, es[..k + 1]) == [Told(es[k].sub, n.status)]
  {
    if k == 0 {
      assert es[..1] == [es[0]] && [es[0]][1..] == [];
    } else {
      ReachedUpTo(n, es[1..], k - 1);
      assert es[..k + 1][1..] == es[1..][..k];
    }
  }

  /** The subscribers that a deleting search is tried on are told as if only the first one reached were there. */
  lemma TriedUpTo(n: Notification, equal: Entry -> bool, es: seq<Entry>, k: nat)
    requires k == FirstEqual(equal, es) && forall e: Entry :: equal(e) <==> Reaches(n, e.sub)
    ensures k < |es| ==> IsFirstReached(n, es, k) && Reached(n, es[..k + 1]) == [Told(es[k].sub, n.status)]
    ensures k == |es| ==> Reached(n, es) == [] && forall i :: 0 <= i < |es| ==> !Reaches(n, es[i].sub)
  {
    if k < |es| {
      ReachedUpTo(n, es, k);
    } else {
      NobodyReached(n, es);
    }
  }

  /** The list's own search for the first element finds what the protocol means by it. */
  lemma {:induction false} FirstIsFirstEqual(target: Target, equal: Entry -> bool, es: seq<Entry>)
    requires forall e: Entry :: equal(e) <==> ForMe(target, e.sub)
    ensures First(target, es) == FirstEqual(equal, es)
  {
    if es != [] {
      FirstIsFirstEqual(target, equal, es[1..]);
    }
  }

  class AgpsStateMachine {
    const mEnforceSingleSubscriber: bool
    const mSubscribers: List<Entry>
    var mode: Mode
    var log: seq<Told>
    var requests: seq<Request>

    ghost predicate Valid()
      reads this, mSubscribers, mSubscribers.spine
    {
      mSubscribers.Valid()
    }

    ghost function Value(): Machine
      reads this, mSubscribers
    {
      Machine(mode, mSubscribers.contents, log, requests)
    }

    constructor (enforceSingleSubscriber: bool)
      ensures Valid() && Value() == START && mEnforceSingleSubscriber == enforceSingleSubscriber
      ensures fresh(mSubscribers) && forall e :: e in mSubscribers.spine ==> fresh(e)
    {
      mEnforceSingleSubscriber := enforceSingleSubscriber;
      mSubscribers := new List();
      mode, log, requests := Released, [], [];
    }

    /** Searches the list for the first subscriber selected, without changing anything. */
    method Search(target: Target) returns (e: Element?<Entry>, ghost k: nat)
      requires Valid()
      ensures k == First(target, mSubscribers.contents) && e == mSubscribers.Node(k)
      ensures e != null ==> e.data == mSubscribers.contents[k]
    {
      var tried;
      var equal := (e: Entry) => ForMe(target, e.sub);
      e, tried, k := mSubscribers.Locate(equal);
      FirstIsFirstEqual(target, equal, mSubscribers.contents);
    }

    method HasActiveSubscribers() returns (b: bool)
      requires Valid()
      ensures b == Has(ToActive, mSubscribers.contents)
    {
      var e, _ := Search(ToActive);
      b := e != null;
    }

    /** What the callback of a search does to the subscribers it is tried on. */
    method Tell(n: Notification, tried: seq<Entry>)
      modifies this`log
      ensures log == old(log) + Reached(n, tried)
    {
      var k := 0;
      while k < |tried|
        invariant k <= |tried|
        invariant old(log) + Reached(n, tried) == log + Reached(n, tried[k..])
      {
        assert tried[k..][1..] == tried[k + 1..];
        if Reaches(n, tried[k].sub) {
          log := log + [Told(tried[k].sub, n.status)];
        }
        k := k + 1;
      }
    }

    /** One deleting search: tells the first subscriber reached, takes it out, and stops. */
    method SearchAndDelete(n: Notification) returns (found: bool, ghost at: nat)
      requires Valid()
      modifies this`log, mSubscribers, mSubscribers.spine
      ensures Valid() && forall e :: e in mSubscribers.spine ==> e in old(mSubscribers.spine)
      ensures var es, es' := old(mSubscribers.contents), mSubscribers.contents;
        if found then
          IsFirstReached(n, es, at) && es' == es[..at] + es[at + 1..] && log == old(log) + [Told(es[at].sub, n.status)]
        else
          es' == es && log == old(log) && forall i :: 0 <= i < |es| ==> !Reaches(n, es[i].sub)
    {
      var equal := (e: Entry) => Reaches(n, e.sub);
      ghost var es := mSubscribers.contents;
      at := FirstEqual(equal, es);
      var err, s, tried := mSubscribers.Search(equal, true, None, true);
      Tell(n, tried);
      found := s != None;
      TriedUpTo(n, equal, es, at);
    }

    /** One search that keeps everybody: the callback never says that it has found its element. */
    method SearchAndTell(n: Notification)
      requires Valid()
      modifies this`log
      ensures log == old(log) + Reached(n, mSubscribers.contents)
    {
      var e, tried, _ := mSubscribers.Locate((e: Entry) => false);
      Tell(n, tried);
    }

    method NotifySubscribers(n: Notification)
      requires Valid()
      modifies this`log, mSubscribers, mSubscribers.spine
      ensures Valid() && forall e :: e in mSubscribers.spine ==> e in old(mSubscribers.spine)
      ensures Value() == Broadcast(old(Value()), n)
    {
      if n.postNotifyDelete {
        var found := true;
        while found
          invariant Valid() && forall e :: e in mSubscribers.spine ==> e in old(mSubscribers.spine)
          invariant old(log) + Reached(n, old(mSubscribers.contents)) == log + Reached(n, mSubscribers.contents)
          invariant Unreached(n, old(mSubscribers.contents)) == Unreached(n, mSubscribers.contents)
          invariant !found ==> forall e :: e in mSubscribers.contents ==> !Reaches(n, e.sub)
          decreases |mSubscribers.contents|, found
        {
          ghost var es, told := mSubscribers.contents, log;
          ghost var k;
          assert forall i :: 0 <= i < |mSubscribers.spine| ==> mSubscribers.spine[i] in mSubscribers.spine;
          found, k := SearchAndDelete(n);
          if found {
            TakeFirstReached(n, es, k);
            assert told + Reached(n, es) == log + Reached(n, mSubscribers.contents);
          }
        }
        NobodyReached(n, mSubscribers.contents);
      } else {
        SearchAndTell(n);
      }
    }

    /** Adds a copy of the subscriber, unless a listed one says it is the same; `joined` only goes on record. */
    method AddSubscriber(s: Subscriber, joined: nat)
      requires Valid()
      modifies mSubscribers, mSubscribers.spine
      ensures Valid() && Value() == Add(old(Value()), s, joined)
    {
      var e, _ := Search(ToOne(s));
      if e == null {
        var err := mSubscribers.Add(Some(Entry(Clone(s), joined)), true);
      }
    }

    method SendRsrcRequest(action: Request)
      requires Valid()
      modifies this`requests
      ensures Value() == Send(old(Value()), action)
    {
      var active := HasActiveSubscribers();
      if !active == (action == ReleaseConn) {
        requests := requests + [action];
      }
    }

    method ReleasedOnSubscribe(s: Subscriber)
      requires Valid() && mode == Released
      modifies this, mSubscribers, mSubscribers.spine
      ensures Valid() && Value() == OnSubscribe(old(Value()), s)
    {
      AddSubscriber(s, |log|);
      SendRsrcRequest(RequestConn);
      mode := Pending;
    }

    method AcquiredOnSubscribe(s: Subscriber)
      requires Valid() && mode == Acquired
      modifies this, mSubscribers, mSubscribers.spine
      ensures Valid() && Value() == OnSubscribe(old(Value()), s)
    {
      var joined := |log|;
      log := log + [Told(s, RsrcGranted)];
      AddSubscriber(s, joined);
    }

    method SubscribeRsrc(s: Subscriber)
      requires Valid()
      modifies this, mSubscribers, mSubscribers.spine
      ensures Valid() && Value() == Step(mEnforceSingleSubscriber, old(Value()), Subscribe(s))
    {
      var empty := mSubscribers.Empty();
      if mEnforceSingleSubscriber && !empty {
        log := log + [Told(s, RsrcDenied)];
      } else {
        match mode
        case Released => ReleasedOnSubscribe(s);
        case Acquired => AcquiredOnSubscribe(s);
        case _ => AddSubscriber(s, |log|);
      }
    }

    /** What Pending, Acquired and Releasing do first with an unsubscription. */
    method LeaveList(e: Element<Entry>, ghost k: nat)
      requires Valid() && k < |mSubscribers.spine| && mSubscribers.spine[k] == e && e.data == mSubscribers.contents[k]
      modifies this`log, mSubscribers, mSubscribers.spine
      ensures Valid() && Value() == Leave(old(Value()), k)
    {
      var s := e.data.sub;
      if WaitsForClose(s) {
        mSubscribers.Amend(e, k, e.data.(sub := SetInactive(s)));
      } else {
        NotifySubscribers(Notification(ToOne(s), RsrcUnsubscribe, true));
      }
    }

    /** Pending and Acquired: give the connection up if nobody active is left. */
    method GiveUpIfUnused()
      requires Valid() && (mode == Pending || mode == Acquired)
      modifies this`mode, this`requests
      ensures var m := old(Value());
        Value() == if m.subs == [] then Send(m, ReleaseConn).(mode := Released)
          else if !Has(ToActive, m.subs) then Send(m, ReleaseConn).(mode := Releasing)
          else m
    {
      var empty := mSubscribers.Empty();
      var active := HasActiveSubscribers();
      if empty {
        mode := Released;
        SendRsrcRequest(ReleaseConn);
      } else if !active {
        mode := Releasing;
        SendRsrcRequest(ReleaseConn);
      }
    }

    method UnsubscribeRsrc(s: Subscriber) returns (found: bool)
      requires Valid()
      modifies this, mSubscribers, mSubscribers.spine
      ensures Valid() && Value() == Step(mEnforceSingleSubscriber, old(Value()), Unsubscribe(s))
      ensures found == Has(ToOne(s), old(mSubscribers.contents))
    {
      var e, k := Search(ToOne(s));
      found := e != null;
      if found {
        match mode {
          case Released => log := log + [Told(e.data.sub, RsrcUnsubscribe)];
          case Releasing =>
            LeaveList(e, k);
            var empty := mSubscribers.Empty();
            if empty {
              mode := Released;
            }
          case _ =>
            LeaveList(e, k);
            GiveUpIfUnused();
        }
      }
    }

    /** Releasing: the close is complete, or was denied. */
    method OnClosed(status: Status)
      requires Valid() && mode == Releasing
      modifies this, mSubscribers, mSubscribers.spine
      ensures Valid() && Value() == Close(old(Value()), status)
    {
      NotifySubscribers(Notification(ToInactive, status, true));
      var active := HasActiveSubscribers();
      if active {
        mode := Pending;
        SendRsrcRequest(RequestConn);
      } else {
        mode := Released;
      }
    }

    method OnRsrcEvent(event: Status)
      requires Valid()
      modifies this, mSubscribers, mSubscribers.spine
      ensures Valid() && Value() == Step(mEnforceSingleSubscriber, old(Value()), Rsrc(event))
    {
      if event == RsrcGranted && mode == Pending {
        NotifySubscribers(Notification(ToActive, RsrcGranted, false));
        mode := Acquired;
      } else if event == RsrcReleased && mode == Acquired {
        NotifySubscribers(Notification(ToAll, RsrcReleased, true));
        mode := Released;
      } else if event == RsrcDenied && mode == Pending {
        NotifySubscribers(Notification(ToAll, RsrcDenied, true));
        mode := Released;
      } else if (event == RsrcReleased || event == RsrcDenied) && mode == Releasing {
        OnClosed(event);
      }
    }

    method DropAllSubscribers()
      requires Valid()
      modifies mSubscribers
      ensures Valid() && Value() == Step(mEnforceSingleSubscriber, old(Value()), DropAll)
    {
      mSubscribers.Flush();
    }
  }
}
