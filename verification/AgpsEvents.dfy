/**
  * What each event does, in every mode: who is told which status, who is listed afterwards and in which order, and what
  * mode the machine is in.  Stated on the list and the log alone, by the kind and the flag of a subscriber.
  */
module AgpsEvents {
  import opened AgpsSpec
  import opened AgpsProperties

  /** The entries that wait for the close, or all the others, in order. */
  function Only(inactive: bool, es: seq<Entry>): seq<Entry> {
    if es == [] then []
    else (if (es[0].sub.kind == Wifi && es[0].sub.inactive) == inactive then [es[0]] else []) + Only(inactive, es[1..])
  }

  lemma {:induction false} BroadcastToAll(status: Status, es: seq<Entry>)
    requires status == RsrcReleased || status == RsrcDenied
    ensures TellsEach(Reached(Notification(ToAll, status, true), es), status, es)
  {
    if es != [] {
      BroadcastToAll(status, es[1..]);
      assert es == [es[0]] + es[1..];
      TellsOneMore(Reached(Notification(ToAll, status, true), es[1..]), status, es[0], es[1..]);
    }
  }

  lemma {:induction false} BroadcastToActive(es: seq<Entry>)
    ensures TellsEach(Reached(Notification(ToActive, RsrcGranted, false), es), RsrcGranted, Only(false, es))
  {
    if es != [] {
      var told := Reached(Notification(ToActive, RsrcGranted, false), es[1..]);
      BroadcastToActive(es[1..]);
      TellsOneMore(told, RsrcGranted, es[0], Only(false, es[1..]));
      assert [] + told == told && [] + Only(false, es[1..]) == Only(false, es[1..]);
    }
  }

  lemma {:induction false} BroadcastToInactive(status: Status, es: seq<Entry>)
    requires status == RsrcReleased || status == RsrcDenied
    ensures TellsEach(Reached(Notification(ToInactive, status, true), es), status, Only(true, es))
    ensures Unreached(Notification(ToInactive, status, true), es) == Only(false, es)
  {
    if es != [] {
      var told := Reached(Notification(ToInactive, status, true), es[1..]);
      BroadcastToInactive(status, es[1..]);
      TellsOneMore(told, status, es[0], Only(true, es[1..]));
      assert [] + told == told && [] + Only(true, es[1..]) == Only(true, es[1..]);
    }
  }

  lemma {:induction false} ActiveIffOnly(es: seq<Entry>)
    ensures Has(ToActive, es) <==> Only(false, es) != []
  {
    if es != [] {
      ActiveIffOnly(es[1..]);
    }
  }

  /** RELEASED in Acquired, or DENIED in Pending: everybody listed is told exactly that, and nobody is left. */
  lemma ConnectionLost(single: bool, m: Machine, status: Status)
    requires (m.mode == Acquired && status == RsrcReleased) || (m.mode == Pending && status == RsrcDenied)
    ensures var m' := Step(single, m, Rsrc(status));
      && m.log <= m'.log && TellsEach(m'.log[|m.log|..], status, m.subs)
      && m'.subs == [] && m'.mode == Released && m'.requests == m.requests
  {
    BroadcastToAll(status, m.subs);
    BroadcastToAllEmpties(m, status);
    var told := Reached(Notification(ToAll, status, true), m.subs);
    assert (m.log + told)[|m.log|..] == told;
  }

  /**
    * RELEASED or DENIED in Releasing: those that wait for the close are told exactly that and leave, all others stay,
    * in order and untold; if there are any, the connection is asked for again.
    */
  lemma CloseComplete(single: bool, m: Machine, status: Status)
    requires m.mode == Releasing && (status == RsrcReleased || status == RsrcDenied)
    ensures var m' := Step(single, m, Rsrc(status));
      && m.log <= m'.log && TellsEach(m'.log[|m.log|..], status, Only(true, m.subs)) && m'.subs == Only(false, m.subs)
      && m'.mode == (if m'.subs == [] then Released else Pending)
      && m'.requests == m.requests + (if m'.subs == [] then [] else [RequestConn])
  {
    var n := Notification(ToInactive, status, true);
    BroadcastToInactive(status, m.subs);
    ClosedBy(m, status, n);
    var told := Reached(n, m.subs);
    assert (m.log + told)[|m.log|..] == told;
  }

  lemma ClosedBy(m: Machine, status: Status, n: Notification)
    requires n == Notification(ToInactive, status, true) && Unreached(n, m.subs) == Only(false, m.subs)
    ensures var m', left := Close(m, status), Only(false, m.subs);
      && m'.log == m.log + Reached(n, m.subs) && m'.subs == left
      && m'.mode == (if left == [] then Released else Pending)
      && m'.requests == m.requests + (if left == [] then [] else [RequestConn])
  {
    OnlyTwice(m.subs);
    ActiveIffOnly(Only(false, m.subs));
    assert m.requests + [] == m.requests;
  }

  lemma {:induction false} OnlyTwice(es: seq<Entry>)
    ensures Only(false, Only(false, es)) == Only(false, es)
  {
    if es != [] {
      OnlyTwice(es[1..]);
      var rest := Only(false, es[1..]);
      assert ([es[0]] + rest)[1..] == rest && [] + rest == rest;
    }
  }

  /** GRANTED in Pending: the active ones are told exactly that, and nobody leaves. */
  lemma ConnectionGranted(single: bool, m: Machine)
    requires m.mode == Pending
    ensures var m' := Step(single, m, Rsrc(RsrcGranted));
      && m.log <= m'.log && TellsEach(m'.log[|m.log|..], RsrcGranted, Only(false, m.subs))
      && m'.subs == m.subs && m'.mode == Acquired && m'.requests == m.requests
  {
    BroadcastToActive(m.subs);
    var told := Reached(Notification(ToActive, RsrcGranted, false), m.subs);
    assert (m.log + told)[|m.log|..] == told;
  }

  predicate Matters(mode: Mode, status: Status) {
    || (status == RsrcGranted && mode == Pending)
    || (status == RsrcReleased && (mode == Acquired || mode == Releasing))
    || (status == RsrcDenied && (mode == Pending || mode == Releasing))
  }

  /** No other event of the service does anything, in any mode. */
  lemma OthersAreIgnored(single: bool, m: Machine, status: Status)
    ensures !Matters(m.mode, status) ==> Step(single, m, Rsrc(status)) == m
  {}

  /** A subscription: one may be denied for being the second, or granted at once; who is new goes to the front. */
  lemma Joins(single: bool, m: Machine, s: Subscriber)
    ensures var m' := Step(single, m, Subscribe(s));
      var denied := single && m.subs != [];
      var listed := exists e :: e in m.subs && Equals(e.sub, s);
      && m'.log == m.log + (if denied then [Told(s, RsrcDenied)]
                            else if m.mode == Acquired then [Told(s, RsrcGranted)] else [])
      && m'.subs == (if denied || listed then m.subs else [Entry(s.(inactive := false), |m.log|)] + m.subs)
      && m'.mode == (if !denied && m.mode == Released then Pending else m.mode)
  {
    var k := First(ToOne(s), m.subs);
    if k < |m.subs| {
      assert m.subs[k] in m.subs && Equals(m.subs[k].sub, s);
    } else {
      forall e | e in m.subs ensures !Equals(e.sub, s) {
        var i :| 0 <= i < |m.subs| && m.subs[i] == e;
        assert !ForMe(ToOne(s), m.subs[i].sub);
      }
    }
    assert m.log + [] == m.log;
  }

  lemma {:induction false} FirstIs(target: Target, es: seq<Entry>, k: nat)
    requires k < |es| && ForMe(target, es[k].sub) && forall i :: 0 <= i < k ==> !ForMe(target, es[i].sub)
    ensures First(target, es) == k
  {
    if k > 0 {
      FirstIs(target, es[1..], k - 1);
    }
  }

  lemma {:induction false} FirstIsNone(target: Target, es: seq<Entry>)
    requires forall e :: e in es ==> !ForMe(target, e.sub)
    ensures First(target, es) == |es|
  {
    if es != [] {
      assert es[0] in es;
      FirstIsNone(target, es[1..]);
    }
  }

  /** The one that leaves at once is reached by its own notification, and nobody else is. */
  lemma OnlyItselfReached(es: seq<Entry>, u: Subscriber, k: nat, i: nat)
    requires k == First(ToOne(u), es) < |es| && Distinct(es) && i < |es| && i != k
    ensures !Equals(es[i].sub, es[k].sub)
  {
    if i < k {
      assert !ForMe(ToOne(u), es[i].sub) && ForMe(ToOne(u), es[k].sub) && !Equals(es[k].sub, es[i].sub);
    } else {
      assert !Equals(es[i].sub, es[k].sub);
    }
  }

  lemma {:induction false} TakesOneOut(n: Notification, es: seq<Entry>, k: nat)
    requires k < |es| && forall i :: 0 <= i < |es| ==> (Reaches(n, es[i].sub) <==> i == k)
    ensures Reached(n, es) == [Told(es[k].sub, n.status)] && Unreached(n, es) == es[..k] + es[k + 1..]
  {
    if k == 0 {
      NobodyReached(n, es[1..]);
    } else {
      TakesOneOut(n, es[1..], k - 1);
      assert es[..k] + es[k + 1..] == [es[0]] + (es[1..][..k - 1] + es[1..][k..]);
    }
  }

  lemma LeavesAtOnce(m: Machine, u: Subscriber, k: nat)
    requires k == First(ToOne(u), m.subs) < |m.subs| && Distinct(m.subs) && !WaitsForClose(m.subs[k].sub)
    ensures Leave(m, k).log == m.log + [Told(m.subs[k].sub, RsrcUnsubscribe)]
    ensures Leave(m, k).subs == m.subs[..k] + m.subs[k + 1..]
  {
    var n := Notification(ToOne(m.subs[k].sub), RsrcUnsubscribe, true);
    forall i | 0 <= i < |m.subs| ensures Reaches(n, m.subs[i].sub) <==> i == k {
      if i != k {
        OnlyItselfReached(m.subs, u, k, i);
      }
    }
    TakesOneOut(n, m.subs, k);
  }

  /**
    * An unsubscription of a listed subscriber: a WIFI one is only marked to wait for the close, untold; any other is
    * told UNSUBSCRIBE and leaves, nobody else does, and the connection is given up with the last active one.
    */
  lemma Leaves(single: bool, m: Machine, u: Subscriber, k: nat)
    requires Distinct(m.subs) && m.mode != Released && k < |m.subs| && Equals(m.subs[k].sub, u)
    requires forall i :: 0 <= i < k ==> !Equals(m.subs[i].sub, u)
    ensures var m' := Step(single, m, Unsubscribe(u));
      var s := m.subs[k].sub;
      && (if s.kind == Wifi then
            m'.log == m.log && m'.subs == m.subs[k := m.subs[k].(sub := s.(inactive := true))]
          else
            m'.log == m.log + [Told(s, RsrcUnsubscribe)] && m'.subs == m.subs[..k] + m.subs[k + 1..])
      && m'.mode == (if m'.subs == [] then Released
                     else if m.mode != Releasing && Only(false, m'.subs) == [] then Releasing else m.mode)
  {
    FirstIs(ToOne(u), m.subs, k);
    var left := Leave(m, k);
    if !WaitsForClose(m.subs[k].sub) {
      LeavesAtOnce(m, u, k);
    }
    UnsubscribeIsLeave(m, k);
    ActiveIffOnly(left.subs);
  }

  /** Nobody listed is meant. */
  lemma LeavesNobody(single: bool, m: Machine, u: Subscriber)
    requires forall e :: e in m.subs ==> !Equals(e.sub, u)
    ensures Step(single, m, Unsubscribe(u)) == m
  {
    FirstIsNone(ToOne(u), m.subs);
  }

  /** What an event may say to anybody. */
  predicate Calls(e: Event, status: Status) {
    match e
    case Subscribe(_) => status == RsrcGranted || status == RsrcDenied
    case Unsubscribe(_) => status == RsrcUnsubscribe
    case Rsrc(received) => status == received
    case DropAll => false
  }

  lemma {:induction false} ReachedSays(n: Notification, es: seq<Entry>, i: nat)
    requires i < |Reached(n, es)|
    ensures Reached(n, es)[i].status == n.status
  {
    ReachedMembers(n, es);
    assert Reached(n, es)[i] in Reached(n, es);
  }

  lemma UnsubscribeSays(m: Machine, k: nat, i: nat)
    requires k < |m.subs| && |m.log| <= i < |OnUnsubscribe(m, k).log|
    ensures OnUnsubscribe(m, k).log[i].status == RsrcUnsubscribe
  {
    var n := Notification(ToOne(m.subs[k].sub), RsrcUnsubscribe, true);
    UnsubscribeIsLeave(m, k);
    if m.mode != Released && !WaitsForClose(m.subs[k].sub) {
      ReachedSays(n, m.subs, i - |m.log|);
    }
  }

  lemma RsrcSays(single: bool, m: Machine, status: Status, i: nat)
    requires |m.log| <= i < |Step(single, m, Rsrc(status)).log|
    ensures Step(single, m, Rsrc(status)).log[i].status == status
  {
    var m' := Step(single, m, Rsrc(status));
    OthersAreIgnored(single, m, status);
    if m.mode == Releasing {
      CloseComplete(single, m, status);
    } else if status == RsrcGranted {
      ConnectionGranted(single, m);
    } else {
      ConnectionLost(single, m, status);
    }
    assert m'.log[|m.log|..][i - |m.log|] == m'.log[i];
  }

  /** Whatever the machine: an event says to anybody only what it calls for, an event of the service exactly itself. */
  lemma SaysWhatItIs(single: bool, m: Machine, e: Event, i: nat)
    requires |m.log| <= i < |Step(single, m, e).log|
    ensures Calls(e, Step(single, m, e).log[i].status)
  {
    match e
    case Subscribe(s) => Joins(single, m, s);
    case Unsubscribe(s) => UnsubscribeSays(m, First(ToOne(s), m.subs), i);
    case Rsrc(status) => RsrcSays(single, m, status, i);
  }
}
