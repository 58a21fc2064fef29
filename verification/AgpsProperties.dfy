/** What the protocol keeps over whole runs. */
module AgpsProperties {
  import opened AgpsSpec

  ghost predicate SomeActive(es: seq<Entry>) {
    exists i :: 0 <= i < |es| && !IsInactive(es[i].sub)
  }

  ghost predicate SomeInactive(es: seq<Entry>) {
    exists i :: 0 <= i < |es| && IsInactive(es[i].sub)
  }

  /** No entry would have been taken for one that joined after it. */
  ghost predicate Distinct(es: seq<Entry>) {
    forall i, j :: 0 <= i < j < |es| ==> !Equals(es[j].sub, es[i].sub)
  }

  ghost predicate Agrees(m: Machine) {
    && Distinct(m.subs)
    && (m.mode == Released <==> m.subs == [])
    && (m.mode == Pending || m.mode == Acquired ==> SomeActive(m.subs))
    && (m.mode == Releasing ==> SomeInactive(m.subs))
  }

  lemma HasActive(es: seq<Entry>)
    ensures Has(ToActive, es) <==> SomeActive(es)
  {}

  lemma {:induction false} UnreachedMembers(n: Notification, es: seq<Entry>)
    ensures forall e :: e in Unreached(n, es) <==> e in es && !Reaches(n, e.sub)
  {
    if es != [] {
      UnreachedMembers(n, es[1..]);
      assert es == [es[0]] + es[1..];
    }
  }

  // ----- the restarting search, on values -----

  /** The first entry a notification reaches. */
  ghost predicate IsFirstReached(n: Notification, es: seq<Entry>, k: nat) {
    k < |es| && Reaches(n, es[k].sub) && forall i :: 0 <= i < k ==> !Reaches(n, es[i].sub)
  }

  lemma {:induction false} NobodyReached(n: Notification, es: seq<Entry>)
    requires forall i :: 0 <= i < |es| ==> !Reaches(n, es[i].sub)
    ensures Reached(n, es) == [] && Unreached(n, es) == es
  {
    if es != [] {
      NobodyReached(n, es[1..]);
    }
  }

  /** Taking out the first entry reached leaves a list on which the broadcast goes on as it would have. */
  lemma {:induction false} TakeFirstReached(n: Notification, es: seq<Entry>, k: nat)
    requires IsFirstReached(n, es, k)
    ensures var rest := es[..k] + es[k + 1..];
      Reached(n, es) == [Told(es[k].sub, n.status)] + Reached(n, rest) && Unreached(n, es) == Unreached(n, rest)
  {
    var rest := es[..k] + es[k + 1..];
    if k == 0 {
      assert rest == es[1..];
    } else {
      TakeFirstReached(n, es[1..], k - 1);
      assert rest[1..] == es[1..][..k - 1] + es[1..][k..];
      assert rest[0] == es[0];
    }
  }

  /** Dropping entries keeps the rest in order, so that no entry comes to stand before one it would have matched. */
  lemma {:induction false} UnreachedDistinct(n: Notification, es: seq<Entry>)
    requires Distinct(es)
    ensures Distinct(Unreached(n, es))
  {
    if es != [] {
      var tail := Unreached(n, es[1..]);
      UnreachedDistinct(n, es[1..]);
      UnreachedMembers(n, es[1..]);
      forall j | 0 <= j < |tail| ensures !Equals(tail[j].sub, es[0].sub) {
        assert tail[j] in es[1..];
      }
    }
  }

  lemma {:induction false} ReachedMembers(n: Notification, es: seq<Entry>)
    ensures forall t ::
      t in Reached(n, es) <==> t.status == n.status && exists e :: e in es && e.sub == t.sub && Reaches(n, e.sub)
    ensures |Reached(n, es)| + |Unreached(n, es)| == |es|
  {
    if es != [] {
      ReachedMembers(n, es[1..]);
      var head := if Reaches(n, es[0].sub) then [Told(es[0].sub, n.status)] else [];
      assert Reached(n, es) == head + Reached(n, es[1..]);
      forall t ensures t in Reached(n, es) <==>
        t.status == n.status && exists e :: e in es && e.sub == t.sub && Reaches(n, e.sub)
      {
        assert es == [es[0]] + es[1..];
        if t.status == n.status && t.sub == es[0].sub && Reaches(n, es[0].sub) {
          assert t in head && es[0] in es;
        }
      }
    }
  }

  lemma AddAgrees(m: Machine, s: Subscriber, joined: nat)
    requires Distinct(m.subs)
    ensures var m' := Add(m, s, joined);
      && Distinct(m'.subs) && m'.subs != []
      && (SomeActive(m.subs) ==> SomeActive(m'.subs)) && (SomeInactive(m.subs) ==> SomeInactive(m'.subs))
      && (m.subs == [] ==> SomeActive(m'.subs))
  {
    var m' := Add(m, s, joined);
    if !Has(ToOne(s), m.subs) {
      assert !IsInactive(m'.subs[0].sub);
      forall i | 0 <= i < |m.subs| ensures m'.subs[i + 1] == m.subs[i] && !Equals(m.subs[i].sub, s) {
        assert !ForMe(ToOne(s), m.subs[i].sub);
      }
    }
  }

  lemma BroadcastToAllEmpties(m: Machine, status: Status)
    requires status == RsrcReleased || status == RsrcDenied
    ensures Broadcast(m, Notification(ToAll, status, true)).subs == []
  {
    var n := Notification(ToAll, status, true);
    UnreachedMembers(n, m.subs);
    if Unreached(n, m.subs) != [] {
      assert Unreached(n, m.subs)[0] in Unreached(n, m.subs);
    }
  }

  lemma CloseAgrees(m: Machine, status: Status)
    requires Agrees(m) && m.mode == Releasing && (status == RsrcReleased || status == RsrcDenied)
    ensures Agrees(Close(m, status))
  {
    var n := Notification(ToInactive, status, true);
    var es := Unreached(n, m.subs);
    UnreachedMembers(n, m.subs);
    UnreachedDistinct(n, m.subs);
    forall i | 0 <= i < |es| ensures !IsInactive(es[i].sub) {
      assert es[i] in es;
    }
    HasActive(es);
  }

  /** Marking a subscriber inactive keeps everything but perhaps the last active one. */
  lemma InactiveMarkAgrees(es: seq<Entry>, k: nat)
    requires k < |es| && Distinct(es) && WaitsForClose(es[k].sub)
    ensures var es' := es[k := es[k].(sub := SetInactive(es[k].sub))];
      Distinct(es') && SomeInactive(es')
  {
    var es' := es[k := es[k].(sub := SetInactive(es[k].sub))];
    assert IsInactive(es'[k].sub);
  }

  /**
    * A subscriber that leaves at once takes no inactive one with it: the first match of an ID in the list is the
    * newest, and an inactive one with the same ID would have come before it or kept it out.
    */
  lemma LeavingKeepsInactive(es: seq<Entry>, u: Subscriber, k: nat)
    requires k == First(ToOne(u), es) < |es| && Distinct(es) && !WaitsForClose(es[k].sub) && SomeInactive(es)
    ensures SomeInactive(Unreached(Notification(ToOne(es[k].sub), RsrcUnsubscribe, true), es))
  {
    var n := Notification(ToOne(es[k].sub), RsrcUnsubscribe, true);
    var i :| 0 <= i < |es| && IsInactive(es[i].sub);
    assert !Equals(es[i].sub, es[k].sub) by {
      if i < k {
        assert !ForMe(ToOne(u), es[i].sub);
      }
    }
    UnreachedMembers(n, es);
    assert es[i] in Unreached(n, es);
  }

  lemma LeaveAgrees(m: Machine, u: Subscriber, k: nat)
    requires Distinct(m.subs) && k == First(ToOne(u), m.subs) < |m.subs|
    ensures var m' := Leave(m, k);
      && Distinct(m'.subs)
      && (SomeInactive(m.subs) ==> SomeInactive(m'.subs)) && m'.mode == m.mode
  {
    var s := m.subs[k].sub;
    if WaitsForClose(s) {
      InactiveMarkAgrees(m.subs, k);
    } else {
      var n := Notification(ToOne(s), RsrcUnsubscribe, true);
      UnreachedMembers(n, m.subs);
      UnreachedDistinct(n, m.subs);
      if SomeInactive(m.subs) {
        LeavingKeepsInactive(m.subs, u, k);
      }
    }
  }

  lemma UnsubscribeAgrees(m: Machine, u: Subscriber, k: nat)
    requires Agrees(m) && k == First(ToOne(u), m.subs) < |m.subs|
    ensures Agrees(OnUnsubscribe(m, k))
    // one that leaves while a close is under way is never the last: the close still has someone to tell
    ensures m.mode == Releasing ==> OnUnsubscribe(m, k).mode == Releasing
  {
    LeaveAgrees(m, u, k);
    var m' := Leave(m, k);
    HasActive(m'.subs);
    if m'.subs != [] && !SomeActive(m'.subs) {
      assert IsInactive(m'.subs[0].sub);
      assert SomeInactive(m'.subs);
    }
  }

  lemma SubscribeAgrees(m: Machine, s: Subscriber)
    requires Agrees(m)
    ensures Agrees(OnSubscribe(m, s))
  {
    AddAgrees(m, s, |m.log|);
    AddAgrees(m.(log := m.log + [Told(s, RsrcGranted)]), s, |m.log|);
  }

  lemma LossAgrees(m: Machine, status: Status)
    requires status == RsrcReleased || status == RsrcDenied
    ensures Agrees(Broadcast(m, Notification(ToAll, status, true)).(mode := Released))
  {
    BroadcastToAllEmpties(m, status);
  }

  lemma ReleasedAgrees(m: Machine)
    requires Agrees(m)
    ensures Agrees(OnReleased(m))
  {
    LossAgrees(m, RsrcReleased);
    if m.mode == Releasing {
      CloseAgrees(m, RsrcReleased);
    }
  }

  lemma DeniedAgrees(m: Machine)
    requires Agrees(m)
    ensures Agrees(OnDenied(m))
  {
    LossAgrees(m, RsrcDenied);
    if m.mode == Releasing {
      CloseAgrees(m, RsrcDenied);
    }
  }

  lemma GrantedAgrees(m: Machine)
    requires Agrees(m)
    ensures Agrees(OnGranted(m))
  {}

  lemma StepAgrees(single: bool, m: Machine, e: Event)
    requires Agrees(m) && e != DropAll
    ensures Agrees(Step(single, m, e))
  {
    match e
    case Subscribe(s) => SubscribeAgrees(m, s);
    case Unsubscribe(s) =>
      if Has(ToOne(s), m.subs) {
        UnsubscribeAgrees(m, s, First(ToOne(s), m.subs));
      }
    case Rsrc(status) =>
      match status {
        case RsrcReleased => ReleasedAgrees(m);
        case RsrcDenied => DeniedAgrees(m);
        case RsrcGranted => GrantedAgrees(m);
        case _ =>
      }
  }

  /**
    * In every run without a drop: no two entries stand for the same subscriber; the machine is Released exactly when
    * its list is empty; Pending and Acquired have an active subscriber and Releasing an inactive one.
    */
  lemma {:induction false} RunAgrees(single: bool, es: seq<Event>)
    requires NoDrop(es)
    ensures Agrees(Run(single, es))
  {
    if es != [] {
      RunAgrees(single, es[..|es| - 1]);
      StepAgrees(single, Run(single, es[..|es| - 1]), es[|es| - 1]);
    }
  }

  lemma RsrcKeepsDistinct(m: Machine, status: Status)
    requires Distinct(m.subs)
    ensures Distinct(Step(false, m, Rsrc(status)).subs)
  {
    UnreachedDistinct(Notification(ToAll, status, true), m.subs);
    UnreachedDistinct(Notification(ToInactive, status, true), m.subs);
  }

  lemma StepKeepsDistinct(single: bool, m: Machine, e: Event)
    requires Distinct(m.subs)
    ensures Distinct(Step(single, m, e).subs)
  {
    match e
    case Subscribe(s) =>
      AddAgrees(m, s, |m.log|);
      AddAgrees(m.(log := m.log + [Told(s, RsrcGranted)]), s, |m.log|);
    case Unsubscribe(s) =>
      if Has(ToOne(s), m.subs) {
        LeaveAgrees(m, s, First(ToOne(s), m.subs));
        UnsubscribeIsLeave(m, First(ToOne(s), m.subs));
      }
    case Rsrc(status) => RsrcKeepsDistinct(m, status);
    case DropAll =>
  }

  /** In every run, drops included, no entry would have been taken for one that joined after it. */
  lemma {:induction false} RunDistinct(single: bool, es: seq<Event>)
    ensures Distinct(Run(single, es).subs)
  {
    if es != [] {
      RunDistinct(single, es[..|es| - 1]);
      StepKeepsDistinct(single, Run(single, es[..|es| - 1]), es[|es| - 1]);
    }
  }

  /** Two entries share an ID only as BIT subscribers without an IPv4 address, the older one with another IPv6 one. */
  lemma SharedIdsAreAddresslessBits(single: bool, es: seq<Event>, i: nat, j: nat)
    requires i < j < |Run(single, es).subs|
    ensures var newer, older := Run(single, es).subs[i].sub, Run(single, es).subs[j].sub;
      newer.id == older.id ==> older.kind == Bit && older.id == INADDR_NONE && older.ip6 != newer.ip6
  {
    RunDistinct(single, es);
  }

  lemma RunStep(single: bool, es: seq<Event>, e: Event)
    ensures Run(single, es + [e]) == Step(single, Run(single, es), e)
  {
    assert (es + [e])[..|es|] == es;
  }

  // ----- IDs -----

  ghost predicate DistinctIds(es: seq<Entry>) {
    forall i, j :: 0 <= i < j < |es| ==> es[i].sub.id != es[j].sub.id
  }

  /** A BIT subscriber without an IPv4 address is listed, and `s` has its ID with another IPv6 address. */
  ghost predicate HidesBehindNone(es: seq<Entry>, s: Subscriber) {
    exists e :: e in es && e.sub.kind == Bit && e.sub.id == s.id == INADDR_NONE && e.sub.ip6 != s.ip6
  }

  /** Adding repeats an ID exactly when no listed subscriber matches but one of them has the ID all the same. */
  lemma AddKeepsIdsIff(m: Machine, s: Subscriber, joined: nat)
    requires DistinctIds(m.subs)
    ensures DistinctIds(Add(m, s, joined).subs) <==> !HidesBehindNone(m.subs, s)
  {
    var m' := Add(m, s, joined);
    if HidesBehindNone(m.subs, s) {
      var j :| 0 <= j < |m.subs| && m.subs[j].sub.kind == Bit && m.subs[j].sub.id == s.id == INADDR_NONE
        && m.subs[j].sub.ip6 != s.ip6;
      AddedBehindNone(m.subs, s, j);
      assert m'.subs[0].sub.id == m'.subs[j + 1].sub.id;
    } else if !Has(ToOne(s), m.subs) {
      forall j | 0 <= j < |m.subs| ensures m.subs[j].sub.id != s.id {
        assert !ForMe(ToOne(s), m.subs[j].sub) && m.subs[j] in m.subs;
      }
    }
  }

  /** With distinct IDs nobody else can stand for one who hides behind INADDR_NONE. */
  lemma AddedBehindNone(es: seq<Entry>, s: Subscriber, j: nat)
    requires DistinctIds(es) && j < |es| && es[j].sub.id == s.id && !Equals(es[j].sub, s)
    ensures !Has(ToOne(s), es)
  {
    forall i | 0 <= i < |es| ensures !Equals(es[i].sub, s) {
      assert i != j ==> es[i].sub.id != es[j].sub.id;
    }
  }

  lemma {:induction false} UnreachedIds(n: Notification, es: seq<Entry>)
    requires DistinctIds(es)
    ensures DistinctIds(Unreached(n, es))
  {
    if es != [] {
      var tail := Unreached(n, es[1..]);
      UnreachedIds(n, es[1..]);
      UnreachedMembers(n, es[1..]);
      forall j | 0 <= j < |tail| ensures es[0].sub.id != tail[j].sub.id {
        assert tail[j] in es[1..];
      }
    }
  }

  /** A subscription that is not denied outright and that the list takes for a new ID, which it is not. */
  ghost predicate RepeatsId(single: bool, m: Machine, e: Event) {
    e.Subscribe? && !(single && m.subs != []) && HidesBehindNone(m.subs, e.s)
  }

  lemma RsrcKeepsIds(m: Machine, status: Status)
    requires DistinctIds(m.subs)
    ensures DistinctIds(OnGranted(m).subs) && DistinctIds(OnReleased(m).subs) && DistinctIds(OnDenied(m).subs)
  {
    UnreachedIds(Notification(ToAll, RsrcReleased, true), m.subs);
    UnreachedIds(Notification(ToAll, RsrcDenied, true), m.subs);
    UnreachedIds(Notification(ToInactive, RsrcReleased, true), m.subs);
    UnreachedIds(Notification(ToInactive, RsrcDenied, true), m.subs);
  }

  lemma UnsubscribeKeepsIds(m: Machine, k: nat)
    requires DistinctIds(m.subs) && k < |m.subs|
    ensures DistinctIds(OnUnsubscribe(m, k).subs)
  {
    UnreachedIds(Notification(ToOne(m.subs[k].sub), RsrcUnsubscribe, true), m.subs);
  }

  lemma SubscribeKeepsIdsIff(m: Machine, s: Subscriber)
    requires DistinctIds(m.subs)
    ensures DistinctIds(OnSubscribe(m, s).subs) <==> !HidesBehindNone(m.subs, s)
  {
    AddKeepsIdsIff(m, s, |m.log|);
    AddKeepsIdsIff(m.(log := m.log + [Told(s, RsrcGranted)]), s, |m.log|);
  }

  /** An event leaves IDs distinct exactly if it is not such a subscription; all others only drop or mark entries. */
  lemma StepKeepsIdsIff(single: bool, m: Machine, e: Event)
    requires DistinctIds(m.subs)
    ensures DistinctIds(Step(single, m, e).subs) <==> !RepeatsId(single, m, e)
  {
    match e
    case Subscribe(s) => SubscribeKeepsIdsIff(m, s);
    case Unsubscribe(s) =>
      if Has(ToOne(s), m.subs) {
        UnsubscribeKeepsIds(m, First(ToOne(s), m.subs));
      }
    case Rsrc(status) => RsrcKeepsIds(m, status);
    case DropAll =>
  }

  /** After every event of the run. */
  ghost predicate AlwaysDistinctIds(single: bool, es: seq<Event>) {
    DistinctIds(Run(single, es).subs) && (es == [] || AlwaysDistinctIds(single, es[..|es| - 1]))
  }

  /** At no event of the run. */
  ghost predicate NeverRepeatsId(single: bool, es: seq<Event>) {
    es == [] || (var init := es[..|es| - 1];
      NeverRepeatsId(single, init) && !RepeatsId(single, Run(single, init), es[|es| - 1]))
  }

  /**
    * IDs are distinct all through a run, drops included, exactly if none of its events is a subscription that joins a
    * BIT subscriber without an IPv4 address under the same ID with another IPv6 address.
    */
  lemma {:induction false} IdsStayDistinctIff(single: bool, es: seq<Event>)
    ensures AlwaysDistinctIds(single, es) <==> NeverRepeatsId(single, es)
  {
    if es != [] {
      var init, e := es[..|es| - 1], es[|es| - 1];
      IdsStayDistinctIff(single, init);
      if AlwaysDistinctIds(single, init) {
        StepKeepsIdsIff(single, Run(single, init), e);
      }
    }
  }

  /** And there are such runs: two BIT subscribers without an IPv4 address, told apart by their IPv6 ones. */
  lemma IdsCanBeShared()
    ensures var a, b := Subscriber(Bit, INADDR_NONE, "a", false), Subscriber(Bit, INADDR_NONE, "b", false);
      var es := [Subscribe(a), Subscribe(b)];
      NoDrop(es) && !DistinctIds(Run(false, es).subs)
  {
    var a, b := Subscriber(Bit, INADDR_NONE, "a", false), Subscriber(Bit, INADDR_NONE, "b", false);
    RunStep(false, [], Subscribe(a));
    RunStep(false, [Subscribe(a)], Subscribe(b));
    assert [] + [Subscribe(a)] == [Subscribe(a)] && [Subscribe(a)] + [Subscribe(b)] == [Subscribe(a), Subscribe(b)];
    var one := Step(false, START, Subscribe(a));
    assert one.subs == [Entry(a, 0)] && one.mode == Pending;
    var two := Step(false, one, Subscribe(b));
    assert two.subs[0].sub.id == two.subs[1].sub.id;
  }

  // ----- requests to the connectivity service -----

  ghost predicate EmptyWhenReleased(m: Machine) {
    m.mode == Released ==> m.subs == []
  }

  predicate Holds(mode: Mode) {
    mode == Pending || mode == Acquired
  }

  /** What one event sends: a request on taking the connection up, a release on an unsubscription that gives it up. */
  function Sent(m: Machine, e: Event, m': Machine): seq<Request> {
    if !Holds(m.mode) && Holds(m'.mode) then [RequestConn]
    else if Holds(m.mode) && !Holds(m'.mode) && e.Unsubscribe? then [ReleaseConn]
    else []
  }

  lemma SubscribeSends(m: Machine, s: Subscriber)
    requires EmptyWhenReleased(m)
    ensures var m' := OnSubscribe(m, s);
      m'.requests == m.requests + Sent(m, Subscribe(s), m') && EmptyWhenReleased(m')
  {
    if m.mode == Released {
      var added := Add(m, s, |m.log|);
      assert ForMe(ToActive, added.subs[0].sub);
    }
  }

  lemma UnsubscribeSends(m: Machine, s: Subscriber, k: nat)
    requires EmptyWhenReleased(m) && k < |m.subs|
    ensures var m' := OnUnsubscribe(m, k);
      m'.requests == m.requests + Sent(m, Unsubscribe(s), m') && EmptyWhenReleased(m')
  {}

  lemma CloseSends(m: Machine, status: Status, e: Event)
    requires m.mode == Releasing && (status == RsrcReleased || status == RsrcDenied) && !e.Unsubscribe?
    ensures var m' := Close(m, status);
      m'.requests == m.requests + Sent(m, e, m') && EmptyWhenReleased(m')
  {
    var n := Notification(ToInactive, status, true);
    var es := Unreached(n, m.subs);
    UnreachedMembers(n, m.subs);
    if es != [] {
      assert es[0] in es;
    }
  }

  lemma RsrcSends(m: Machine, status: Status)
    requires EmptyWhenReleased(m) && (status == RsrcReleased || status == RsrcDenied)
    ensures var m' := if status == RsrcReleased then OnReleased(m) else OnDenied(m);
      m'.requests == m.requests + Sent(m, Rsrc(status), m') && EmptyWhenReleased(m')
  {
    BroadcastToAllEmpties(m, status);
    if m.mode == Releasing {
      CloseSends(m, status, Rsrc(status));
    }
  }

  /** The guard on sending never holds a request back, not even after the list has been dropped. */
  lemma StepSends(single: bool, m: Machine, e: Event)
    requires EmptyWhenReleased(m)
    ensures var m' := Step(single, m, e);
      m'.requests == m.requests + Sent(m, e, m') && EmptyWhenReleased(m')
  {
    match e
    case Subscribe(s) => SubscribeSends(m, s);
    case Unsubscribe(s) =>
      if Has(ToOne(s), m.subs) {
        UnsubscribeSends(m, s, First(ToOne(s), m.subs));
      }
    case Rsrc(status) =>
      if status == RsrcReleased || status == RsrcDenied {
        RsrcSends(m, status);
      }
    case DropAll =>
  }

  /** The connection is lost without a release: denied while pending, or released by the service while acquired. */
  predicate Lost(m: Machine, e: Event) {
    (m.mode == Pending && e == Rsrc(RsrcDenied)) || (m.mode == Acquired && e == Rsrc(RsrcReleased))
  }

  function Losses(single: bool, es: seq<Event>): nat {
    if es == [] then 0
    else
      var init, e := es[..|es| - 1], es[|es| - 1];
      Losses(single, init) + if Lost(Run(single, init), e) then 1 else 0
  }

  function Count(rs: seq<Request>, r: Request): nat {
    if rs == [] then 0 else Count(rs[..|rs| - 1], r) + if rs[|rs| - 1] == r then 1 else 0
  }

  lemma CountSent(rs: seq<Request>, sent: seq<Request>, r: Request)
    requires |sent| <= 1
    ensures Count(rs + sent, r) == Count(rs, r) + Count(sent, r)
  {
    if sent == [] {
      assert rs + sent == rs;
    } else {
      assert (rs + sent)[..|rs + sent| - 1] == rs;
    }
  }

  lemma StepLoses(single: bool, m: Machine, e: Event)
    requires EmptyWhenReleased(m)
    ensures Lost(m, e) ==> Holds(m.mode) && !Holds(Step(single, m, e).mode) && !e.Unsubscribe?
    ensures Holds(m.mode) && !Holds(Step(single, m, e).mode) && !e.Unsubscribe? ==> Lost(m, e)
  {}

  lemma StepConserves(m: Machine, e: Event, m': Machine, losses: nat)
    requires m'.requests == m.requests + Sent(m, e, m')
    requires Lost(m, e) <==> Holds(m.mode) && !Holds(m'.mode) && !e.Unsubscribe?
    requires Count(m.requests, RequestConn)
      == Count(m.requests, ReleaseConn) + losses + (if Holds(m.mode) then 1 else 0)
    ensures Count(m'.requests, RequestConn)
      == Count(m'.requests, ReleaseConn) + losses + (if Lost(m, e) then 1 else 0) + (if Holds(m'.mode) then 1 else 0)
  {
    CountSent(m.requests, Sent(m, e, m'), RequestConn);
    CountSent(m.requests, Sent(m, e, m'), ReleaseConn);
  }

  /**
    * In every run, drops included: connection requests sent are releases sent, plus connections lost, plus the one
    * that is held while the machine is Pending or Acquired.
    */
  lemma {:induction false} RequestsAreConserved(single: bool, es: seq<Event>)
    ensures var m := Run(single, es);
      && EmptyWhenReleased(m)
      && Count(m.requests, RequestConn)
         == Count(m.requests, ReleaseConn) + Losses(single, es) + (if Holds(m.mode) then 1 else 0)
  {
    if es != [] {
      var init, e := es[..|es| - 1], es[|es| - 1];
      var m := Run(single, init);
      RequestsAreConserved(single, init);
      StepSends(single, m, e);
      StepLoses(single, m, e);
      StepConserves(m, e, Step(single, m, e), Losses(single, init));
    }
  }

  // ----- who is told what -----

  /** `a` is what is left of `b` when some entries are taken out. */
  ghost predicate IsSubsequence(a: seq<Entry>, b: seq<Entry>) {
    a == [] || (b != [] && ((a[0] == b[0] && IsSubsequence(a[1..], b[1..])) || IsSubsequence(a, b[1..])))
  }

  /** `told` says to each of the entries, in their order, what the notification says, and nothing else. */
  ghost predicate TellsEach(told: seq<Told>, status: Status, es: seq<Entry>) {
    |told| == |es| && forall i :: 0 <= i < |es| ==> told[i] == Told(es[i].sub, status)
  }

  lemma TellsOneMore(told: seq<Told>, status: Status, e: Entry, es: seq<Entry>)
    requires TellsEach(told, status, es)
    ensures TellsEach([Told(e.sub, status)] + told, status, [e] + es)
  {}

  lemma {:induction false} SplitList(n: Notification, es: seq<Entry>) returns (reached: seq<Entry>)
    ensures IsSubsequence(reached, es) && IsSubsequence(Unreached(n, es), es)
    ensures forall e :: e in reached <==> e in es && Reaches(n, e.sub)
    ensures TellsEach(Reached(n, es), n.status, reached)
  {
    reached := [];
    if es != [] {
      var rest := SplitList(n, es[1..]);
      assert es == [es[0]] + es[1..];
      if Reaches(n, es[0].sub) {
        reached := [es[0]] + rest;
        assert reached[1..] == rest && [] + Unreached(n, es[1..]) == Unreached(n, es[1..]);
        TellsOneMore(Reached(n, es[1..]), n.status, es[0], rest);
      } else {
        reached := rest;
        assert Unreached(n, es)[1..] == Unreached(n, es[1..]);
        assert [] + Reached(n, es[1..]) == Reached(n, es[1..]);
      }
    }
  }

  /**
    * A deleting broadcast splits the list in two, both in the old order: those reached are each told once and nobody
    * else is told anything, and those not reached are what is left.
    */
  lemma BroadcastSplits(m: Machine, n: Notification) returns (reached: seq<Entry>)
    requires n.postNotifyDelete
    ensures var m' := Broadcast(m, n);
      && IsSubsequence(reached, m.subs) && IsSubsequence(m'.subs, m.subs)
      && (forall e :: e in reached <==> e in m.subs && Reaches(n, e.sub))
      && (forall e :: e in m'.subs <==> e in m.subs && !Reaches(n, e.sub))
      && m.log <= m'.log && TellsEach(m'.log[|m.log|..], n.status, reached) && |reached| + |m'.subs| == |m.subs|
  {
    reached := SplitList(n, m.subs);
    UnreachedMembers(n, m.subs);
    ReachedMembers(n, m.subs);
    assert Broadcast(m, n).log[|m.log|..] == Reached(n, m.subs);
  }

  /** News that a subscriber is off the list, in a form that it passes on: a WIFI one does not pass on UNSUBSCRIBE. */
  predicate IsFarewell(t: Told) {
    t.status == RsrcReleased || t.status == RsrcDenied || (t.status == RsrcUnsubscribe && t.sub.kind != Wifi)
  }

  /** The same subscriber, perhaps marked inactive in the meantime. */
  predicate SameSub(s: Subscriber, s': Subscriber) {
    s' == s || s' == SetInactive(s)
  }

  predicate SameEntry(e: Entry, e': Entry) {
    e'.joined == e.joined && SameSub(e.sub, e'.sub)
  }

  /** The entry is still listed, or its subscriber has been told in the new part of the log that it is not. */
  ghost predicate StaysOrTold(e: Entry, m: Machine, m': Machine) {
    || (exists e' :: e' in m'.subs && SameEntry(e, e'))
    || (exists k :: |m.log| <= k < |m'.log| && SameSub(e.sub, m'.log[k].sub) && IsFarewell(m'.log[k]))
  }

  lemma BroadcastTells(m: Machine, n: Notification, e: Entry, mode: Mode, requests: seq<Request>)
    requires e in m.subs && n.postNotifyDelete && (Reaches(n, e.sub) ==> IsFarewell(Told(e.sub, n.status)))
    ensures StaysOrTold(e, m, Broadcast(m, n).(mode := mode, requests := requests))
  {
    var reached := BroadcastSplits(m, n);
    var m' := Broadcast(m, n).(mode := mode, requests := requests);
    if Reaches(n, e.sub) {
      var k :| 0 <= k < |reached| && reached[k] == e;
      assert m'.log[|m.log|..][k] == m'.log[|m.log| + k] == Told(e.sub, n.status);
    } else {
      assert e in m'.subs;
    }
  }

  /** A subscriber that leaves at once takes no WIFI one with it, for the reason that it takes no inactive one. */
  lemma LeavingSparesWifi(es: seq<Entry>, u: Subscriber, k: nat, i: nat)
    requires k == First(ToOne(u), es) < |es| && Distinct(es) && !WaitsForClose(es[k].sub)
    requires i < |es| && es[i].sub.kind == Wifi
    ensures !Equals(es[i].sub, es[k].sub)
  {
    if i < k {
      assert !ForMe(ToOne(u), es[i].sub);
    }
  }

  /** What follows once somebody has left changes neither the list nor the log. */
  lemma UnsubscribeIsLeave(m: Machine, k: nat)
    requires k < |m.subs|
    ensures var m', left := OnUnsubscribe(m, k), Leave(m, k);
      && m.log <= left.log && m.log <= m'.log
      && (m.mode != Released ==> m' == left.(mode := m'.mode, requests := m'.requests))
      && (m.mode == Released ==> m'.subs == m.subs)
  {}

  lemma CloseIsBroadcast(m: Machine, status: Status)
    ensures var m', told := Close(m, status), Broadcast(m, Notification(ToInactive, status, true));
      m.log <= m'.log && m' == told.(mode := m'.mode, requests := m'.requests)
  {}

  lemma UnsubscribeTells(m: Machine, u: Subscriber, k: nat, e: Entry)
    requires k == First(ToOne(u), m.subs) < |m.subs| && Distinct(m.subs) && e in m.subs
    ensures StaysOrTold(e, m, OnUnsubscribe(m, k)) && m.log <= OnUnsubscribe(m, k).log
  {
    var m', s := OnUnsubscribe(m, k), m.subs[k].sub;
    UnsubscribeIsLeave(m, k);
    var i :| 0 <= i < |m.subs| && m.subs[i] == e;
    if m.mode == Released || WaitsForClose(s) {
      assert m'.subs[i] in m'.subs && SameEntry(e, m'.subs[i]);
    } else {
      if e.sub.kind == Wifi {
        LeavingSparesWifi(m.subs, u, k, i);
      }
      BroadcastTells(m, Notification(ToOne(s), RsrcUnsubscribe, true), e, m'.mode, m'.requests);
    }
  }

  lemma CloseTells(m: Machine, status: Status, e: Entry)
    requires e in m.subs && (status == RsrcReleased || status == RsrcDenied)
    ensures m.log <= Close(m, status).log && StaysOrTold(e, m, Close(m, status))
  {
    var m' := Close(m, status);
    CloseIsBroadcast(m, status);
    BroadcastTells(m, Notification(ToInactive, status, true), e, m'.mode, m'.requests);
  }

  lemma LossTells(m: Machine, status: Status, e: Entry)
    requires e in m.subs && (status == RsrcReleased || status == RsrcDenied)
    ensures var m' := Broadcast(m, Notification(ToAll, status, true)).(mode := Released);
      m.log <= m'.log && StaysOrTold(e, m, m')
  {
    BroadcastTells(m, Notification(ToAll, status, true), e, Released, m.requests);
  }

  lemma RsrcTells(m: Machine, status: Status, e: Entry)
    requires e in m.subs && (status == RsrcReleased || status == RsrcDenied)
    ensures var m' := if status == RsrcReleased then OnReleased(m) else OnDenied(m);
      m.log <= m'.log && StaysOrTold(e, m, m')
  {
    assert SameEntry(e, e);
    if m.mode == Releasing {
      CloseTells(m, status, e);
    } else if Lost(m, Rsrc(status)) {
      LossTells(m, status, e);
    }
  }

  lemma StepTells(single: bool, m: Machine, ev: Event, e: Entry)
    requires e in m.subs && ev != DropAll && Distinct(m.subs)
    ensures var m' := Step(single, m, ev);
      m.log <= m'.log && StaysOrTold(e, m, m')
  {
    var m' := Step(single, m, ev);
    assert SameEntry(e, e);
    match ev
    case Subscribe(s) => assert e in m'.subs;
    case Unsubscribe(s) =>
      if Has(ToOne(s), m.subs) {
        UnsubscribeTells(m, s, First(ToOne(s), m.subs), e);
      } else {
        assert e in m'.subs;
      }
    case Rsrc(status) =>
      if status == RsrcReleased || status == RsrcDenied {
        RsrcTells(m, status, e);
      } else {
        assert e in m'.subs;
      }
  }

  lemma StaysOrToldOn(e: Entry, m: Machine, m': Machine, m'': Machine)
    requires StaysOrTold(e, m, m') && m.log <= m'.log <= m''.log
    requires forall e' :: e' in m'.subs ==> StaysOrTold(e', m', m'')
    ensures StaysOrTold(e, m, m'')
  {
    if exists e' :: e' in m'.subs && SameEntry(e, e') {
      var e' :| e' in m'.subs && SameEntry(e, e');
      assert StaysOrTold(e', m', m'');
      if e'' :| e'' in m''.subs && SameEntry(e', e'') {
        assert SameEntry(e, e'');
      } else {
        var k :| |m'.log| <= k < |m''.log| && SameSub(e'.sub, m''.log[k].sub) && IsFarewell(m''.log[k]);
        assert SameSub(e.sub, m''.log[k].sub);
      }
    } else {
      var k :| |m.log| <= k < |m'.log| && SameSub(e.sub, m'.log[k].sub) && IsFarewell(m'.log[k]);
      assert m''.log[k] == m'.log[k];
    }
  }

  /**
    * However any run goes on, as long as it goes on without a drop, whoever was listed is still listed, or has since
    * been told RELEASED or DENIED, or UNSUBSCRIBE if it is not a WIFI subscriber.
    */
  lemma {:induction false} NobodyLeavesSilently(single: bool, es: seq<Event>, more: seq<Event>, e: Entry)
    requires NoDrop(more) && e in Run(single, es).subs
    ensures var m, m' := Run(single, es), Run(single, es + more);
      m.log <= m'.log && StaysOrTold(e, m, m')
    decreases |more|
  {
    if more == [] {
      assert es + more == es && SameEntry(e, e);
    } else {
      var init, ev := more[..|more| - 1], more[|more| - 1];
      assert es + more == es + init + [ev];
      var m, m' := Run(single, es), Run(single, es + init);
      assert (es + init + [ev])[..|es + init|] == es + init;
      NobodyLeavesSilently(single, es, init, e);
      RunDistinct(single, es + init);
      forall e' | e' in m'.subs ensures StaysOrTold(e', m', Step(single, m', ev)) {
        StepTells(single, m', ev, e');
      }
      LogGrows(single, m', ev);
      StaysOrToldOn(e, m, m', Step(single, m', ev));
    }
  }

  lemma LogGrows(single: bool, m: Machine, ev: Event)
    ensures m.log <= Step(single, m, ev).log
  {
    match ev
    case Unsubscribe(s) =>
      var k := First(ToOne(s), m.subs);
      if k < |m.subs| {
        UnsubscribeIsLeave(m, k);
      }
    case Rsrc(status) =>
      CloseIsBroadcast(m, status);
    case _ =>
  }

  // ----- grants -----

  /** The subscriber has been told GRANTED since its entry joined, the event in which it did included. */
  ghost predicate GrantedSince(e: Entry, log: seq<Told>) {
    exists k :: e.joined <= k < |log| && log[k].status == RsrcGranted && Clone(log[k].sub) == Clone(e.sub)
  }

  /** Nobody at all has been told GRANTED since. */
  ghost predicate NoGrantSince(joined: nat, log: seq<Told>) {
    forall k :: joined <= k < |log| ==> log[k].status != RsrcGranted
  }

  ghost predicate GrantOk(m: Machine, e: Entry) {
    && e.joined <= |m.log|
    && (if m.mode == Acquired then GrantedSince(e, m.log) else NoGrantSince(e.joined, m.log))
  }

  ghost predicate GrantInv(m: Machine) {
    forall e :: e in m.subs && !IsInactive(e.sub) ==> GrantOk(m, e)
  }

  /** Who stays active keeps its standing while the mode stays on the same side and no grant comes outside Acquired. */
  lemma GrantsStay(m: Machine, m': Machine, more: seq<Told>)
    requires GrantInv(m) && m'.log == m.log + more && (m'.mode == Acquired <==> m.mode == Acquired)
    requires m.mode != Acquired ==> NoGrantSince(0, more)
    requires forall e :: e in m'.subs && !IsInactive(e.sub) ==> e in m.subs
    ensures GrantInv(m')
  {
    forall e | e in m'.subs && !IsInactive(e.sub) ensures GrantOk(m', e) {
      assert GrantOk(m, e);
      if m.mode == Acquired {
        var k :| e.joined <= k < |m.log| && m.log[k].status == RsrcGranted && Clone(m.log[k].sub) == Clone(e.sub);
        assert m'.log[k] == m.log[k];
      } else {
        forall k | e.joined <= k < |m'.log| ensures m'.log[k].status != RsrcGranted {
          if k >= |m.log| {
            assert m'.log[k] == more[k - |m.log|];
          }
        }
      }
    }
  }

  lemma BroadcastGrantsNobody(m: Machine, n: Notification)
    requires n.status != RsrcGranted
    ensures Broadcast(m, n).log == m.log + Reached(n, m.subs) && NoGrantSince(0, Reached(n, m.subs))
  {
    ReachedMembers(n, m.subs);
    forall k | 0 <= k < |Reached(n, m.subs)| ensures Reached(n, m.subs)[k].status != RsrcGranted {
      assert Reached(n, m.subs)[k] in Reached(n, m.subs);
    }
  }

  lemma SubscribeGrants(m: Machine, s: Subscriber)
    requires GrantInv(m) && EmptyWhenReleased(m)
    ensures GrantInv(OnSubscribe(m, s))
  {
    var m' := OnSubscribe(m, s);
    if m.mode == Acquired {
      var told := m.(log := m.log + [Told(s, RsrcGranted)]);
      GrantsStay(m, told, [Told(s, RsrcGranted)]);
      assert told.log[|m.log|] == Told(s, RsrcGranted);
      forall e | e in m'.subs && !IsInactive(e.sub) ensures GrantOk(m', e) {
        assert e in m.subs ==> GrantOk(told, e);
      }
    } else {
      forall e | e in m'.subs && !IsInactive(e.sub) ensures GrantOk(m', e) {
        assert e in m.subs ==> GrantOk(m, e);
      }
    }
  }

  lemma UnsubscribeGrants(m: Machine, k: nat)
    requires GrantInv(m) && EmptyWhenReleased(m) && k < |m.subs|
    ensures GrantInv(OnUnsubscribe(m, k))
  {
    var left, m' := Leave(m, k), OnUnsubscribe(m, k);
    if WaitsForClose(m.subs[k].sub) {
      assert left.log == m.log + [];
      GrantsStay(m, left, []);
    } else {
      var n := Notification(ToOne(m.subs[k].sub), RsrcUnsubscribe, true);
      BroadcastGrantsNobody(m, n);
      UnreachedMembers(n, m.subs);
      GrantsStay(m, left, Reached(n, m.subs));
    }
    HasActive(left.subs);
    forall e | e in m'.subs && !IsInactive(e.sub) ensures GrantOk(m', e) {
      assert GrantOk(left, e) && SomeActive(left.subs);
    }
  }

  lemma GrantGrants(m: Machine)
    requires GrantInv(m) && m.mode == Pending
    ensures GrantInv(OnGranted(m))
  {
    var n, m' := Notification(ToActive, RsrcGranted, false), OnGranted(m);
    ReachedMembers(n, m.subs);
    forall e | e in m'.subs && !IsInactive(e.sub) ensures GrantOk(m', e) {
      assert GrantOk(m, e) && Told(e.sub, RsrcGranted) in Reached(n, m.subs);
      var k :| 0 <= k < |Reached(n, m.subs)| && Reached(n, m.subs)[k] == Told(e.sub, RsrcGranted);
      assert m'.log[|m.log| + k] == Told(e.sub, RsrcGranted);
    }
  }

  lemma CloseGrants(m: Machine, status: Status)
    requires GrantInv(m) && m.mode == Releasing && (status == RsrcReleased || status == RsrcDenied)
    ensures GrantInv(Close(m, status))
  {
    var n := Notification(ToInactive, status, true);
    BroadcastGrantsNobody(m, n);
    UnreachedMembers(n, m.subs);
    GrantsStay(m, Close(m, status), Reached(n, m.subs));
  }

  lemma RsrcGrants(m: Machine, status: Status)
    requires GrantInv(m)
    ensures GrantInv(Step(false, m, Rsrc(status)))
  {
    if m.mode == Releasing && (status == RsrcReleased || status == RsrcDenied) {
      CloseGrants(m, status);
    } else if m.mode == Pending && status == RsrcGranted {
      GrantGrants(m);
    } else if Lost(m, Rsrc(status)) {
      BroadcastToAllEmpties(m, status);
    }
  }

  lemma StepGrants(single: bool, m: Machine, ev: Event)
    requires GrantInv(m) && EmptyWhenReleased(m)
    ensures GrantInv(Step(single, m, ev))
  {
    match ev
    case Subscribe(s) =>
      if single && m.subs != [] {
        GrantsStay(m, Step(single, m, ev), [Told(s, RsrcDenied)]);
      } else {
        SubscribeGrants(m, s);
      }
    case Unsubscribe(s) =>
      if Has(ToOne(s), m.subs) {
        UnsubscribeGrants(m, First(ToOne(s), m.subs));
      }
    case Rsrc(status) => RsrcGrants(m, status);
    case DropAll =>
  }

  lemma {:induction false} GrantsAlways(single: bool, es: seq<Event>)
    ensures GrantInv(Run(single, es))
  {
    if es != [] {
      GrantsAlways(single, es[..|es| - 1]);
      RequestsAreConserved(single, es[..|es| - 1]);
      StepGrants(single, Run(single, es[..|es| - 1]), es[|es| - 1]);
    }
  }

  /**
    * In every run, drops included, an active listed subscriber has been told GRANTED since it joined exactly if the
    * machine is Acquired; otherwise nobody at all has been told so since.
    */
  lemma GrantsAreReal(single: bool, es: seq<Event>, e: Entry)
    requires e in Run(single, es).subs && !IsInactive(e.sub)
    ensures var m := Run(single, es);
      && (GrantedSince(e, m.log) <==> m.mode == Acquired)
      && (m.mode != Acquired ==> NoGrantSince(e.joined, m.log))
  {
    GrantsAlways(single, es);
    assert GrantOk(Run(single, es), e);
  }

  /**
    * The event in which an entry joined: a subscription of that subscriber, with `joined` the log's length before it.
    */
  ghost predicate JoinedAt(single: bool, es: seq<Event>, e: Entry, n: nat) {
    && n < |es| && es[n].Subscribe? && Clone(es[n].s) == Clone(e.sub)
    && e.joined == |Run(single, es[..n]).log|
    && !Has(ToOne(es[n].s), Run(single, es[..n]).subs)
  }

  lemma UnsubscribeJoinsNobody(m: Machine, k: nat, e: Entry)
    requires k < |m.subs| && e in OnUnsubscribe(m, k).subs
    ensures exists e' :: e' in m.subs && SameEntry(e', e)
  {
    UnsubscribeIsLeave(m, k);
    UnreachedMembers(Notification(ToOne(m.subs[k].sub), RsrcUnsubscribe, true), m.subs);
    if m.mode != Released && WaitsForClose(m.subs[k].sub) {
      var i :| 0 <= i < |m.subs| && Leave(m, k).subs[i] == e;
      assert m.subs[i] in m.subs && SameEntry(m.subs[i], e);
    } else {
      assert SameEntry(e, e);
    }
  }

  lemma RsrcJoinsNobody(m: Machine, status: Status, e: Entry)
    requires e in OnGranted(m).subs || e in OnReleased(m).subs || e in OnDenied(m).subs
    ensures e in m.subs
  {
    UnreachedMembers(Notification(ToAll, RsrcReleased, true), m.subs);
    UnreachedMembers(Notification(ToAll, RsrcDenied, true), m.subs);
    UnreachedMembers(Notification(ToInactive, RsrcReleased, true), m.subs);
    UnreachedMembers(Notification(ToInactive, RsrcDenied, true), m.subs);
  }

  lemma StepJoins(single: bool, m: Machine, ev: Event, e: Entry)
    requires e in Step(single, m, ev).subs
    ensures (exists e' :: e' in m.subs && SameEntry(e', e))
      || (ev.Subscribe? && Clone(ev.s) == Clone(e.sub) && e.joined == |m.log| && !Has(ToOne(ev.s), m.subs))
  {
    assert SameEntry(e, e);
    match ev
    case Unsubscribe(s) =>
      var k := First(ToOne(s), m.subs);
      if k < |m.subs| {
        UnsubscribeJoinsNobody(m, k, e);
      }
    case Rsrc(status) =>
      if status == RsrcGranted || status == RsrcReleased || status == RsrcDenied {
        RsrcJoinsNobody(m, status, e);
      }
    case _ =>
  }

  lemma JoinedBefore(single: bool, init: seq<Event>, ev: Event, e: Entry, e': Entry, n: nat)
    requires JoinedAt(single, init, e', n) && SameEntry(e', e)
    ensures JoinedAt(single, init + [ev], e, n)
  {
    assert (init + [ev])[..n] == init[..n];
  }

  /** Every entry joined in a subscription of the run, when nobody listed matched it. */
  lemma {:induction false} EveryEntryJoined(single: bool, es: seq<Event>, e: Entry)
    requires e in Run(single, es).subs
    ensures exists n :: JoinedAt(single, es, e, n)
  {
    if es != [] {
      var init, ev := es[..|es| - 1], es[|es| - 1];
      var m := Run(single, init);
      assert es == init + [ev];
      StepJoins(single, m, ev, e);
      if e' :| e' in m.subs && SameEntry(e', e) {
        EveryEntryJoined(single, init, e');
        var n :| JoinedAt(single, init, e', n);
        JoinedBefore(single, init, ev, e, e', n);
      } else {
        assert es[..|init|] == init;
        assert JoinedAt(single, es, e, |init|);
      }
    }
  }

  ghost predicate StandsFor(e: Entry, s: Subscriber) {
    !IsInactive(e.sub) && Equals(e.sub, s)
  }

  /**
    * A subscription has an active entry standing for it afterwards exactly when one already did, or nobody listed
    * matched it and it was not denied for being the second: one that comes back while its own entry still waits for
    * the close is dropped without a word.
    */
  lemma SubscriptionTakesEffect(single: bool, m: Machine, s: Subscriber)
    ensures (exists e :: e in Step(single, m, Subscribe(s)).subs && StandsFor(e, s))
      <==> (exists e :: e in m.subs && StandsFor(e, s)) || !(Has(ToOne(s), m.subs) || (single && m.subs != []))
    ensures EmptyWhenReleased(m) && Has(ToOne(s), m.subs) && m.mode != Acquired ==> OnSubscribe(m, s) == m
  {
    var m' := Step(single, m, Subscribe(s));
    if !Has(ToOne(s), m.subs) && !(single && m.subs != []) {
      assert m'.subs[0] in m'.subs && StandsFor(m'.subs[0], s);
    } else {
      assert m'.subs == m.subs;
    }
  }

  ghost predicate StandsAfter(es: seq<Event>, k: nat, m: Machine) {
    k <= |es| && Run(false, es[..k]) == m
  }

  lemma StandsNext(es: seq<Event>, k: nat, m: Machine, m': Machine)
    requires k < |es| && StandsAfter(es, k, m) && Step(false, m, es[k]) == m'
    ensures StandsAfter(es, k + 1, m')
  {
    assert es[..k] + [es[k]] == es[..k + 1];
    RunStep(false, es[..k], es[k]);
  }

  lemma TwoJoin(atl: Subscriber, wifi: Subscriber, one: Machine)
    requires atl == Subscriber(Atl, 1, "", false) && wifi == Subscriber(Wifi, 2, "", false)
    requires one == Machine(Pending, [Entry(atl, 0)], [], [RequestConn])
    ensures Step(false, START, Subscribe(atl)) == one
    ensures Step(false, one, Subscribe(wifi)) == one.(subs := [Entry(wifi, 0), Entry(atl, 0)])
  {}

  lemma WifiWaits(atl: Subscriber, wifi: Subscriber, two: Machine)
    requires two.subs == [Entry(wifi, 0), Entry(atl, 0)] && two.mode == Pending && wifi.kind == Wifi && atl.kind == Atl
    ensures Step(false, two, Unsubscribe(wifi)) == two.(subs := [Entry(SetInactive(wifi), 0), Entry(atl, 0)])
  {
    var waiting := [Entry(SetInactive(wifi), 0), Entry(atl, 0)];
    assert First(ToOne(wifi), two.subs) == 0 && two.subs[0 := waiting[0]] == waiting;
    assert !IsInactive(waiting[1].sub);
    HasActive(waiting);
  }

  lemma WifiIsIgnored(atl: Subscriber, wifi: Subscriber, three: Machine)
    requires three.subs == [Entry(SetInactive(wifi), 0), Entry(atl, 0)] && three.mode == Pending && wifi.kind == Wifi
    ensures Step(false, three, Subscribe(wifi)) == three
  {
    assert First(ToOne(wifi), three.subs) == 0;
  }

  lemma FourSteps(es: seq<Event>, m1: Machine, m2: Machine, m3: Machine, m4: Machine)
    requires |es| == 4 && Step(false, START, es[0]) == m1 && Step(false, m1, es[1]) == m2
    requires Step(false, m2, es[2]) == m3 && Step(false, m3, es[3]) == m4
    ensures Run(false, es) == m4
  {
    assert StandsAfter(es, 0, START);
    StandsNext(es, 0, START, m1);
    StandsNext(es, 1, m1, m2);
    StandsNext(es, 2, m2, m3);
    StandsNext(es, 3, m3, m4);
    assert es[..4] == es;
  }

  /** Such a run: a WIFI subscriber unsubscribes, waits for the close, and subscribes again in vain. */
  lemma ReturningSubscriberIsLost(atl: Subscriber, wifi: Subscriber)
    requires atl == Subscriber(Atl, 1, "", false) && wifi == Subscriber(Wifi, 2, "", false)
    ensures var m := Run(false, [Subscribe(atl), Subscribe(wifi), Unsubscribe(wifi), Subscribe(wifi)]);
      !exists e :: e in m.subs && StandsFor(e, wifi)
  {
    var one := Machine(Pending, [Entry(atl, 0)], [], [RequestConn]);
    var two := one.(subs := [Entry(wifi, 0), Entry(atl, 0)]);
    var three := one.(subs := [Entry(SetInactive(wifi), 0), Entry(atl, 0)]);
    TwoJoin(atl, wifi, one);
    WifiWaits(atl, wifi, two);
    WifiIsIgnored(atl, wifi, three);
    FourSteps([Subscribe(atl), Subscribe(wifi), Unsubscribe(wifi), Subscribe(wifi)], one, two, three, three);
  }
}
