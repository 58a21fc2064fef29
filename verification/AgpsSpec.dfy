/**
  * The AGPS data-connection protocol on values: subscribers, the list they are kept in, and what each event does to a
  * machine.  The list is newest first, as adding at the head leaves it.
  */
module AgpsSpec {

  const INADDR_NONE := 0xFFFF_FFFF

  datatype Kind = Bit | Atl | Wifi

  /** `ip6` is the C string in the address field; only BIT subscribers have one that means anything. */
  datatype Subscriber = Subscriber(kind: Kind, id: nat, ip6: string, inactive: bool)

  /** Identity as the listed subscriber sees it: by ID, and for a BIT subscriber without an IPv4 address by IPv6 too. */
  predicate Equals(self: Subscriber, other: Subscriber) {
    self.id == other.id && (self.kind == Bit && self.id == INADDR_NONE ==> self.ip6 == other.ip6)
  }

  predicate WaitsForClose(s: Subscriber) {
    s.kind == Wifi
  }

  predicate IsInactive(s: Subscriber) {
    s.kind == Wifi && s.inactive
  }

  function SetInactive(s: Subscriber): Subscriber {
    if s.kind == Wifi then s.(inactive := true) else s
  }

  function Clone(s: Subscriber): Subscriber {
    s.(inactive := false)
  }

  datatype Status = RsrcSubscribe | RsrcUnsubscribe | RsrcGranted | RsrcReleased | RsrcDenied | RsrcStatusMax

  datatype Target = ToOne(rcver: Subscriber) | ToAll | ToActive | ToInactive

  datatype Notification = Notification(target: Target, status: Status, postNotifyDelete: bool)

  predicate ForMe(target: Target, s: Subscriber) {
    match target
    case ToOne(rcver) => Equals(s, rcver)
    case ToAll => true
    case ToActive => !IsInactive(s)
    case ToInactive => IsInactive(s)
  }

  /** Whether the notification reaches the subscriber; the two statuses that are not news do not. */
  predicate Reaches(n: Notification, s: Subscriber) {
    ForMe(n.target, s) && n.status != RsrcSubscribe && n.status != RsrcStatusMax
  }

  /** A list entry; `joined` is the length of the log before the event in which it joined. */
  datatype Entry = Entry(sub: Subscriber, joined: nat)

  /** A notification taken; a WIFI subscriber takes UNSUBSCRIBE without passing it on to anybody. */
  datatype Told = Told(sub: Subscriber, status: Status)

  datatype Request = RequestConn | ReleaseConn

  datatype Mode = Released | Pending | Acquired | Releasing

  datatype Machine = Machine(mode: Mode, subs: seq<Entry>, log: seq<Told>, requests: seq<Request>)

  // ----- searches and broadcasts -----

  /** The index of the first entry a target selects, or the length of the list. */
  function First(target: Target, es: seq<Entry>): (k: nat)
    ensures k <= |es| && (k < |es| ==> ForMe(target, es[k].sub))
    ensures forall i :: 0 <= i < k ==> !ForMe(target, es[i].sub)
  {
    if es == [] || ForMe(target, es[0].sub) then 0 else 1 + First(target, es[1..])
  }

  predicate Has(target: Target, es: seq<Entry>) {
    First(target, es) < |es|
  }

  function Reached(n: Notification, es: seq<Entry>): seq<Told> {
    if es == [] then []
    else (if Reaches(n, es[0].sub) then [Told(es[0].sub, n.status)] else []) + Reached(n, es[1..])
  }

  function Unreached(n: Notification, es: seq<Entry>): seq<Entry> {
    if es == [] then [] else (if Reaches(n, es[0].sub) then [] else [es[0]]) + Unreached(n, es[1..])
  }

  /** Tells everyone the notification reaches, and drops them from the list if it says so. */
  function Broadcast(m: Machine, n: Notification): Machine {
    m.(log := m.log + Reached(n, m.subs), subs := if n.postNotifyDelete then Unreached(n, m.subs) else m.subs)
  }

  function Add(m: Machine, s: Subscriber, joined: nat): Machine {
    if Has(ToOne(s), m.subs) then m else m.(subs := [Entry(Clone(s), joined)] + m.subs)
  }

  /** A release is sent only with no active subscriber, a request only with one. */
  function Send(m: Machine, action: Request): Machine {
    if !Has(ToActive, m.subs) == (action == ReleaseConn) then m.(requests := m.requests + [action]) else m
  }

  // ----- transitions -----

  function OnSubscribe(m: Machine, s: Subscriber): Machine {
    match m.mode
    case Released => Send(Add(m, s, |m.log|), RequestConn).(mode := Pending)
    case Acquired => Add(m.(log := m.log + [Told(s, RsrcGranted)]), s, |m.log|)
    case _ => Add(m, s, |m.log|)
  }

  /** The listed subscriber at `k` leaves, or is marked to leave when the connection is closed. */
  function Leave(m: Machine, k: nat): Machine
    requires k < |m.subs|
  {
    var s := m.subs[k].sub;
    if WaitsForClose(s) then m.(subs := m.subs[k := m.subs[k].(sub := SetInactive(s))])
    else Broadcast(m, Notification(ToOne(s), RsrcUnsubscribe, true))
  }

  function OnUnsubscribe(m: Machine, k: nat): Machine
    requires k < |m.subs|
  {
    match m.mode
    case Released => m.(log := m.log + [Told(m.subs[k].sub, RsrcUnsubscribe)])
    case Releasing =>
      var m' := Leave(m, k);
      if m'.subs == [] then m'.(mode := Released) else m'
    case _ =>
      var m' := Leave(m, k);
      if m'.subs == [] then Send(m', ReleaseConn).(mode := Released)
      else if !Has(ToActive, m'.subs) then Send(m', ReleaseConn).(mode := Releasing)
      else m'
  }

  function OnGranted(m: Machine): Machine {
    if m.mode == Pending then Broadcast(m, Notification(ToActive, RsrcGranted, false)).(mode := Acquired) else m
  }

  function Close(m: Machine, status: Status): Machine {
    var m' := Broadcast(m, Notification(ToInactive, status, true));
    if Has(ToActive, m'.subs) then Send(m', RequestConn).(mode := Pending) else m'.(mode := Released)
  }

  function OnReleased(m: Machine): Machine {
    match m.mode
    case Acquired => Broadcast(m, Notification(ToAll, RsrcReleased, true)).(mode := Released)
    case Releasing => Close(m, RsrcReleased)
    case _ => m
  }

  function OnDenied(m: Machine): Machine {
    match m.mode
    case Pending => Broadcast(m, Notification(ToAll, RsrcDenied, true)).(mode := Released)
    case Releasing => Close(m, RsrcDenied)
    case _ => m
  }

  datatype Event = Subscribe(s: Subscriber) | Unsubscribe(s: Subscriber) | Rsrc(status: Status) | DropAll

  /** `single` is the machine's enforce-single-subscriber setting. */
  function Step(single: bool, m: Machine, e: Event): Machine {
    match e
    case Subscribe(s) =>
      if single && m.subs != [] then m.(log := m.log + [Told(s, RsrcDenied)]) else OnSubscribe(m, s)
    case Unsubscribe(s) =>
      var k := First(ToOne(s), m.subs);
      if k < |m.subs| then OnUnsubscribe(m, k) else m
    case Rsrc(status) =>
      (match status
       case RsrcGranted => OnGranted(m)
       case RsrcReleased => OnReleased(m)
       case RsrcDenied => OnDenied(m)
       case _ => m)
    case DropAll => m.(subs := [])
  }

  const START := Machine(Released, [], [], [])

  function Run(single: bool, es: seq<Event>): Machine {
    if es == [] then START else Step(single, Run(single, es[..|es| - 1]), es[|es| - 1])
  }

  ghost predicate NoDrop(es: seq<Event>) {
    forall i :: 0 <= i < |es| ==> es[i] != DropAll
  }
}
