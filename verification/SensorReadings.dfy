/**
  * What one pass leaves pending and what it delivers, read off the events themselves: each field of a reading is the
  * latest value of the code that belongs to it, and a sync event delivers the enabled sensors heard of since the last.
  */
module SensorReadings {
  import opened SensorSpec

  /** The position of the last event of a code, or -1. */
  function LastAt(evs: seq<Event>, code: Code): (k: int)
    ensures -1 <= k < |evs| && (k >= 0 ==> evs[k].Abs? && evs[k].code == code)
    ensures forall i :: k < i < |evs| ==> !(evs[i].Abs? && evs[i].code == code)
  {
    if evs == [] then -1
    else if evs[|evs| - 1].Abs? && evs[|evs| - 1].code == code then |evs| - 1
    else LastAt(evs[..|evs| - 1], code)
  }

  // Values are doubled on the wire; these are the units of the magnetic field, of angles and of the rotation vector.

  function Microtesla(value: int): real { (value / 2) as real * 0.06 }

  function Degrees(value: int): real { (value / 2) as real / 64.0 }

  function Unitless(value: int): real { (value / 2) as real / 16384.0 }

  /** The latest value of a code in its unit, or what there was before. */
  function Latest(before: real, evs: seq<Event>, code: Code, unit: int -> real): real {
    var k := LastAt(evs, code);
    if k < 0 then before else unit(evs[k].value)
  }

  /** The latest value of an uncalibrated axis less the calibrated one as it stood at that event. */
  function LatestBias(before: real, calBefore: real, evs: seq<Event>, uncal: Code, cal: Code): real {
    var k := LastAt(evs, uncal);
    if k < 0 then before else Microtesla(evs[k].value) - Latest(calBefore, evs[..k], cal, Microtesla)
  }

  ghost predicate MagneticIs(r: Reading, r': Reading, evs: seq<Event>) {
    var k := LastAt(evs, MagStatus);
    && r'.x == Latest(r.x, evs, MagX, Microtesla)
    && r'.y == Latest(r.y, evs, MagY, Microtesla)
    && r'.z == Latest(r.z, evs, MagZ, Microtesla)
    && r'.status == (if k < 0 then r.status else evs[k].value / 2)
    && r'.w == r.w && r'.xBias == r.xBias && r'.yBias == r.yBias && r'.zBias == r.zBias
  }

  /** `cal` is the calibrated reading before the events. */
  ghost predicate UncalibratedIs(r: Reading, r': Reading, cal: Reading, evs: seq<Event>) {
    && r'.x == Latest(r.x, evs, UncalMagX, Microtesla)
    && r'.y == Latest(r.y, evs, UncalMagY, Microtesla)
    && r'.z == Latest(r.z, evs, UncalMagZ, Microtesla)
    && r'.xBias == LatestBias(r.xBias, cal.x, evs, UncalMagX, MagX)
    && r'.yBias == LatestBias(r.yBias, cal.y, evs, UncalMagY, MagY)
    && r'.zBias == LatestBias(r.zBias, cal.z, evs, UncalMagZ, MagZ)
    && r'.w == r.w && r'.status == r.status
  }

  /** Azimuth, pitch and roll. */
  ghost predicate OrientationIs(r: Reading, r': Reading, evs: seq<Event>) {
    && r'.x == Latest(r.x, evs, Yaw, Degrees)
    && r'.y == Latest(r.y, evs, Pitch, Degrees)
    && r'.z == Latest(r.z, evs, Roll, Degrees)
    && r' == r.(x := r'.x, y := r'.y, z := r'.z)
  }

  ghost predicate RotationIs(r: Reading, r': Reading, evs: seq<Event>) {
    && r'.x == Latest(r.x, evs, RotVecX, Unitless)
    && r'.y == Latest(r.y, evs, RotVecY, Unitless)
    && r'.z == Latest(r.z, evs, RotVecZ, Unitless)
    && r'.w == Latest(r.w, evs, RotVecW, Unitless)
    && r' == r.(x := r'.x, y := r'.y, z := r'.z, w := r'.w)
  }

  /** What a pass has pending in the end. */
  function Left(enabled: Flags, p: Pending, evs: seq<Event>): Pending {
    Pass(enabled, p, evs).pending
  }

  /** The last event of a pass, taken by itself. */
  lemma LastEvent(enabled: Flags, p: Pending, evs: seq<Event>, e: Event)
    ensures var before, after := Pass(enabled, p, evs), Pass(enabled, p, evs + [e]);
      && after.pending == (match e
           case Abs(code, value) => Process(before.pending, code, value)
           case Syn => Pending(NO_FLAGS, before.pending.readings)
           case OtherEvent => before.pending)
      && after.out == before.out + (if e == Syn then FlushFrom(enabled, before.pending, 0) else [])
  {
    var before := Pass(enabled, p, evs);
    PassAppends(enabled, p, evs, [e]);
    assert [e][1..] == [];
    match e
    case Abs(code, value) => assert Pass(enabled, before.pending, [e]).out == [];
    case Syn =>
      assert FlushFrom(enabled, before.pending, 0) + [] == FlushFrom(enabled, before.pending, 0);
    case OtherEvent => assert Pass(enabled, before.pending, [e]).out == [];
  }

  lemma LastAtOn(evs: seq<Event>, e: Event, code: Code)
    ensures LastAt(evs + [e], code) == if e.Abs? && e.code == code then |evs| else LastAt(evs, code)
  {
    assert (evs + [e])[..|evs|] == evs;
  }

  lemma LatestOn(before: real, evs: seq<Event>, e: Event, code: Code, unit: int -> real)
    ensures Latest(before, evs + [e], code, unit)
      == if e.Abs? && e.code == code then unit(e.value) else Latest(before, evs, code, unit)
  {
    LastAtOn(evs, e, code);
  }

  lemma LatestBiasOn(before: real, calBefore: real, evs: seq<Event>, e: Event, uncal: Code, cal: Code)
    ensures LatestBias(before, calBefore, evs + [e], uncal, cal)
      == if e.Abs? && e.code == uncal then Microtesla(e.value) - Latest(calBefore, evs, cal, Microtesla)
         else LatestBias(before, calBefore, evs, uncal, cal)
  {
    LastAtOn(evs, e, uncal);
    var k := LastAt(evs + [e], uncal);
    if k >= 0 {
      assert (evs + [e])[..k] == evs[..k];
    }
    assert evs[..|evs|] == evs;
  }

  // What one event makes of the axes of each sensor, code by code.

  ghost predicate MagneticStep(m: Reading, m': Reading, e: Event) {
    m' == if !e.Abs? then m else match e.code
      case MagX => m.(x := Microtesla(e.value))
      case MagY => m.(y := Microtesla(e.value))
      case MagZ => m.(z := Microtesla(e.value))
      case MagStatus => m.(status := e.value / 2)
      case _ => m
  }

  ghost predicate UncalibratedStep(m: Reading, u: Reading, u': Reading, e: Event) {
    u' == if !e.Abs? then u else match e.code
      case UncalMagX => u.(x := Microtesla(e.value), xBias := Microtesla(e.value) - m.x)
      case UncalMagY => u.(y := Microtesla(e.value), yBias := Microtesla(e.value) - m.y)
      case UncalMagZ => u.(z := Microtesla(e.value), zBias := Microtesla(e.value) - m.z)
      case _ => u
  }

  ghost predicate OrientationStep(o: Reading, o': Reading, e: Event) {
    o' == if !e.Abs? then o else match e.code
      case Yaw => o.(x := Degrees(e.value))
      case Pitch => o.(y := Degrees(e.value))
      case Roll => o.(z := Degrees(e.value))
      case _ => o
  }

  ghost predicate RotationStep(q: Reading, q': Reading, e: Event) {
    q' == if !e.Abs? then q else match e.code
      case RotVecX => q.(x := Unitless(e.value))
      case RotVecY => q.(y := Unitless(e.value))
      case RotVecZ => q.(z := Unitless(e.value))
      case RotVecW => q.(w := Unitless(e.value))
      case _ => q
  }

  lemma OneEvent(p: Pending, p': Pending, e: Event)
    requires if e.Abs? then p' == Process(p, e.code, e.value) else p'.readings == p.readings
    ensures p'.readings[0] == p.readings[0]
    ensures MagneticStep(p.readings[MAGNETIC_FIELD], p'.readings[MAGNETIC_FIELD], e)
    ensures UncalibratedStep(p.readings[MAGNETIC_FIELD], p.readings[UNCAL_MAGNETIC_FIELD],
                             p'.readings[UNCAL_MAGNETIC_FIELD], e)
    ensures OrientationStep(p.readings[ORIENTATION], p'.readings[ORIENTATION], e)
    ensures RotationStep(p.readings[ROTATION_VECTOR], p'.readings[ROTATION_VECTOR], e)
  {}

  lemma MagneticOn(r: Reading, m: Reading, m': Reading, evs: seq<Event>, e: Event)
    requires MagneticIs(r, m, evs) && MagneticStep(m, m', e)
    ensures MagneticIs(r, m', evs + [e])
  {
    LatestOn(r.x, evs, e, MagX, Microtesla);
    LatestOn(r.y, evs, e, MagY, Microtesla);
    LatestOn(r.z, evs, e, MagZ, Microtesla);
    LastAtOn(evs, e, MagStatus);
  }

  lemma UncalibratedOn(r: Reading, u: Reading, u': Reading, cal: Reading, m: Reading, evs: seq<Event>, e: Event)
    requires UncalibratedIs(r, u, cal, evs) && MagneticIs(cal, m, evs) && UncalibratedStep(m, u, u', e)
    ensures UncalibratedIs(r, u', cal, evs + [e])
  {
    LatestOn(r.x, evs, e, UncalMagX, Microtesla);
    LatestOn(r.y, evs, e, UncalMagY, Microtesla);
    LatestOn(r.z, evs, e, UncalMagZ, Microtesla);
    LatestBiasOn(r.xBias, cal.x, evs, e, UncalMagX, MagX);
    LatestBiasOn(r.yBias, cal.y, evs, e, UncalMagY, MagY);
    LatestBiasOn(r.zBias, cal.z, evs, e, UncalMagZ, MagZ);
  }

  lemma OrientationOn(r: Reading, o: Reading, o': Reading, evs: seq<Event>, e: Event)
    requires OrientationIs(r, o, evs) && OrientationStep(o, o', e)
    ensures OrientationIs(r, o', evs + [e])
  {
    LatestOn(r.x, evs, e, Yaw, Degrees);
    LatestOn(r.y, evs, e, Pitch, Degrees);
    LatestOn(r.z, evs, e, Roll, Degrees);
  }

  lemma RotationOn(r: Reading, q: Reading, q': Reading, evs: seq<Event>, e: Event)
    requires RotationIs(r, q, evs) && RotationStep(q, q', e)
    ensures RotationIs(r, q', evs + [e])
  {
    LatestOn(r.x, evs, e, RotVecX, Unitless);
    LatestOn(r.y, evs, e, RotVecY, Unitless);
    LatestOn(r.z, evs, e, RotVecZ, Unitless);
    LatestOn(r.w, evs, e, RotVecW, Unitless);
  }

  /** All five readings; the accelerometer's never changes. */
  ghost predicate ReadingsAre(before: Readings, after: Readings, evs: seq<Event>) {
    && after[0] == before[0]
    && MagneticIs(before[MAGNETIC_FIELD], after[MAGNETIC_FIELD], evs)
    && UncalibratedIs(before[UNCAL_MAGNETIC_FIELD], after[UNCAL_MAGNETIC_FIELD], before[MAGNETIC_FIELD], evs)
    && OrientationIs(before[ORIENTATION], after[ORIENTATION], evs)
    && RotationIs(before[ROTATION_VECTOR], after[ROTATION_VECTOR], evs)
  }

  /**
    * After any events each field of each reading is the latest value of that field's own code, halved and in its unit,
    * or what it was if there was none; a bias is taken against the calibrated axis as it stood then; nothing else
    * changes.
    */
  lemma {:induction false} ReadingsAreLatest(enabled: Flags, p: Pending, evs: seq<Event>)
    ensures ReadingsAre(p.readings, Left(enabled, p, evs).readings, evs)
  {
    if evs != [] {
      var init, e := evs[..|evs| - 1], evs[|evs| - 1];
      ReadingsAreLatest(enabled, p, init);
      assert evs == init + [e];
      LastEvent(enabled, p, init, e);
      ReadingsOn(p.readings, init, e, Left(enabled, p, init), Left(enabled, p, evs));
    }
  }

  lemma ReadingsOn(before: Readings, evs: seq<Event>, e: Event, p: Pending, p': Pending)
    requires ReadingsAre(before, p.readings, evs)
    requires if e.Abs? then p' == Process(p, e.code, e.value) else p'.readings == p.readings
    ensures ReadingsAre(before, p'.readings, evs + [e])
  {
    var m, u, o, q := MAGNETIC_FIELD, UNCAL_MAGNETIC_FIELD, ORIENTATION, ROTATION_VECTOR;
    OneEvent(p, p', e);
    MagneticOn(before[m], p.readings[m], p'.readings[m], evs, e);
    UncalibratedOn(before[u], p.readings[u], p'.readings[u], before[m], p.readings[m], evs, e);
    OrientationOn(before[o], p.readings[o], p'.readings[o], evs, e);
    RotationOn(before[q], p.readings[q], p'.readings[q], evs, e);
  }

  // ----- what is pending, and what is delivered -----

  /** An event of one of the sensor's codes. */
  predicate Concerns(e: Event, sensor: nat) {
    e.Abs? && match e.code
      case MagX => sensor == 1
      case MagY => sensor == 1
      case MagZ => sensor == 1
      case MagStatus => sensor == 1
      case UncalMagX => sensor == 2
      case UncalMagY => sensor == 2
      case UncalMagZ => sensor == 2
      case Yaw => sensor == 3
      case Pitch => sensor == 3
      case Roll => sensor == 3
      case RotVecX => sensor == 4
      case RotVecY => sensor == 4
      case RotVecZ => sensor == 4
      case RotVecW => sensor == 4
      case OtherCode => false
  }

  /** Heard of since the last sync event, or before all events and there has been none since. */
  ghost predicate HeardOf(before: Flags, evs: seq<Event>, sensor: nat)
    requires sensor < NUM_SENSORS
  {
    if evs == [] then before[sensor]
    else
      var e := evs[|evs| - 1];
      e != Syn && (Concerns(e, sensor) || HeardOf(before, evs[..|evs| - 1], sensor))
  }

  lemma ConcernsMarks(p: Pending, code: Code, value: int, sensor: nat)
    requires sensor < NUM_SENSORS
    ensures Process(p, code, value).mask[sensor] <==> Concerns(Abs(code, value), sensor) || p.mask[sensor]
  {}

  lemma {:induction false} PendingIsHeardOf(enabled: Flags, p: Pending, evs: seq<Event>, sensor: nat)
    requires sensor < NUM_SENSORS
    ensures Left(enabled, p, evs).mask[sensor] <==> HeardOf(p.mask, evs, sensor)
  {
    if evs != [] {
      var init, e := evs[..|evs| - 1], evs[|evs| - 1];
      PendingIsHeardOf(enabled, p, init, sensor);
      assert evs == init + [e];
      LastEvent(enabled, p, init, e);
      if e.Abs? {
        ConcernsMarks(Left(enabled, p, init), e.code, e.value, sensor);
      }
    }
  }

  predicate IsDue(enabled: Flags, p: Pending, j: nat, s: nat) {
    j <= s < NUM_SENSORS && p.mask[s] && enabled[s]
  }

  ghost predicate IsDelivered(out: seq<Delivery>, s: nat) {
    exists i :: 0 <= i < |out| && out[i].sensor == s
  }

  ghost predicate Ascending(out: seq<Delivery>) {
    forall i, k :: 0 <= i < k < |out| ==> out[i].sensor < out[k].sensor
  }

  /** The deliveries of the sensors from `j` on that are pending and enabled, each once, lowest first. */
  ghost predicate DeliversFrom(out: seq<Delivery>, enabled: Flags, p: Pending, j: nat) {
    && Ascending(out)
    && (forall i :: 0 <= i < |out| ==>
          IsDue(enabled, p, j, out[i].sensor) && out[i].reading == p.readings[out[i].sensor])
    && (forall s :: IsDue(enabled, p, j, s) ==> IsDelivered(out, s))
  }

  lemma DeliversOneMore(out: seq<Delivery>, d: Delivery, enabled: Flags, p: Pending, j: nat)
    requires DeliversFrom(out, enabled, p, j + 1)
    requires d.sensor == j && IsDue(enabled, p, j, j) && d.reading == p.readings[j]
    ensures DeliversFrom([d] + out, enabled, p, j)
  {
    var all := [d] + out;
    assert all[0] == d && forall i :: 0 < i < |all| ==> all[i] == out[i - 1];
    forall s | IsDue(enabled, p, j, s) ensures IsDelivered(all, s) {
      if s == j {
        assert all[0].sensor == s;
      } else {
        assert IsDue(enabled, p, j + 1, s);
        var i :| 0 <= i < |out| && out[i].sensor == s;
        assert all[i + 1].sensor == s;
      }
    }
  }

  lemma DeliversNoMore(out: seq<Delivery>, enabled: Flags, p: Pending, j: nat)
    requires DeliversFrom(out, enabled, p, j + 1) && !IsDue(enabled, p, j, j)
    ensures DeliversFrom(out, enabled, p, j)
  {
    forall s | IsDue(enabled, p, j, s) ensures IsDelivered(out, s) {
      assert IsDue(enabled, p, j + 1, s);
    }
  }

  lemma {:induction false} FlushDelivers(enabled: Flags, p: Pending, j: nat)
    requires j <= NUM_SENSORS
    ensures DeliversFrom(FlushFrom(enabled, p, j), enabled, p, j)
    decreases NUM_SENSORS - j
  {
    if j < NUM_SENSORS {
      FlushDelivers(enabled, p, j + 1);
      var rest := FlushFrom(enabled, p, j + 1);
      if IsDue(enabled, p, j, j) {
        DeliversOneMore(rest, Delivery(j, p.readings[j]), enabled, p, j);
      } else {
        DeliversNoMore(rest, enabled, p, j);
        assert [] + rest == rest;
      }
    }
  }

  /**
    * Over any events: a sync event delivers, lowest sensor first and once each, exactly the enabled sensors heard of
    * since the last one, with their readings of the moment; no other event delivers anything.
    */
  lemma SyncDeliversHeardOf(enabled: Flags, p: Pending, evs: seq<Event>, e: Event)
    ensures var before, after := Pass(enabled, p, evs), Pass(enabled, p, evs + [e]);
      && before.out <= after.out
      && var more := after.out[|before.out|..];
         if e == Syn then DeliversFrom(more, enabled, before.pending, 0) else more == []
    ensures forall s :: 0 <= s < NUM_SENSORS ==> (Left(enabled, p, evs).mask[s] <==> HeardOf(p.mask, evs, s))
  {
    LastEvent(enabled, p, evs, e);
    var before := Pass(enabled, p, evs);
    var flushed := FlushFrom(enabled, before.pending, 0);
    FlushDelivers(enabled, before.pending, 0);
    assert (before.out + flushed)[|before.out|..] == flushed;
    forall s | 0 <= s < NUM_SENSORS ensures Left(enabled, p, evs).mask[s] <==> HeardOf(p.mask, evs, s) {
      PendingIsHeardOf(enabled, p, evs, s);
    }
  }

  /** An event of another type, or of another axis, changes nothing at all. */
  lemma UnknownChangesNothing(enabled: Flags, p: Pending, evs: seq<Event>, value: int)
    ensures Pass(enabled, p, evs + [OtherEvent]) == Pass(enabled, p, evs)
    ensures Pass(enabled, p, evs + [Abs(OtherCode, value)]) == Pass(enabled, p, evs)
  {
    LastEvent(enabled, p, evs, OtherEvent);
    LastEvent(enabled, p, evs, Abs(OtherCode, value));
  }
}
