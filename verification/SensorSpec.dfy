/**
  * What the compass sensor makes of its input: axis events change pending readings, and a sync event delivers the
  * pending readings of the enabled sensors, lowest sensor first.
  */
module SensorSpec {

  /** The axis codes that carry data; the accelerometer's are not handled. */
  datatype Code =
    | MagX | MagY | MagZ | MagStatus
    | UncalMagX | UncalMagY | UncalMagZ
    | Yaw | Pitch | Roll
    | RotVecX | RotVecY | RotVecZ | RotVecW
    | OtherCode

  datatype Event = Abs(code: Code, value: int) | Syn | OtherEvent

  const NUM_SENSORS := 5
  const MAGNETIC_FIELD := 1
  const UNCAL_MAGNETIC_FIELD := 2
  const ORIENTATION := 3
  const ROTATION_VECTOR := 4

  const CONVERT_M: real := 0.06
  const CONVERT_OR: real := 1.0 / 64.0
  const CONVERT_RV: real := 1.0 / 16384.0

  /** The data words of a sensor event, the biases of an uncalibrated one, and the status. */
  datatype Reading = Reading(x: real, y: real, z: real, w: real, xBias: real, yBias: real, zBias: real, status: int)

  const NO_READING := Reading(0.0, 0.0, 0.0, 0.0, 0.0, 0.0, 0.0, 0)

  type Readings = s: seq<Reading> | |s| == NUM_SENSORS
    witness [NO_READING, NO_READING, NO_READING, NO_READING, NO_READING]
  type Flags = s: seq<bool> | |s| == NUM_SENSORS witness [false, false, false, false, false]

  const NO_FLAGS: Flags := [false, false, false, false, false]

  /** Which sensors have something to deliver, and the readings. */
  datatype Pending = Pending(mask: Flags, readings: Readings)

  function Set(p: Pending, sensor: nat, r: Reading): Pending
    requires sensor < NUM_SENSORS
  {
    Pending(p.mask[sensor := true], p.readings[sensor := r])
  }

  /**
    * The value is doubled on the wire; halving rounds down. The uncalibrated biases use the calibrated reading of
    * now.
    */
  function Process(p: Pending, code: Code, value: int): Pending {
    var v := (value / 2) as real;
    var m, u := p.readings[MAGNETIC_FIELD], p.readings[UNCAL_MAGNETIC_FIELD];
    var o, q := p.readings[ORIENTATION], p.readings[ROTATION_VECTOR];
    match code
    case MagX => Set(p, MAGNETIC_FIELD, m.(x := v * CONVERT_M))
    case MagY => Set(p, MAGNETIC_FIELD, m.(y := v * CONVERT_M))
    case MagZ => Set(p, MAGNETIC_FIELD, m.(z := v * CONVERT_M))
    case MagStatus => Set(p, MAGNETIC_FIELD, m.(status := value / 2))
    case UncalMagX => Set(p, UNCAL_MAGNETIC_FIELD, u.(x := v * CONVERT_M, xBias := v * CONVERT_M - m.x))
    case UncalMagY => Set(p, UNCAL_MAGNETIC_FIELD, u.(y := v * CONVERT_M, yBias := v * CONVERT_M - m.y))
    case UncalMagZ => Set(p, UNCAL_MAGNETIC_FIELD, u.(z := v * CONVERT_M, zBias := v * CONVERT_M - m.z))
    case Yaw => Set(p, ORIENTATION, o.(x := v * CONVERT_OR))
    case Pitch => Set(p, ORIENTATION, o.(y := v * CONVERT_OR))
    case Roll => Set(p, ORIENTATION, o.(z := v * CONVERT_OR))
    case RotVecX => Set(p, ROTATION_VECTOR, q.(x := v * CONVERT_RV))
    case RotVecY => Set(p, ROTATION_VECTOR, q.(y := v * CONVERT_RV))
    case RotVecZ => Set(p, ROTATION_VECTOR, q.(z := v * CONVERT_RV))
    case RotVecW => Set(p, ROTATION_VECTOR, q.(w := v * CONVERT_RV))
    case OtherCode => p
  }

  // ----- what an axis event means -----

  /** The sensor an axis code belongs to. */
  function SensorOf(code: Code): (sensor: nat)
    requires code != OtherCode
    ensures sensor < NUM_SENSORS
  {
    if code.MagX? || code.MagY? || code.MagZ? || code.MagStatus? then MAGNETIC_FIELD
    else if code.UncalMagX? || code.UncalMagY? || code.UncalMagZ? then UNCAL_MAGNETIC_FIELD
    else if code.Yaw? || code.Pitch? || code.Roll? then ORIENTATION
    else ROTATION_VECTOR
  }

  /** The calibrated axis is what the bias of the uncalibrated one is taken against. */
  predicate GivesBias(cal: Code, uncal: Code) {
    || (cal == MagX && uncal == UncalMagX)
    || (cal == MagY && uncal == UncalMagY)
    || (cal == MagZ && uncal == UncalMagZ)
  }

  /** An axis event makes its own sensor pending and leaves every other sensor's flag and reading alone. */
  lemma ProcessTouchesOneSensor(p: Pending, code: Code, value: int, i: nat)
    requires i < NUM_SENSORS
    ensures var p' := Process(p, code, value);
      if code != OtherCode && i == SensorOf(code) then p'.mask[i]
      else p'.mask[i] == p.mask[i] && p'.readings[i] == p.readings[i]
  {}

  lemma SetTwice(p: Pending, i: nat, a: Reading, b: Reading)
    requires i < NUM_SENSORS
    ensures Set(Set(p, i, a), i, b) == Set(p, i, b)
  {
    assert p.mask[i := true][i := true] == p.mask[i := true] && p.readings[i := a][i := b] == p.readings[i := b];
  }

  lemma SetApart(p: Pending, i: nat, a: Reading, j: nat, b: Reading)
    requires i < NUM_SENSORS && j < NUM_SENSORS && i != j
    ensures Set(Set(p, i, a), j, b) == Set(Set(p, j, b), i, a)
  {
    assert p.mask[i := true][j := true] == p.mask[j := true][i := true];
    assert p.readings[i := a][j := b] == p.readings[j := b][i := a];
  }

  /** Only the latest value of a code counts. */
  lemma LatestValueWins(p: Pending, code: Code, value: int, latest: int)
    ensures Process(Process(p, code, value), code, latest) == Process(p, code, latest)
  {
    if code != OtherCode {
      var p' := Process(p, code, value);
      SetTwice(p, SensorOf(code), p'.readings[SensorOf(code)], Process(p', code, latest).readings[SensorOf(code)]);
    }
  }

  /** The bias of an uncalibrated axis is how far it lies from the calibrated one, as that was last reported. */
  lemma BiasIsDistance(p: Pending, value: int)
    ensures var m := p.readings[MAGNETIC_FIELD];
      && (var u := Process(p, UncalMagX, value).readings[UNCAL_MAGNETIC_FIELD]; u.x - u.xBias == m.x)
      && (var u := Process(p, UncalMagY, value).readings[UNCAL_MAGNETIC_FIELD]; u.y - u.yBias == m.y)
      && (var u := Process(p, UncalMagZ, value).readings[UNCAL_MAGNETIC_FIELD]; u.z - u.zBias == m.z)
  {}

  ghost predicate Commute(p: Pending, c: Code, v: int, d: Code, w: int) {
    Process(Process(p, c, v), d, w) == Process(Process(p, d, w), c, v)
  }

  lemma CommuteApart(p: Pending, c: Code, v: int, d: Code, w: int)
    requires c != OtherCode && d != OtherCode && SensorOf(c) != SensorOf(d) && !GivesBias(c, d) && !GivesBias(d, c)
    ensures Commute(p, c, v, d, w)
  {
    var s, t := SensorOf(c), SensorOf(d);
    var pc, pd := Process(p, c, v), Process(p, d, w);
    assert Process(pc, d, w).readings[t] == pd.readings[t];
    assert Process(pd, c, v).readings[s] == pc.readings[s];
    SetApart(p, s, pc.readings[s], t, pd.readings[t]);
  }

  lemma CommuteWithin(p: Pending, c: Code, v: int, d: Code, w: int)
    requires c != OtherCode && d != OtherCode && SensorOf(c) == SensorOf(d) && c != d
    ensures Commute(p, c, v, d, w)
  {
    var s := SensorOf(c);
    var pc, pd := Process(p, c, v), Process(p, d, w);
    var both := Process(pc, d, w).readings[s];
    assert Process(pd, c, v).readings[s] == both;
    SetTwice(p, s, pc.readings[s], both);
    SetTwice(p, s, pd.readings[s], both);
  }

  lemma OthersCommute(p: Pending, c: Code, v: int, d: Code, w: int)
    requires c != d && !GivesBias(c, d) && !GivesBias(d, c)
    ensures Commute(p, c, v, d, w)
  {
    if c != OtherCode && d != OtherCode {
      if SensorOf(c) == SensorOf(d) {
        CommuteWithin(p, c, v, d, w);
      } else {
        CommuteApart(p, c, v, d, w);
      }
    }
  }

  /** The order of an axis of the calibrated reading and the same axis of the uncalibrated one shows in the bias. */
  lemma BiasDependsOnOrder(cal: Code, uncal: Code)
    requires GivesBias(cal, uncal)
    ensures exists p :: !Commute(p, cal, 2, uncal, 0)
  {
    var p := Pending(NO_FLAGS, [NO_READING, NO_READING, NO_READING, NO_READING, NO_READING]);
    var calFirst, uncalFirst := Process(Process(p, cal, 2), uncal, 0), Process(Process(p, uncal, 0), cal, 2);
    assert calFirst.readings[UNCAL_MAGNETIC_FIELD] != uncalFirst.readings[UNCAL_MAGNETIC_FIELD];
    assert !Commute(p, cal, 2, uncal, 0);
  }

  lemma CommuteBack(c: Code, d: Code)
    requires exists p :: !Commute(p, c, 2, d, 0)
    ensures exists p :: !Commute(p, d, 0, c, 2)
  {
    var p :| !Commute(p, c, 2, d, 0);
    assert !Commute(p, d, 0, c, 2);
  }

  /** Between two syncs the order of two different codes matters exactly if one gives the other its bias. */
  lemma OrderMattersOnlyForBiases(c: Code, d: Code)
    requires c != d
    ensures (forall p, v, w :: Commute(p, c, v, d, w)) <==> !GivesBias(c, d) && !GivesBias(d, c)
  {
    if GivesBias(c, d) {
      BiasDependsOnOrder(c, d);
    } else if GivesBias(d, c) {
      BiasDependsOnOrder(d, c);
      CommuteBack(d, c);
    } else {
      forall p, v, w ensures Commute(p, c, v, d, w) {
        OthersCommute(p, c, v, d, w);
      }
    }
  }

  /** A delivered sensor event without its timestamp. */
  datatype Delivery = Delivery(sensor: nat, reading: Reading)

  /** What a sync event delivers of sensors `j` and up. */
  function FlushFrom(enabled: Flags, p: Pending, j: nat): seq<Delivery>
    requires j <= NUM_SENSORS
    decreases NUM_SENSORS - j
  {
    if j == NUM_SENSORS then []
    else (if p.mask[j] && enabled[j] then [Delivery(j, p.readings[j])] else []) + FlushFrom(enabled, p, j + 1)
  }

  datatype Passed = Passed(out: seq<Delivery>, pending: Pending)

  function Prepend(out: seq<Delivery>, p: Passed): Passed {
    Passed(out + p.out, p.pending)
  }

  /** One unbounded pass over the events. */
  function Pass(enabled: Flags, p: Pending, evs: seq<Event>): Passed
    decreases |evs|
  {
    if evs == [] then Passed([], p)
    else
      match evs[0]
      case Abs(code, value) => Pass(enabled, Process(p, code, value), evs[1..])
      case Syn => Prepend(FlushFrom(enabled, p, 0), Pass(enabled, Pending(NO_FLAGS, p.readings), evs[1..]))
      case OtherEvent => Pass(enabled, p, evs[1..])
  }

  // ----- sync events that are delivered in parts -----

  /** Nothing of sensors below `j` is pending. */
  predicate ClearBelow(mask: Flags, j: nat)
    requires j <= NUM_SENSORS
  {
    forall i :: 0 <= i < j ==> !mask[i]
  }

  lemma {:induction false} FlushSkipsCleared(enabled: Flags, p: Pending, j: nat)
    requires j <= NUM_SENSORS && ClearBelow(p.mask, j)
    ensures FlushFrom(enabled, p, 0) == FlushFrom(enabled, p, j)
  {
    if j > 0 {
      FlushSkipsCleared(enabled, p, j - 1);
      assert FlushFrom(enabled, p, j - 1) == [] + FlushFrom(enabled, p, j);
    }
  }

  lemma {:induction false} FlushAbove(enabled: Flags, p: Pending, p': Pending, j: nat)
    requires j <= NUM_SENSORS && p'.readings == p.readings
    requires forall i :: j <= i < NUM_SENSORS ==> p'.mask[i] == p.mask[i]
    ensures FlushFrom(enabled, p', j) == FlushFrom(enabled, p, j)
    decreases NUM_SENSORS - j
  {
    if j < NUM_SENSORS {
      FlushAbove(enabled, p, p', j + 1);
    }
  }

  /** Clearing the lowest pending sensor takes its delivery off the front. */
  lemma FlushOne(enabled: Flags, p: Pending, j: nat)
    requires j < NUM_SENSORS && ClearBelow(p.mask, j) && p.mask[j]
    ensures var p' := Pending(p.mask[j := false], p.readings);
      && ClearBelow(p'.mask, j + 1)
      && FlushFrom(enabled, p, 0)
         == (if enabled[j] then [Delivery(j, p.readings[j])] else []) + FlushFrom(enabled, p', 0)
  {
    var p' := Pending(p.mask[j := false], p.readings);
    FlushSkipsCleared(enabled, p, j);
    FlushSkipsCleared(enabled, p', j + 1);
    FlushAbove(enabled, p, p', j + 1);
  }

  lemma Regroup(a: seq<Delivery>, b: seq<Delivery>, c: seq<Delivery>)
    ensures a + (b + c) == a + b + c
  {}

  /** The same with what has been delivered before. */
  lemma FlushStep(enabled: Flags, p: Pending, j: nat, data: seq<Delivery>, whole: seq<Delivery>)
    requires j < NUM_SENSORS && ClearBelow(p.mask, j) && p.mask[j] && data + FlushFrom(enabled, p, 0) == whole
    ensures var p' := Pending(p.mask[j := false], p.readings);
      && ClearBelow(p'.mask, j + 1)
      && (data + if enabled[j] then [Delivery(j, p.readings[j])] else []) + FlushFrom(enabled, p', 0) == whole
  {
    var first := if enabled[j] then [Delivery(j, p.readings[j])] else [];
    FlushOne(enabled, p, j);
    Regroup(data, first, FlushFrom(enabled, Pending(p.mask[j := false], p.readings), 0));
  }

  // ----- calls in sequence -----

  lemma {:induction false} PassAppends(enabled: Flags, p: Pending, a: seq<Event>, b: seq<Event>)
    ensures var first := Pass(enabled, p, a);
      Pass(enabled, p, a + b) == Prepend(first.out, Pass(enabled, first.pending, b))
    decreases |a|
  {
    if a == [] {
      assert a + b == b;
    } else {
      assert (a + b)[0] == a[0] && (a + b)[1..] == a[1..] + b;
      match a[0] {
        case Abs(code, value) => PassAppends(enabled, Process(p, code, value), a[1..], b);
        case Syn =>
          var p' := Pending(NO_FLAGS, p.readings);
          PassAppends(enabled, p', a[1..], b);
          var first := Pass(enabled, p', a[1..]);
          var rest := Pass(enabled, first.pending, b);
          Regroup(FlushFrom(enabled, p, 0), first.out, rest.out);
        case OtherEvent => PassAppends(enabled, p, a[1..], b);
      }
    }
  }

  /** The reader between calls: what is pending and what is unread. */
  datatype Reader = Reader(pending: Pending, unread: seq<Event>)

  /** One call: the events it read in, what it delivered, and the reader after it. */
  datatype Call = Call(input: seq<Event>, out: seq<Delivery>, after: Reader)

  /** A call puts off nothing, drops nothing and delivers nothing twice. */
  ghost predicate Faithful(enabled: Flags, before: Reader, c: Call) {
    Pass(enabled, before.pending, before.unread + c.input)
      == Prepend(c.out, Pass(enabled, c.after.pending, c.after.unread))
  }

  /** The reader before the next call. */
  function Last(before: Reader, calls: seq<Call>): Reader {
    if calls == [] then before else calls[|calls| - 1].after
  }

  ghost predicate AllFaithful(enabled: Flags, before: Reader, calls: seq<Call>) {
    calls == [] || (var init := calls[..|calls| - 1];
      AllFaithful(enabled, before, init) && Faithful(enabled, Last(before, init), calls[|calls| - 1]))
  }

  function AllInput(calls: seq<Call>): seq<Event> {
    if calls == [] then [] else AllInput(calls[..|calls| - 1]) + calls[|calls| - 1].input
  }

  function AllOut(calls: seq<Call>): seq<Delivery> {
    if calls == [] then [] else AllOut(calls[..|calls| - 1]) + calls[|calls| - 1].out
  }

  /** One call behind what the earlier ones add up to. */
  lemma CallBehind(enabled: Flags, before: Reader, input: seq<Event>, out: seq<Delivery>, r: Reader, c: Call)
    requires Pass(enabled, before.pending, before.unread + input) == Prepend(out, Pass(enabled, r.pending, r.unread))
    requires Faithful(enabled, r, c)
    ensures Pass(enabled, before.pending, before.unread + (input + c.input))
      == Prepend(out + c.out, Pass(enabled, c.after.pending, c.after.unread))
  {
    var now := Pass(enabled, r.pending, r.unread);
    var later := Pass(enabled, c.after.pending, c.after.unread);
    assert before.unread + (input + c.input) == before.unread + input + c.input;
    PassAppends(enabled, before.pending, before.unread + input, c.input);
    PassAppends(enabled, r.pending, r.unread, c.input);
    Regroup(out, now.out, Pass(enabled, now.pending, c.input).out);
    Regroup(out, c.out, later.out);
  }

  lemma {:induction false} BatchesAddUp(enabled: Flags, before: Reader, calls: seq<Call>)
    requires AllFaithful(enabled, before, calls)
    ensures Pass(enabled, before.pending, before.unread + AllInput(calls))
      == Prepend(AllOut(calls), Pass(enabled, Last(before, calls).pending, Last(before, calls).unread))
  {
    if calls == [] {
      assert before.unread + [] == before.unread;
    } else {
      var init, c := calls[..|calls| - 1], calls[|calls| - 1];
      BatchesAddUp(enabled, before, init);
      CallBehind(enabled, before, AllInput(init), AllOut(init), Last(before, init), c);
    }
  }

  /**
    * Whatever the sizes of the batches and of the reads: what all calls deliver together is a prefix of what one
    * unbounded pass over all input delivers, and all of it once nothing is left unread.
    */
  lemma BatchIndependence(enabled: Flags, before: Reader, calls: seq<Call>)
    requires AllFaithful(enabled, before, calls)
    ensures var whole := Pass(enabled, before.pending, before.unread + AllInput(calls));
      AllOut(calls) <= whole.out && (Last(before, calls).unread == [] ==> AllOut(calls) == whole.out)
  {
    BatchesAddUp(enabled, before, calls);
  }
}
