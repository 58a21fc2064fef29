/**
  * The compass sensor as an object: it reads events through the circular reader and can stop, when the caller's
  * buffer is full, in the middle of a sync event, to go on with the rest in the next call.
  */
module AkmSensor {
  import opened Wrappers
  import opened RingBuffer
  import opened SensorSpec

  /** One call of a caller: how many events it asks for, and what the kernel has for it at that moment. */
  datatype Request = Request(count: int, kernel: ReadResult<Event>)

  /** The kernel writes no more than it is given room for. */
  function Cut(r: ReadResult<Event>, room: nat): ReadResult<Event> {
    if r.ReadBytes? && |r.events| >= room then ReadBytes(r.events[..room], None) else r
  }

  predicate Fails(r: ReadResult<Event>) {
    r.ReadError? || r.torn != None
  }

  /**
    * What a call owes the caller, with `n` the reader's capacity: it is faithful; if it fails it changes nothing;
    * otherwise it takes in what the kernel gives and stops short of the count only with nothing left to read.
    */
  ghost predicate Serves(enabled: Flags, n: nat, before: Reader, q: Request, c: Call) {
    && |before.unread| <= n && Faithful(enabled, before, c)
    && var room: nat := n - |before.unread|;
       var r := Cut(q.kernel, room);
       if q.count < 1 || (room > 0 && Fails(r)) then c == Call([], [], before)
       else
         && c.input == (if room > 0 && r.ReadBytes? then r.events else []) && |c.out| <= q.count
         && (|c.out| < q.count ==> c.after.unread == [])
  }

  ghost predicate AllServed(enabled: Flags, n: nat, before: Reader, qs: seq<Request>, calls: seq<Call>) {
    |calls| == |qs| && forall k :: 0 <= k < |qs| ==> Serves(enabled, n, Last(before, calls[..k]), qs[k], calls[k])
  }

  lemma ServedOn(enabled: Flags, n: nat, before: Reader, qs: seq<Request>, calls: seq<Call>, q: Request, c: Call)
    requires AllServed(enabled, n, before, qs, calls) && Serves(enabled, n, Last(before, calls), q, c)
    ensures AllServed(enabled, n, before, qs + [q], calls + [c])
  {
    forall k | 0 <= k < |qs + [q]|
      ensures Serves(enabled, n, Last(before, (calls + [c])[..k]), (qs + [q])[k], (calls + [c])[k])
    {
      assert (calls + [c])[..k] == calls[..k];
    }
    assert calls[..|calls|] == calls;
  }

  lemma {:induction false} ServedIsFaithful(enabled: Flags, n: nat, before: Reader, qs: seq<Request>, calls: seq<Call>)
    requires AllServed(enabled, n, before, qs, calls)
    ensures AllFaithful(enabled, before, calls)
  {
    if calls != [] {
      var m := |calls| - 1;
      forall k | 0 <= k < m ensures Serves(enabled, n, Last(before, calls[..m][..k]), qs[..m][k], calls[..m][k]) {
        assert calls[..m][..k] == calls[..k];
      }
      ServedIsFaithful(enabled, n, before, qs[..m], calls[..m]);
    }
  }

  lemma NothingIsFaithful(enabled: Flags, before: Reader)
    ensures Faithful(enabled, before, Call([], [], before))
  {
    assert before.unread + [] == before.unread;
    PrependNothing(Pass(enabled, before.pending, before.unread));
  }

  class AkmSensor {
    var mEnabled: Flags
    var mPendingMask: Flags
    const mPendingEvents: array<Reading>
    const mInputReader: InputEventCircularReader<Event>

    ghost predicate Valid()
      reads this, mPendingEvents, mInputReader, mInputReader.mBuffer
    {
      mPendingEvents.Length == NUM_SENSORS && mInputReader.Valid()
    }

    ghost function PendingNow(): Pending
      requires mPendingEvents.Length == NUM_SENSORS
      reads this, mPendingEvents
    {
      Pending(mPendingMask, mPendingEvents[..])
    }

    ghost function ReaderNow(): Reader
      requires mPendingEvents.Length == NUM_SENSORS
      reads this, mPendingEvents, mInputReader
    {
      Reader(PendingNow(), mInputReader.contents)
    }

    constructor ()
      ensures Valid() && ReaderNow() == Reader(Pending(NO_FLAGS, seq(NUM_SENSORS, i => NO_READING)), [])
      ensures mEnabled == NO_FLAGS && mInputReader.numEvents == 32
      ensures fresh(mPendingEvents) && fresh(mInputReader) && fresh(mInputReader.mBuffer)
    {
      mEnabled, mPendingMask := NO_FLAGS, NO_FLAGS;
      mPendingEvents := new Reading[NUM_SENSORS](i => NO_READING);
      mInputReader := new InputEventCircularReader(32);
      new;
      assert mPendingEvents[..] == seq(NUM_SENSORS, i => NO_READING);
    }

    method SetReading(sensor: nat, r: Reading)
      requires mPendingEvents.Length == NUM_SENSORS && sensor < NUM_SENSORS
      modifies this`mPendingMask, mPendingEvents
      ensures PendingNow() == Set(old(PendingNow()), sensor, r)
    {
      mPendingMask := mPendingMask[sensor := true];
      mPendingEvents[sensor] := r;
    }

    method ProcessEvent(code: Code, value: int)
      requires mPendingEvents.Length == NUM_SENSORS
      modifies this`mPendingMask, mPendingEvents
      ensures PendingNow() == Process(old(PendingNow()), code, value)
    {
      var v := (value / 2) as real;
      var m, u := mPendingEvents[MAGNETIC_FIELD], mPendingEvents[UNCAL_MAGNETIC_FIELD];
      var o, q := mPendingEvents[ORIENTATION], mPendingEvents[ROTATION_VECTOR];
      match code
      case MagX => SetReading(MAGNETIC_FIELD, m.(x := v * CONVERT_M));
      case MagY => SetReading(MAGNETIC_FIELD, m.(y := v * CONVERT_M));
      case MagZ => SetReading(MAGNETIC_FIELD, m.(z := v * CONVERT_M));
      case MagStatus => SetReading(MAGNETIC_FIELD, m.(status := value / 2));
      case UncalMagX => SetReading(UNCAL_MAGNETIC_FIELD, u.(x := v * CONVERT_M, xBias := v * CONVERT_M - m.x));
      case UncalMagY => SetReading(UNCAL_MAGNETIC_FIELD, u.(y := v * CONVERT_M, yBias := v * CONVERT_M - m.y));
      case UncalMagZ => SetReading(UNCAL_MAGNETIC_FIELD, u.(z := v * CONVERT_M, zBias := v * CONVERT_M - m.z));
      case Yaw => SetReading(ORIENTATION, o.(x := v * CONVERT_OR));
      case Pitch => SetReading(ORIENTATION, o.(y := v * CONVERT_OR));
      case Roll => SetReading(ORIENTATION, o.(z := v * CONVERT_OR));
      case RotVecX => SetReading(ROTATION_VECTOR, q.(x := v * CONVERT_RV));
      case RotVecY => SetReading(ROTATION_VECTOR, q.(y := v * CONVERT_RV));
      case RotVecZ => SetReading(ROTATION_VECTOR, q.(z := v * CONVERT_RV));
      case RotVecW => SetReading(ROTATION_VECTOR, q.(w := v * CONVERT_RV));
      case OtherCode =>
    }

    /** The delivering loop of a sync event; it stops when the caller's `count` is used up. */
    method FlushPending(count: nat) returns (data: seq<Delivery>)
      requires mPendingEvents.Length == NUM_SENSORS && count > 0
      modifies this`mPendingMask
      ensures |data| <= count && (|data| < count ==> mPendingMask == NO_FLAGS)
      ensures data + FlushFrom(mEnabled, PendingNow(), 0) == FlushFrom(mEnabled, old(PendingNow()), 0)
    {
      data := [];
      ghost var whole := FlushFrom(mEnabled, PendingNow(), 0);
      assert [] + whole == whole;
      var j := 0;
      while |data| < count && mPendingMask != NO_FLAGS && j < NUM_SENSORS
        invariant j <= NUM_SENSORS && |data| <= count && ClearBelow(mPendingMask, j)
        invariant data + FlushFrom(mEnabled, PendingNow(), 0) == whole
      {
        if mPendingMask[j] {
          FlushStep(mEnabled, PendingNow(), j, data, whole);
          mPendingMask := mPendingMask[j := false];
          if mEnabled[j] {
            data := data + [Delivery(j, mPendingEvents[j])];
          } else {
            assert data + [] == data;
          }
        }
        j := j + 1;
      }
    }

    /** What a sync event comes to: the rest of the pass is the same whether it is done with or to be gone on with. */
    method OnSyn(count: nat) returns (data: seq<Delivery>)
      requires Valid() && count > 0 && mInputReader.contents != [] && mInputReader.contents[0] == Syn
      modifies this`mPendingMask, mInputReader
      ensures Valid() && |data| <= count
      ensures ReadOn(mEnabled, old(ReaderNow())) == Prepend(data, ReadOn(mEnabled, ReaderNow()))
      ensures |mInputReader.contents| < |old(mInputReader.contents)|
        || (mInputReader.contents == old(mInputReader.contents) && |data| == count)
    {
      ghost var before := ReaderNow();
      data := FlushPending(count);
      SynFlushed(mEnabled, before, PendingNow(), data);
      if mPendingMask == NO_FLAGS {
        mInputReader.Next();
      }
    }

    /** Negative on an error; otherwise the number of events delivered, which are in `data`. */
    method ReadEvents(count: int, r: ReadResult<Event>) returns (ret: int, data: seq<Delivery>)
      requires Valid()
      requires r.ReadBytes? ==> |r.events| + (if r.torn == None then 0 else 1) <= mInputReader.mFreeSpace
      requires r.ReadError? ==> r.errno > 0
      modifies this`mPendingMask, mPendingEvents, mInputReader, mInputReader.mBuffer
      ensures Valid()
      ensures var fails := old(mInputReader.mFreeSpace) > 0 && (r.ReadError? || r.torn != None);
        if count < 1 then ret == -EINVAL
        else if fails then ret == if r.ReadError? then -r.errno else -EINVAL
        else ret == |data| <= count
      ensures ret < 0 ==> data == [] && ReaderNow() == old(ReaderNow())
      ensures ret >= 0 ==>
        var input := if old(mInputReader.mFreeSpace) > 0 then r.events else [];
        Faithful(mEnabled, old(ReaderNow()), Call(input, data, ReaderNow()))
      ensures ret >= 0 && ret < count ==> mInputReader.contents == []
    {
      data := [];
      if count < 1 {
        return -EINVAL, [];
      }
      var n := mInputReader.Fill(r);
      if n < 0 {
        return n, [];
      }
      ghost var input := if old(mInputReader.mFreeSpace) > 0 then r.events else [];
      assert mInputReader.contents == old(mInputReader.contents) + input;
      ghost var whole := ReadOn(mEnabled, ReaderNow());
      PrependNothing(whole);
      var available, event := mInputReader.ReadEvent();
      while |data| < count && available
        invariant Valid() && |data| <= count
        invariant available <==> mInputReader.contents != []
        invariant available ==> event == Some(mInputReader.contents[0])
        invariant Prepend(data, ReadOn(mEnabled, ReaderNow())) == whole
        decreases |mInputReader.contents|, count - |data|
      {
        ghost var before, done := ReaderNow(), data;
        match event.value {
          case Abs(code, value) =>
            ProcessEvent(code, value);
            mInputReader.Next();
          case Syn =>
            var more := OnSyn(count - |data|);
            data := data + more;
            PrependTwice(done, more, ReadOn(mEnabled, ReaderNow()));
          case OtherEvent =>
            mInputReader.Next();
        }
        available, event := mInputReader.ReadEvent();
      }
      ret := |data|;
    }

    /** One call, cut to the room there is, on record. */
    method Serve(q: Request) returns (ghost call: Call, input: seq<Event>, data: seq<Delivery>)
      requires Valid() && (q.kernel.ReadError? ==> q.kernel.errno > 0)
      modifies this`mPendingMask, mPendingEvents, mInputReader, mInputReader.mBuffer
      ensures Valid() && call == Call(input, data, ReaderNow())
      ensures Serves(mEnabled, mInputReader.numEvents, old(ReaderNow()), q, call)
    {
      var room := mInputReader.mFreeSpace;
      ghost var before := ReaderNow();
      var r := Cut(q.kernel, room);
      var ret;
      NothingIsFaithful(mEnabled, before);
      ret, data := ReadEvents(q.count, r);
      input := if ret >= 0 && room > 0 && r.ReadBytes? then r.events else [];
      call := Call(input, data, ReaderNow());
    }

    /**
      * Any sequence of calls, whatever each asks for and whatever the kernel gives it: all they deliver is a prefix of
      * what one unbounded pass over all input taken in delivers, and all of it once nothing is left unread.
      */
    method ReadInTurn(qs: seq<Request>) returns (ghost calls: seq<Call>, input: seq<Event>, data: seq<Delivery>)
      requires Valid() && forall k :: 0 <= k < |qs| && qs[k].kernel.ReadError? ==> qs[k].kernel.errno > 0
      modifies this`mPendingMask, mPendingEvents, mInputReader, mInputReader.mBuffer
      ensures Valid() && input == AllInput(calls) && data == AllOut(calls)
      ensures AllServed(mEnabled, mInputReader.numEvents, old(ReaderNow()), qs, calls)
      ensures Last(old(ReaderNow()), calls) == ReaderNow()
      ensures var whole := Pass(mEnabled, old(PendingNow()), old(mInputReader.contents) + input);
        data <= whole.out && (mInputReader.contents == [] ==> data == whole.out)
    {
      calls, input, data := [], [], [];
      ghost var before := ReaderNow();
      var k := 0;
      while k < |qs|
        invariant k <= |qs| && Valid() && input == AllInput(calls) && data == AllOut(calls)
        invariant Last(before, calls) == ReaderNow()
        invariant AllServed(mEnabled, mInputReader.numEvents, before, qs[..k], calls)
      {
        ghost var call;
        var more, out;
        call, more, out := Serve(qs[k]);
        ServedOn(mEnabled, mInputReader.numEvents, before, qs[..k], calls, qs[k], call);
        assert qs[..k] + [qs[k]] == qs[..k + 1] && (calls + [call])[..|calls|] == calls;
        calls, input, data := calls + [call], input + more, data + out;
        k := k + 1;
      }
      assert qs[..k] == qs;
      ServedIsFaithful(mEnabled, mInputReader.numEvents, before, qs, calls);
      BatchIndependence(mEnabled, before, calls);
    }
  }

  /** What is still to come of the events that are unread. */
  ghost function ReadOn(enabled: Flags, r: Reader): Passed {
    Pass(enabled, r.pending, r.unread)
  }

  lemma PrependNothing(p: Passed)
    ensures Prepend([], p) == p
  {}

  lemma PrependTwice(a: seq<Delivery>, b: seq<Delivery>, p: Passed)
    ensures Prepend(a, Prepend(b, p)) == Prepend(a + b, p)
  {
    assert a + (b + p.out) == a + b + p.out;
  }

  lemma PassOfSyn(enabled: Flags, p: Pending, evs: seq<Event>)
    requires evs != [] && evs[0] == Syn
    ensures Pass(enabled, p, evs)
      == Prepend(FlushFrom(enabled, p, 0), Pass(enabled, Pending(NO_FLAGS, p.readings), evs[1..]))
  {}

  lemma SynFlushed(enabled: Flags, before: Reader, p: Pending, data: seq<Delivery>)
    requires before.unread != [] && before.unread[0] == Syn && p.readings == before.pending.readings
    requires data + FlushFrom(enabled, p, 0) == FlushFrom(enabled, before.pending, 0)
    ensures ReadOn(enabled, before) == Prepend(data, ReadOn(enabled, Reader(p, before.unread)))
    ensures p.mask == NO_FLAGS ==>
      ReadOn(enabled, before) == Prepend(data, ReadOn(enabled, Reader(p, before.unread[1..])))
  {
    PassOfSyn(enabled, before.pending, before.unread);
    PassOfSyn(enabled, p, before.unread);
    var rest := Pass(enabled, Pending(NO_FLAGS, p.readings), before.unread[1..]);
    PrependTwice(data, FlushFrom(enabled, p, 0), rest);
    if p.mask == NO_FLAGS {
      FlushSkipsCleared(enabled, p, NUM_SENSORS);
      PrependNothing(rest);
    }
  }
}
