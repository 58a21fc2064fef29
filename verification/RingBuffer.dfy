/**
  * The circular reader of sensor input events. Its buffer has twice the slots it needs: a read may run past the
  * middle, and what lies past it is then copied down to the front.
  */
module RingBuffer {
  import opened Wrappers

  const EINVAL := 22

  /** What the kernel's read gives: an error, or whole events and perhaps a part of one more. */
  datatype ReadResult<T> = ReadError(errno: int) | ReadBytes(events: seq<T>, torn: Option<T>)

  /** The slot of the i-th unread event: positions go round at `n`. */
  function Slot(curr: nat, n: nat, i: nat): nat {
    if curr + i < n then curr + i else if curr + i < 2 * n then curr + i - n else 0
  }

  class InputEventCircularReader<T(0)> {
    const numEvents: nat
    const mBuffer: array<T>
    var mHead: nat
    var mCurr: nat
    var mFreeSpace: nat
    ghost var contents: seq<T>   // the unread events, oldest first

    /**
      * The head lies where the unread events end, give or take one turn; it may rest on the middle of the buffer,
      * where the reader's position never does.
      */
    ghost predicate Positioned()
      reads this
    {
      var end := mCurr + |contents|;
      && mBuffer.Length == 2 * numEvents && |contents| + mFreeSpace == numEvents
      && mHead <= numEvents && (mCurr < numEvents || mCurr == numEvents == 0)
      && (mHead == end || mHead + numEvents == end || mHead == end + numEvents)
    }

    ghost predicate Valid()
      reads this, mBuffer
    {
      && Positioned()
      && forall i :: 0 <= i < |contents| ==> contents[i] == mBuffer[Slot(mCurr, numEvents, i)]
    }

    constructor (numEvents: nat)
      ensures Valid() && contents == [] && this.numEvents == numEvents && fresh(mBuffer)
    {
      this.numEvents := numEvents;
      mBuffer := new T[numEvents * 2];
      mHead, mCurr, mFreeSpace := 0, 0, numEvents;
      contents := [];
    }

    /** The kernel writes what it has into the buffer, from the head on. */
    method Receive(events: seq<T>, torn: Option<T>)
      requires Positioned() && |events| + (if torn == None then 0 else 1) <= mFreeSpace
      modifies mBuffer
      ensures forall i :: 0 <= i < |events| ==> mBuffer[mHead + i] == events[i]
      ensures forall k :: 0 <= k < mHead || mHead + mFreeSpace <= k < mBuffer.Length ==> mBuffer[k] == old(mBuffer[k])
    {
      forall i | 0 <= i < |events| {
        mBuffer[mHead + i] := events[i];
      }
      if torn != None {
        mBuffer[mHead + |events|] := torn.value;
      }
    }

    /** No unread event lies where the next read may write, nor where that may be copied down to. */
    lemma UnreadIsSafe(i: nat)
      requires Positioned() && i < |contents|
      ensures var k := Slot(mCurr, numEvents, i);
        k < numEvents && !(mHead <= k < mHead + mFreeSpace) && !(mHead <= k + numEvents < mHead + mFreeSpace)
    {}

    /** What has come in past the middle moves to the front, and the head with it. */
    method Advance(events: seq<T>)
      requires Valid() && |events| <= mFreeSpace
      requires forall i :: 0 <= i < |events| ==> mBuffer[mHead + i] == events[i]
      modifies this, mBuffer
      ensures Valid() && contents == old(contents) + events
    {
      var numEventsRead := |events|;
      forall i | 0 <= i < |contents|
        ensures Slot(mCurr, numEvents, i) < numEvents
        ensures !(mHead <= Slot(mCurr, numEvents, i) + numEvents < mHead + mFreeSpace)
      {
        UnreadIsSafe(i);
      }
      if numEventsRead > 0 {
        mHead := mHead + numEventsRead;
        mFreeSpace := mFreeSpace - numEventsRead;
        if mHead > numEvents {
          var s := mHead - numEvents;
          forall i | 0 <= i < s {
            mBuffer[i] := mBuffer[numEvents + i];
          }
          mHead := s;
        }
      }
      contents := contents + events;
      forall i | 0 <= i < |contents| ensures contents[i] == mBuffer[Slot(mCurr, numEvents, i)] {
      }
    }

    /** Reads what fits; a negative result is an error, and then the unread events are what they were. */
    method Fill(r: ReadResult<T>) returns (ret: int)
      requires Valid()
      // the kernel writes no more than it was given room for, and its error numbers are positive
      requires r.ReadBytes? ==> |r.events| + (if r.torn == None then 0 else 1) <= mFreeSpace
      requires r.ReadError? ==> r.errno > 0
      modifies this, mBuffer
      ensures Valid()
      ensures old(mFreeSpace) == 0 ==> ret == 0 && contents == old(contents)
      ensures old(mFreeSpace) > 0 && (r.ReadError? || r.torn != None) ==>
        ret == (if r.ReadError? then -r.errno else -EINVAL) && contents == old(contents)
      ensures old(mFreeSpace) > 0 && r.ReadBytes? && r.torn == None ==>
        ret == |r.events| && contents == old(contents) + r.events
    {
      ret := 0;
      if mFreeSpace > 0 {
        match r
        case ReadError(errno) => return -errno;
        case ReadBytes(events, torn) =>
          forall i | 0 <= i < |contents|
            ensures Slot(mCurr, numEvents, i) < mHead || mHead + mFreeSpace <= Slot(mCurr, numEvents, i)
          {
            UnreadIsSafe(i);
          }
          Receive(events, torn);
          if torn != None {
            // a partial event
            return -EINVAL;
          }
          Advance(events);
          return |events|;
      }
    }

    /** Whether there is an unread event, and the first one; the pointer returned is always that of the current slot. */
    method ReadEvent() returns (available: bool, event: Option<T>)
      requires Valid()
      ensures available <==> contents != []
      ensures contents != [] ==> event == Some(contents[0])
    {
      event := if mCurr < mBuffer.Length then Some(mBuffer[mCurr]) else None;
      available := numEvents - mFreeSpace != 0;
    }

    method Next()
      requires Valid() && contents != []
      modifies this
      ensures Valid() && contents == old(contents)[1..]
    {
      mCurr := mCurr + 1;
      mFreeSpace := mFreeSpace + 1;
      if mCurr >= numEvents {
        mCurr := 0;
      }
      contents := contents[1..];
    }
  }
}
