/**
  * The doubly linked list under the message queue and the subscriber list: added to at the head, taken from at the
  * tail, searched from the head with or without removal. Everything is done by rewriting links in place.
  */
module LinkedList {
  import opened Wrappers

  datatype ListError = Success | InvalidParameter | UnavailableResource

  class Element<T> {
    var next: Element?<T>
    var prev: Element?<T>
    var data: T
    var dealloc: bool   // whether the list owns the data and frees it

    constructor (data: T, dealloc: bool)
      ensures this.data == data && this.dealloc == dealloc && next == null && prev == null
    {
      this.data, this.dealloc, next, prev := data, dealloc, null, null;
    }
  }

  class List<T> {
    var head: Element?<T>
    var tail: Element?<T>
    var freed: seq<T>                      // what the deallocation function has been called on, in order
    ghost var spine: seq<Element<T>>       // the elements from head to tail
    ghost var contents: seq<T>             // their data
    ghost var owned: seq<bool>             // and whether each is freed with the list

    ghost predicate Valid()
      reads this, spine
    {
      && |contents| == |owned| == |spine|
      && head == Node(0) && tail == Node(|spine| - 1)
      && (forall i, j :: 0 <= i < j < |spine| ==> spine[i] != spine[j])
      && (forall i :: 0 <= i < |spine| ==> Linked(i))
    }

    /** The element at a position, or null off either end. */
    ghost function Node(i: int): Element?<T>
      reads this`spine
    {
      if 0 <= i < |spine| then spine[i] else null
    }

    ghost predicate Linked(i: nat)
      requires i < |spine| && |contents| == |owned| == |spine|
      reads this`spine, this`contents, this`owned, spine
    {
      && spine[i].next == Node(i + 1) && spine[i].prev == Node(i - 1)
      && spine[i].data == contents[i] && spine[i].dealloc == owned[i]
    }

    constructor ()
      ensures Valid() && contents == [] && freed == []
    {
      head, tail, freed := null, null, [];
      spine, contents, owned := [], [], [];
    }

    method Empty() returns (b: bool)
      requires Valid()
      ensures b <==> contents == []
    {
      b := head == null;
    }

    /** Puts data at the head; NULL data is refused. */
    method Add(dataObj: Option<T>, dealloc: bool) returns (err: ListError)
      requires Valid()
      modifies this, spine
      ensures Valid() && freed == old(freed) && forall e :: e in spine ==> e in old(spine) || fresh(e)
      ensures dataObj == None ==> err == InvalidParameter && contents == old(contents) && owned == old(owned)
      ensures dataObj != None ==>
        err == Success && contents == [dataObj.value] + old(contents) && owned == [dealloc] + old(owned)
    {
      if dataObj == None {
        return InvalidParameter;
      }
      var elem := new Element(dataObj.value, dealloc);
      ghost var old_spine := spine;
      assert old_spine != [] ==> Linked(0);
      var tmp := head;
      head := elem;
      head.next := tmp;
      if tmp != null {
        tmp.prev := head;
      } else {
        tail := head;
      }
      spine, contents, owned := [elem] + spine, [dataObj.value] + contents, [dealloc] + owned;
      forall i | 0 <= i < |spine| ensures Linked(i) {
        if i > 0 {
          assert old(Linked(i - 1)) && spine[i] == old_spine[i - 1];
        }
      }
      return Success;
    }

    /** Takes the data at the tail. */
    method Remove() returns (err: ListError, dataObj: Option<T>)
      requires Valid()
      modifies this, spine
      ensures Valid() && freed == old(freed)
      ensures old(contents) == [] ==> err == UnavailableResource && dataObj == None && contents == []
      ensures old(contents) != [] ==>
        var n := |old(contents)| - 1;
        err == Success && dataObj == Some(old(contents)[n]) && contents == old(contents)[..n]
          && owned == old(owned)[..n]
      ensures forall e :: e in spine ==> e in old(spine)
    {
      if tail == null {
        return UnavailableResource, None;
      }
      ghost var n := |spine| - 1;
      assert Linked(n) && (n > 0 ==> Linked(n - 1));
      var tmp := tail;
      tail := tmp.prev;
      if tail != null {
        tail.next := null;
      } else {
        head := tail;
      }
      dataObj := Some(tmp.data);
      spine, contents, owned := spine[..n], contents[..n], owned[..n];
      forall i | 0 <= i < |spine| ensures Linked(i) {
        assert old(Linked(i));
      }
      return Success, dataObj;
    }

    /** Empties the list from the head on, freeing the data that is owned. */
    method Flush()
      requires Valid()
      modifies this
      ensures Valid() && contents == [] && spine == [] && freed == old(freed) + Owned(old(contents), old(owned))
    {
      ghost var k := 0;
      while head != null
        invariant k <= |spine| && spine == old(spine) && contents == old(contents) && owned == old(owned)
        invariant |contents| == |owned| == |spine| && head == Node(k)
        invariant forall i :: 0 <= i < |spine| ==> Linked(i)
        invariant freed + Owned(contents[k..], owned[k..]) == old(freed) + Owned(contents, owned)
        decreases |spine| - k
      {
        assert Linked(k);
        assert contents[k..][1..] == contents[k + 1..] && owned[k..][1..] == owned[k + 1..];
        var tmp := head.next;
        if head.dealloc {
          freed := freed + [head.data];
        }
        head := tmp;
        k := k + 1;
      }
      tail := null;
      spine, contents, owned := [], [], [];
    }

    /**
      * Applies `equal` from the head on until it holds. The element found is copied out if the caller asks for it; on
      * removal it is unlinked, and freed only if it was not copied out. An empty list leaves `dataP` as it was.
      */
    method Search(equal: T -> bool, wantsData: bool, dataP: Option<T>, rmIfFound: bool)
      returns (err: ListError, found: Option<T>, tried: seq<T>)
      requires Valid()
      modifies this, spine
      ensures Valid() && forall e :: e in spine ==> e in old(spine)
      ensures var n := FirstEqual(equal, old(contents));
        var hit := n < |old(contents)|;
        && err == (if old(contents) == [] then UnavailableResource else Success)
        && found == (if old(contents) == [] || !wantsData then dataP else if hit then Some(old(contents)[n]) else None)
        && tried == (if hit then old(contents)[..n + 1] else old(contents))
        && contents == (if hit && rmIfFound then old(contents)[..n] + old(contents)[n + 1..] else old(contents))
        && owned == (if hit && rmIfFound then old(owned)[..n] + old(owned)[n + 1..] else old(owned))
        && freed == old(freed) + (if hit && rmIfFound && !wantsData && old(owned)[n] then [old(contents)[n]] else [])
    {
      found, tried := dataP, [];
      if tail == null {
        return UnavailableResource, found, tried;
      }
      if wantsData {
        found := None;
      }
      var tmp;
      ghost var n;
      tmp, tried, n := Locate(equal);
      if tmp != null {
        if wantsData {
          found := Some(tmp.data);
        }
        if rmIfFound {
          TakeOut(tmp, n, wantsData);
        }
      }
      return Success, found, tried;
    }

    /** The searching loop, and all there is of a search without removal: the first element that satisfies `equal`. */
    method Locate(equal: T -> bool) returns (tmp: Element?<T>, tried: seq<T>, ghost n: nat)
      requires Valid()
      ensures n == FirstEqual(equal, contents)
      ensures tmp == Node(FirstEqual(equal, contents)) && (tmp != null ==> tmp.data == contents[n])
      ensures var k := FirstEqual(equal, contents);
        tried == if k < |contents| then contents[..k + 1] else contents
    {
      tmp, tried, n := head, [], 0;
      while tmp != null
        invariant n <= |spine| && tmp == Node(n) && tried == contents[..n] && n <= FirstEqual(equal, contents)
        decreases |spine| - n
      {
        assert Linked(n);
        tried := tried + [tmp.data];
        FirstEqualIs(equal, contents, n);
        if equal(tmp.data) {
          return;
        }
        tmp := tmp.next;
        n := n + 1;
      }
    }

    /** Writes through the pointer to an element's data that a search has given. */
    method Amend(tmp: Element<T>, ghost k: nat, data: T)
      requires Valid() && k < |spine| && spine[k] == tmp
      modifies this`contents, tmp`data
      ensures Valid() && contents == old(contents)[k := data]
    {
      tmp.data := data;
      contents := contents[k := data];
      forall i | 0 <= i < |spine| ensures Linked(i) {
        assert old(Linked(i));
      }
    }

    /** Removes the element found; its data is freed if it is owned and was not copied out. */
    method TakeOut(tmp: Element<T>, ghost k: nat, copied: bool)
      requires Valid() && k < |spine| && spine[k] == tmp
      modifies this, spine
      ensures forall e :: e in spine ==> e in old(spine)
      ensures Valid() && contents == old(contents)[..k] + old(contents)[k + 1..]
      ensures owned == old(owned)[..k] + old(owned)[k + 1..]
      ensures freed == old(freed) + if !copied && old(owned)[k] then [old(contents)[k]] else []
    {
      assert Linked(k);
      Unlink(tmp, k);
      if !copied && tmp.dealloc {
        freed := freed + [tmp.data];
      }
    }

    /** Takes an element out of the chain. */
    method Unlink(tmp: Element<T>, ghost k: nat)
      requires Valid() && k < |spine| && spine[k] == tmp
      modifies this`head, this`tail, this`spine, this`contents, this`owned, spine
      ensures forall e :: e in spine ==> e in old(spine)
      ensures Valid() && contents == old(contents)[..k] + old(contents)[k + 1..]
      ensures owned == old(owned)[..k] + old(owned)[k + 1..] && tmp.data == old(tmp.data)
        && tmp.dealloc == old(tmp.dealloc)
    {
      assert Linked(k) && (k > 0 ==> Linked(k - 1)) && (k + 1 < |spine| ==> Linked(k + 1));
      if tmp.prev == null {
        head := tmp.next;
      } else {
        tmp.prev.next := tmp.next;
      }
      if tmp.next == null {
        tail := tmp.prev;
      } else {
        tmp.next.prev := tmp.prev;
      }
      tmp.prev, tmp.next := null, null;
      spine, contents := spine[..k] + spine[k + 1..], contents[..k] + contents[k + 1..];
      owned := owned[..k] + owned[k + 1..];
      forall i | 0 <= i < |spine| ensures Linked(i) {
        if i < k {
          assert old(Linked(i)) && spine[i] == old(spine[i]);
        } else {
          assert old(Linked(i + 1)) && spine[i] == old(spine[i + 1]);
        }
      }
    }
  }

  /** The data a flush frees. */
  ghost function Owned<T>(contents: seq<T>, owned: seq<bool>): seq<T>
    requires |contents| == |owned|
  {
    if contents == [] then [] else (if owned[0] then [contents[0]] else []) + Owned(contents[1..], owned[1..])
  }

  /** The index of the first element that satisfies `equal`, or the length. */
  ghost function FirstEqual<T>(equal: T -> bool, contents: seq<T>): (n: nat)
    ensures n <= |contents| && (n < |contents| ==> equal(contents[n]))
    ensures forall i :: 0 <= i < n ==> !equal(contents[i])
  {
    if contents == [] || equal(contents[0]) then 0 else 1 + FirstEqual(equal, contents[1..])
  }

  lemma FirstEqualIs<T>(equal: T -> bool, contents: seq<T>, k: nat)
    requires k < |contents| && k <= FirstEqual(equal, contents)
    ensures if equal(contents[k]) then FirstEqual(equal, contents) == k else k + 1 <= FirstEqual(equal, contents)
  {}
}
