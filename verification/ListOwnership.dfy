/**
  * Who owns the data of a linked list. Data that was added with a deallocator is the list's until it is freed or given
  * out; a flush frees all that is left of it, and nothing else.
  */
module ListOwnership {
  import opened Wrappers
  import opened LinkedList

  ghost predicate IsAmong(at: seq<nat>, k: nat) {
    exists i :: 0 <= i < |at| && at[i] == k
  }

  /** `picked` is the data at just the positions that are owned, in the order of the list; `at` are the positions. */
  ghost predicate Picks<T>(at: seq<nat>, picked: seq<T>, contents: seq<T>, owned: seq<bool>)
    requires |contents| == |owned|
  {
    && |at| == |picked|
    && (forall i :: 0 <= i < |at| ==> at[i] < |contents| && picked[i] == contents[at[i]])
    && (forall i, j :: 0 <= i < j < |at| ==> at[i] < at[j])
    && (forall k :: 0 <= k < |owned| ==> (owned[k] <==> IsAmong(at, k)))
  }

  function Later(at: seq<nat>): (later: seq<nat>)
    ensures |later| == |at| && forall i :: 0 <= i < |at| ==> later[i] == at[i] + 1
  {
    seq(|at|, i requires 0 <= i < |at| => at[i] + 1)
  }

  lemma PicksBehind<T>(at: seq<nat>, later: seq<nat>, picked: seq<T>, contents: seq<T>, owned: seq<bool>)
    requires 0 < |contents| == |owned| && !owned[0] && Picks(at, picked, contents[1..], owned[1..])
    requires |later| == |at| && forall i :: 0 <= i < |at| ==> later[i] == at[i] + 1
    ensures Picks(later, picked, contents, owned)
  {
    forall k | 0 < k < |owned| ensures owned[k] <==> IsAmong(later, k) {
      assert owned[k] == owned[1..][k - 1];
      if owned[k] {
        var i :| 0 <= i < |at| && at[i] == k - 1;
        assert later[i] == k;
      } else {
        assert !IsAmong(at, k - 1);
      }
    }
  }

  lemma PicksFirst<T>(at: seq<nat>, later: seq<nat>, picked: seq<T>, contents: seq<T>, owned: seq<bool>)
    requires 0 < |contents| == |owned| && owned[0] && Picks(later, picked, contents, owned[0 := false])
    requires at == [0] + later
    ensures Picks(at, [contents[0]] + picked, contents, owned)
  {
    assert IsAmong(at, 0) by { assert at[0] == 0; }
    forall k | 0 < k < |owned| ensures owned[k] <==> IsAmong(at, k) {
      assert owned[k] == owned[0 := false][k];
      if owned[k] {
        var i :| 0 <= i < |later| && later[i] == k;
        assert at[i + 1] == k;
      } else {
        assert !IsAmong(later, k);
      }
    }
    forall i, j | 0 <= i < j < |at| ensures at[i] < at[j] {
      assert !IsAmong(later, 0);
    }
  }

  /** What a flush frees is the data at just the positions that are owned, in the order of the list. */
  lemma {:induction false} OwnedInOrder<T>(contents: seq<T>, owned: seq<bool>) returns (at: seq<nat>)
    requires |contents| == |owned|
    ensures Picks(at, Owned(contents, owned), contents, owned)
  {
    at := [];
    if contents != [] {
      var rest := OwnedInOrder(contents[1..], owned[1..]);
      var picked := Owned(contents[1..], owned[1..]);
      var later := Later(rest);
      PicksBehind(rest, later, picked, contents, owned[0 := false]);
      assert Owned(contents, owned) == (if owned[0] then [contents[0]] else []) + picked;
      if owned[0] {
        at := [0] + later;
        PicksFirst(at, later, picked, contents, owned);
      } else {
        at := later;
        assert owned[0 := false] == owned && [] + picked == picked;
      }
    }
  }

  // ----- the list on values -----

  /** What is listed, and what has been freed. */
  datatype Listed<T> = Listed(contents: seq<T>, owned: seq<bool>, freed: seq<T>) {
    ghost predicate Valid() {
      |contents| == |owned|
    }

    ghost function Without(k: nat): Listed<T>
      requires Valid() && k < |contents|
    {
      Listed(contents[..k] + contents[k + 1..], owned[..k] + owned[k + 1..], freed)
    }

    /** One element, freed if it is owned. */
    ghost function Free(k: nat): seq<T>
      requires Valid() && k < |contents|
    {
      if owned[k] then [contents[k]] else []
    }
  }

  /** A search may ask for a copy of what it finds, and for its removal. */
  datatype Op<!T> =
    | Adding(data: T, dealloc: bool)
    | Removing
    | Searching(equal: T -> bool, copied: bool, rm: bool)
    | Flushing

  ghost function After<T>(l: Listed<T>, op: Op<T>): Listed<T>
    requires l.Valid()
  {
    match op
    case Adding(data, dealloc) => Listed([data] + l.contents, [dealloc] + l.owned, l.freed)
    case Removing => if l.contents == [] then l else l.Without(|l.contents| - 1)
    case Searching(equal, copied, rm) =>
      var k := FirstEqual(equal, l.contents);
      if !rm || k == |l.contents| then l
      else l.Without(k).(freed := l.freed + if copied then [] else l.Free(k))
    case Flushing => Listed([], [], l.freed + Owned(l.contents, l.owned))
  }

  ghost function Now<T>(list: List<T>): Listed<T>
    reads list
  {
    Listed(list.contents, list.owned, list.freed)
  }

  // ----- in every run -----

  /** A list with the owned data it was given and the owned data it has given out. */
  datatype Ledger<T> = Ledger(list: Listed<T>, accepted: seq<T>, handed: seq<T>)

  /** What an operation takes over. */
  function Accepted<T>(op: Op<T>): seq<T> {
    if op.Adding? && op.dealloc then [op.data] else []
  }

  /** What an operation gives up: a removal, and a search that copies out what it removes, leave the data alone. */
  ghost function Handed<T>(l: Listed<T>, op: Op<T>): seq<T>
    requires l.Valid()
  {
    match op
    case Removing => if l.contents == [] then [] else l.Free(|l.contents| - 1)
    case Searching(equal, copied, rm) =>
      var k := FirstEqual(equal, l.contents);
      if copied && rm && k < |l.contents| then l.Free(k) else []
    case _ => []
  }

  /** What an operation frees. */
  ghost function Freed<T>(l: Listed<T>, op: Op<T>): seq<T>
    requires l.Valid()
  {
    match op
    case Searching(equal, copied, rm) =>
      var k := FirstEqual(equal, l.contents);
      if !copied && rm && k < |l.contents| then l.Free(k) else []
    case Flushing => Owned(l.contents, l.owned)
    case _ => []
  }

  ghost function Booked<T>(g: Ledger<T>, op: Op<T>): Ledger<T>
    requires g.list.Valid()
  {
    Ledger(After(g.list, op), g.accepted + Accepted(op), g.handed + Handed(g.list, op))
  }

  ghost function Run<T>(ops: seq<Op<T>>): (g: Ledger<T>)
    ensures g.list.Valid()
  {
    if ops == [] then Ledger(Listed([], [], []), [], [])
    else
      Booked(Run(ops[..|ops| - 1]), ops[|ops| - 1])
  }

  lemma Regroup<T>(a: seq<T>, b: seq<T>, c: seq<T>)
    ensures a + (b + c) == a + b + c
  {}

  lemma {:induction false} OwnedOfBoth<T>(c: seq<T>, w: seq<bool>, c': seq<T>, w': seq<bool>)
    requires |c| == |w| && |c'| == |w'|
    ensures Owned(c + c', w + w') == Owned(c, w) + Owned(c', w')
  {
    if c == [] {
      assert c + c' == c' && w + w' == w' && Owned(c, w) == [];
    } else {
      var x := if w[0] then [c[0]] else [];
      OwnedOfBoth(c[1..], w[1..], c', w');
      assert (c + c')[1..] == c[1..] + c' && (w + w')[1..] == w[1..] + w';
      assert Owned(c + c', w + w') == x + Owned(c[1..] + c', w[1..] + w');
      assert Owned(c, w) == x + Owned(c[1..], w[1..]);
      Regroup(x, Owned(c[1..], w[1..]), Owned(c', w'));
    }
  }

  /** Taking an element out of a list takes it out of what the list would free. */
  lemma OwnedWithout<T>(l: Listed<T>, k: nat)
    requires l.Valid() && k < |l.contents|
    ensures var rest := l.Without(k);
      multiset(Owned(l.contents, l.owned)) == multiset(l.Free(k)) + multiset(Owned(rest.contents, rest.owned))
  {
    var c, w, c', w' := l.contents[..k], l.owned[..k], l.contents[k + 1..], l.owned[k + 1..];
    var x, o := [l.contents[k]], [l.owned[k]];
    assert l.contents == c + (x + c') && l.owned == w + (o + w');
    OwnedOfOne(l.contents[k], l.owned[k]);
    OwnedOfBoth(x, o, c', w');
    OwnedOfBoth(c, w, x + c', o + w');
    OwnedOfBoth(c, w, c', w');
    MiddleOut(Owned(c, w), l.Free(k), Owned(c', w'));
  }

  lemma OwnedOfOne<T>(x: T, o: bool)
    ensures Owned([x], [o]) == if o then [x] else []
  {
    assert [x][1..] == [] && [o][1..] == [] && Owned<T>([], []) == [];
  }

  lemma MiddleOut<T>(a: seq<T>, x: seq<T>, b: seq<T>)
    ensures multiset(a + (x + b)) == multiset(x) + multiset(a + b)
  {
    assert multiset(x + b) == multiset(x) + multiset(b);
  }

  ghost predicate Balanced<T>(g: Ledger<T>)
    requires g.list.Valid()
  {
    multiset(g.accepted)
    == multiset(g.list.freed) + multiset(g.handed) + multiset(Owned(g.list.contents, g.list.owned))
  }

  lemma FreesInOrder<T>(l: Listed<T>, op: Op<T>)
    requires l.Valid()
    ensures After(l, op).freed == l.freed + Freed(l, op)
  {
    assert l.freed + [] == l.freed;
  }

  /** Held before and taken over: freed, handed out or held afterwards. */
  ghost predicate Even<T>(o: seq<T>, a: seq<T>, f: seq<T>, h: seq<T>, o': seq<T>) {
    multiset(o) + multiset(a) == multiset(f) + multiset(h) + multiset(o')
  }

  lemma EvenAdded<T>(o: seq<T>, a: seq<T>)
    ensures Even(o, a, [], [], a + o)
  {}

  lemma EvenTaken<T>(o: seq<T>, x: seq<T>, f: seq<T>, h: seq<T>, o': seq<T>)
    requires multiset(o) == multiset(x) + multiset(o')
    requires (f == x && h == []) || (f == [] && h == x)
    ensures Even(o, [], f, h, o')
  {}

  ghost predicate AllAccounted<T>(l: Listed<T>, op: Op<T>)
    requires l.Valid()
  {
    var l' := After(l, op);
    Even(Owned(l.contents, l.owned), Accepted(op), Freed(l, op), Handed(l, op), Owned(l'.contents, l'.owned))
  }

  lemma AddIsAccounted<T>(l: Listed<T>, data: T, dealloc: bool)
    requires l.Valid()
    ensures AllAccounted(l, Adding(data, dealloc))
  {
    var a := if dealloc then [data] else [];
    OwnedOfOne(data, dealloc);
    OwnedOfBoth([data], [dealloc], l.contents, l.owned);
    EvenAdded(Owned(l.contents, l.owned), a);
  }

  lemma TakingIsAccounted<T>(l: Listed<T>, op: Op<T>, k: nat)
    requires l.Valid() && k < |l.contents|
    requires || (op.Removing? && k == |l.contents| - 1)
             || (op.Searching? && op.rm && k == FirstEqual(op.equal, l.contents))
    ensures AllAccounted(l, op)
  {
    var rest := l.Without(k);
    OwnedWithout(l, k);
    EvenTaken(Owned(l.contents, l.owned), l.Free(k), Freed(l, op), Handed(l, op), Owned(rest.contents, rest.owned));
  }

  lemma OneOperation<T>(l: Listed<T>, op: Op<T>)
    requires l.Valid()
    ensures AllAccounted(l, op)
  {
    match op
    case Adding(data, dealloc) => AddIsAccounted(l, data, dealloc);
    case Removing =>
      if l.contents != [] {
        TakingIsAccounted(l, op, |l.contents| - 1);
      }
    case Searching(equal, copied, rm) =>
      if rm && FirstEqual(equal, l.contents) < |l.contents| {
        TakingIsAccounted(l, op, FirstEqual(equal, l.contents));
      }
    case Flushing =>
      var o := Owned(l.contents, l.owned);
      EvenTaken(o, o, o, [], []);
  }

  /** One more entry on both sides of an account. */
  lemma BookedOn<T>(a: seq<T>, f: seq<T>, h: seq<T>, o: seq<T>, a': seq<T>, f': seq<T>, h': seq<T>, o': seq<T>)
    requires multiset(a) == multiset(f) + multiset(h) + multiset(o)
    requires Even(o, a', f', h', o')
    ensures multiset(a + a') == multiset(f + f') + multiset(h + h') + multiset(o')
  {
    assert multiset(a + a') == multiset(f) + multiset(h) + (multiset(o) + multiset(a'));
  }

  lemma Rebalanced<T>(g: Ledger<T>, g': Ledger<T>, a: seq<T>, f: seq<T>, h: seq<T>)
    requires g.list.Valid() && g'.list.Valid() && Balanced(g)
    requires g'.accepted == g.accepted + a && g'.list.freed == g.list.freed + f && g'.handed == g.handed + h
    requires Even(Owned(g.list.contents, g.list.owned), a, f, h, Owned(g'.list.contents, g'.list.owned))
    ensures Balanced(g')
  {
    BookedOn(g.accepted, g.list.freed, g.handed, Owned(g.list.contents, g.list.owned),
             a, f, h, Owned(g'.list.contents, g'.list.owned));
  }

  lemma BookedIsBalanced<T>(g: Ledger<T>, op: Op<T>)
    requires g.list.Valid() && Balanced(g)
    ensures After(g.list, op).Valid() && Balanced(Booked(g, op))
  {
    OneOperation(g.list, op);
    FreesInOrder(g.list, op);
    Rebalanced(g, Booked(g, op), Accepted(op), Freed(g.list, op), Handed(g.list, op));
  }

  /** In every run, owned data that was accepted is freed, handed out or still held: one of these, and once. */
  lemma {:induction false} OwnedIsConserved<T>(ops: seq<Op<T>>)
    ensures Balanced(Run(ops))
  {
    if ops != [] {
      var g := Run(ops[..|ops| - 1]);
      OwnedIsConserved(ops[..|ops| - 1]);
      BookedIsBalanced(g, ops[|ops| - 1]);
    }
  }

  // ----- on the list itself -----

  /** One operation on a list; `handed` is what it gives the caller of the data that the list owned. */
  method Perform<T>(list: List<T>, op: Op<T>) returns (ghost handed: seq<T>)
    requires list.Valid()
    modifies list, list.spine
    ensures list.Valid() && forall e :: e in list.spine ==> e in old(list.spine) || fresh(e)
    ensures Now(list) == After(old(Now(list)), op) && handed == Handed(old(Now(list)), op)
  {
    ghost var owned, n := list.owned, |list.contents| - 1;
    handed := [];
    match op {
      case Adding(data, dealloc) =>
        var _ := list.Add(Some(data), dealloc);
      case Removing =>
        var _, data := list.Remove();
        if data != None && owned[n] {
          handed := [data.value];
        }
      case Searching(equal, copied, rm) =>
        n := FirstEqual(equal, list.contents);
        var _, data, _ := list.Search(equal, copied, None, rm);
        if rm && data != None && owned[n] {
          handed := [data.value];
        }
      case Flushing =>
        list.Flush();
    }
  }

  /** Any operations in turn on a new list: the owned data that they took is freed, handed out or still in the list. */
  method PerformAll<T>(ops: seq<Op<T>>) returns (list: List<T>, ghost accepted: seq<T>, ghost handed: seq<T>)
    ensures list.Valid() && Run(ops) == Ledger(Now(list), accepted, handed)
    ensures multiset(accepted) == multiset(list.freed) + multiset(handed) + multiset(Owned(list.contents, list.owned))
  {
    list := new List();
    accepted, handed := [], [];
    var k := 0;
    while k < |ops|
      invariant k <= |ops| && fresh(list) && list.Valid() && forall e :: e in list.spine ==> fresh(e)
      invariant Run(ops[..k]) == Ledger(Now(list), accepted, handed)
    {
      assert forall i :: 0 <= i < |list.spine| ==> list.spine[i] in list.spine;
      ghost var more := Perform(list, ops[k]);
      accepted, handed := accepted + Accepted(ops[k]), handed + more;
      assert ops[..k + 1][..k] == ops[..k];
      k := k + 1;
    }
    assert ops[..k] == ops;
    OwnedIsConserved(ops);
  }
}
