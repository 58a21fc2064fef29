/**
  * The timer heap as a value.  A tree here has the fields of the heap's nodes, `mSize` included, and the three
  * functions move data between nodes the way the in-place code does.  The lemmas say what the heap promises:
  * it refines a bag, its top is a highest-ranked element, a search that prunes by rank never misses a member, and
  * pushing keeps it balanced.
  */
module HeapSpec {

  datatype Tree<T> = Leaf | Node(size: int, left: Tree<T>, data: T, right: Tree<T>)

  /** `outRanks` comes from a total preorder: it is asymmetric and its complement is transitive. */
  ghost predicate RanksTotally<T(!new)>(outRanks: (T, T) -> bool) {
    && (forall a, b :: outRanks(a, b) ==> !outRanks(b, a))
    && (forall a, b, c :: !outRanks(a, b) && !outRanks(b, c) ==> !outRanks(a, c))
  }

  function Size<T>(t: Tree<T>): int {
    if t.Leaf? then 0 else t.size
  }

  function Single<T>(x: T): Tree<T> {
    Node(1, Leaf, x, Leaf)
  }

  /** The bag of elements held. */
  ghost function Bag<T>(t: Tree<T>): multiset<T> {
    match t
    case Leaf => multiset{}
    case Node(_, l, x, r) => Bag(l) + multiset{x} + Bag(r)
  }

  /** Every size field is the number of elements in its subtree, the node itself included. */
  ghost predicate Sized<T>(t: Tree<T>) {
    match t
    case Leaf => true
    case Node(n, l, _, r) => n == 1 + Size(l) + Size(r) && Sized(l) && Sized(r)
  }

  /** No child outranks its parent. */
  ghost predicate Ordered<T>(outRanks: (T, T) -> bool, t: Tree<T>) {
    match t
    case Leaf => true
    case Node(_, l, x, r) =>
      && (l.Node? ==> !outRanks(l.data, x)) && (r.Node? ==> !outRanks(r.data, x))
      && Ordered(outRanks, l) && Ordered(outRanks, r)
  }

  // ----- the three operations -----

  /** Which subtree takes a pushed element: an absent one first, then the smaller, the left on a tie. */
  predicate GoesLeft<T>(l: Tree<T>, r: Tree<T>) {
    l.Leaf? || (r.Node? && l.size <= r.size)
  }

  function Push<T>(outRanks: (T, T) -> bool, t: Tree<T>, x: T): Tree<T> {
    match t
    case Leaf => Single(x)
    case Node(n, l, y, r) =>
      var (keep, down) := if outRanks(x, y) then (x, y) else (y, x);
      if GoesLeft(l, r) then Node(n + 1, Push(outRanks, l, down), keep, r)
      else Node(n + 1, l, keep, Push(outRanks, r, down))
  }

  /** Which child gives its data to the hole at the top when the top is popped. */
  predicate TakesLeft<T(!new)>(outRanks: (T, T) -> bool, l: Tree<T>, r: Tree<T>) {
    l.Node? && (r.Leaf? || outRanks(l.data, r.data))
  }

  /** The tree after the top's data has been swapped down to a leaf and that leaf has been cut off. */
  function PopTop<T(!new)>(outRanks: (T, T) -> bool, t: Tree<T>): Tree<T>
    requires t.Node?
  {
    var Node(n, l, _, r) := t;
    if TakesLeft(outRanks, l, r) then Node(n - 1, PopTop(outRanks, l), l.data, r)
    else if r.Node? then Node(n - 1, l, r.data, PopTop(outRanks, r))
    else Leaf
  }

  datatype Removal<T> = Removal(found: bool, tree: Tree<T>)

  /** The search goes below a node only if the wanted element does not outrank it; elements match by address. */
  function Remove<T(==, !new)>(outRanks: (T, T) -> bool, t: Tree<T>, x: T): Removal<T> {
    match t
    case Leaf => Removal(false, t)
    case Node(n, l, y, r) =>
      if x == y then Removal(true, PopTop(outRanks, t))
      else if outRanks(x, y) then Removal(false, t)
      else
        var inLeft := Remove(outRanks, l, x);
        if inLeft.found then Removal(true, Node(n - 1, inLeft.tree, y, r))
        else
          var inRight := Remove(outRanks, r, x);
          if inRight.found then Removal(true, Node(n - 1, l, y, inRight.tree)) else Removal(false, t)
  }

  // ----- the heap refines a bag -----

  lemma {:induction false} SizeIsPositive<T>(t: Tree<T>)
    requires Sized(t)
    ensures if t.Leaf? then Size(t) == 0 else Size(t) >= 1
  {
    if t.Node? {
      SizeIsPositive(t.left);
      SizeIsPositive(t.right);
    }
  }

  lemma {:induction false} SizeCountsBag<T>(t: Tree<T>)
    requires Sized(t)
    ensures Size(t) == |Bag(t)|
  {
    if t.Node? {
      SizeCountsBag(t.left);
      SizeCountsBag(t.right);
    }
  }

  /** In an ordered heap nothing outranks the top. */
  lemma {:induction false} TopIsHighest<T(!new)>(outRanks: (T, T) -> bool, t: Tree<T>, x: T)
    requires RanksTotally(outRanks) && Ordered(outRanks, t) && x in Bag(t)
    ensures t.Node? && !outRanks(x, t.data)
  {
    if x in Bag(t.left) {
      TopIsHighest(outRanks, t.left, x);
    } else if x in Bag(t.right) {
      TopIsHighest(outRanks, t.right, x);
    }
  }

  lemma {:induction false} PushCounts<T>(outRanks: (T, T) -> bool, t: Tree<T>, x: T, z: T)
    ensures Bag(Push(outRanks, t, x))[z] == Bag(t)[z] + (if x == z then 1 else 0)
  {
    if t.Node? {
      var down := if outRanks(x, t.data) then t.data else x;
      if GoesLeft(t.left, t.right) {
        PushCounts(outRanks, t.left, down, z);
      } else {
        PushCounts(outRanks, t.right, down, z);
      }
    }
  }

  lemma PushBag<T(!new)>(outRanks: (T, T) -> bool, t: Tree<T>, x: T)
    ensures Bag(Push(outRanks, t, x)) == Bag(t) + multiset{x}
  {
    var b, b' := Bag(t), Bag(Push(outRanks, t, x));
    forall z ensures b'[z] == b[z] + multiset{x}[z] {
      PushCounts(outRanks, t, x, z);
    }
  }

  lemma {:induction false} PushKeepsSizes<T>(outRanks: (T, T) -> bool, t: Tree<T>, x: T)
    requires Sized(t)
    ensures Sized(Push(outRanks, t, x)) && Size(Push(outRanks, t, x)) == Size(t) + 1
  {
    if t.Node? {
      var down := if outRanks(x, t.data) then t.data else x;
      if GoesLeft(t.left, t.right) {
        PushKeepsSizes(outRanks, t.left, down);
      } else {
        PushKeepsSizes(outRanks, t.right, down);
      }
    }
  }

  lemma {:induction false} PushKeepsOrder<T(!new)>(outRanks: (T, T) -> bool, t: Tree<T>, x: T)
    requires RanksTotally(outRanks) && Ordered(outRanks, t)
    ensures Ordered(outRanks, Push(outRanks, t, x))
  {
    if t.Node? {
      var down := if outRanks(x, t.data) then t.data else x;
      if GoesLeft(t.left, t.right) {
        PushKeepsOrder(outRanks, t.left, down);
      } else {
        PushKeepsOrder(outRanks, t.right, down);
      }
    }
  }

  /** Pushing adds one element, keeps every size exact, and changes the top only to an element that outranks it. */
  lemma {:induction false} PushRefines<T(!new)>(outRanks: (T, T) -> bool, t: Tree<T>, x: T)
    requires RanksTotally(outRanks) && Sized(t) && Ordered(outRanks, t)
    ensures var t' := Push(outRanks, t, x);
      && t'.Node? && Sized(t') && Ordered(outRanks, t') && Bag(t') == Bag(t) + multiset{x}
      && t'.data == (if t.Leaf? || outRanks(x, t.data) then x else t.data)
  {
    PushBag(outRanks, t, x);
    PushKeepsSizes(outRanks, t, x);
    PushKeepsOrder(outRanks, t, x);
  }

  lemma {:induction false} PopCounts<T(!new)>(outRanks: (T, T) -> bool, t: Tree<T>, z: T)
    requires t.Node?
    ensures Bag(PopTop(outRanks, t))[z] + (if t.data == z then 1 else 0) == Bag(t)[z]
  {
    if TakesLeft(outRanks, t.left, t.right) {
      PopCounts(outRanks, t.left, z);
    } else if t.right.Node? {
      PopCounts(outRanks, t.right, z);
    }
  }

  lemma PopBag<T(!new)>(outRanks: (T, T) -> bool, t: Tree<T>)
    requires t.Node?
    ensures Bag(PopTop(outRanks, t)) == Bag(t) - multiset{t.data}
  {
    var b, b', x := Bag(t), Bag(PopTop(outRanks, t)), t.data;
    forall z ensures b'[z] + multiset{x}[z] == b[z] {
      PopCounts(outRanks, t, z);
    }
  }

  lemma {:induction false} PopKeepsSizes<T(!new)>(outRanks: (T, T) -> bool, t: Tree<T>)
    requires t.Node? && Sized(t)
    ensures Sized(PopTop(outRanks, t)) && Size(PopTop(outRanks, t)) == Size(t) - 1
  {
    if TakesLeft(outRanks, t.left, t.right) {
      PopKeepsSizes(outRanks, t.left);
    } else if t.right.Node? {
      PopKeepsSizes(outRanks, t.right);
    }
  }

  lemma {:induction false} PopKeepsOrder<T(!new)>(outRanks: (T, T) -> bool, t: Tree<T>)
    requires t.Node? && RanksTotally(outRanks) && Ordered(outRanks, t)
    ensures Ordered(outRanks, PopTop(outRanks, t))
    ensures PopTop(outRanks, t).Node? ==> !outRanks(PopTop(outRanks, t).data, t.data)
  {
    if TakesLeft(outRanks, t.left, t.right) {
      PopKeepsOrder(outRanks, t.left);
    } else if t.right.Node? {
      PopKeepsOrder(outRanks, t.right);
    }
  }

  /** Popping takes out the top, which nothing left behind outranks. */
  lemma {:induction false} PopRefines<T(!new)>(outRanks: (T, T) -> bool, t: Tree<T>)
    requires t.Node? && RanksTotally(outRanks) && Sized(t) && Ordered(outRanks, t)
    ensures var t' := PopTop(outRanks, t);
      && Sized(t') && Ordered(outRanks, t') && Bag(t') == Bag(t) - multiset{t.data}
      && (forall y :: y in Bag(t') ==> !outRanks(y, t.data))
  {
    PopBag(outRanks, t);
    forall y | y in Bag(PopTop(outRanks, t)) ensures !outRanks(y, t.data) {
      TopIsHighest(outRanks, t, y);
    }
    PopKeepsSizes(outRanks, t);
    PopKeepsOrder(outRanks, t);
  }

  lemma {:induction false} RemoveCounts<T(!new)>(outRanks: (T, T) -> bool, t: Tree<T>, x: T, z: T)
    ensures var r := Remove(outRanks, t, x);
      Bag(r.tree)[z] + (if r.found && x == z then 1 else 0) == Bag(t)[z]
    ensures !Remove(outRanks, t, x).found ==> Remove(outRanks, t, x).tree == t
  {
    if t.Node? {
      if x == t.data {
        PopCounts(outRanks, t, z);
      } else if !outRanks(x, t.data) {
        RemoveCounts(outRanks, t.left, x, z);
        if !Remove(outRanks, t.left, x).found {
          RemoveCounts(outRanks, t.right, x, z);
        }
      }
    }
  }

  lemma RemoveBag<T(!new)>(outRanks: (T, T) -> bool, t: Tree<T>, x: T)
    requires Remove(outRanks, t, x).found <==> x in Bag(t)
    ensures var r := Remove(outRanks, t, x);
      Bag(r.tree) == Bag(t) - multiset{x} && (!r.found ==> r.tree == t)
  {
    var r := Remove(outRanks, t, x);
    var b, b' := Bag(t), Bag(r.tree);
    RemoveCounts(outRanks, t, x, x);
    forall z ensures b'[z] == (b - multiset{x})[z] {
      RemoveCounts(outRanks, t, x, z);
    }
  }

  lemma {:induction false} RemoveKeepsSizes<T(!new)>(outRanks: (T, T) -> bool, t: Tree<T>, x: T)
    requires Sized(t)
    ensures var r := Remove(outRanks, t, x);
      Sized(r.tree) && Size(r.tree) == Size(t) - (if r.found then 1 else 0)
  {
    if t.Node? {
      if x == t.data {
        PopKeepsSizes(outRanks, t);
      } else if !outRanks(x, t.data) {
        RemoveKeepsSizes(outRanks, t.left, x);
        if !Remove(outRanks, t.left, x).found {
          RemoveKeepsSizes(outRanks, t.right, x);
        }
      }
    }
  }

  lemma {:induction false} RemoveKeepsOrder<T(!new)>(outRanks: (T, T) -> bool, t: Tree<T>, x: T)
    requires RanksTotally(outRanks) && Ordered(outRanks, t)
    ensures var t' := Remove(outRanks, t, x).tree;
      Ordered(outRanks, t') && (t'.Node? ==> t.Node? && !outRanks(t'.data, t.data))
  {
    if t.Node? {
      if x == t.data {
        PopKeepsOrder(outRanks, t);
      } else if !outRanks(x, t.data) {
        RemoveKeepsOrder(outRanks, t.left, x);
        if !Remove(outRanks, t.left, x).found {
          RemoveKeepsOrder(outRanks, t.right, x);
        }
      }
    }
  }

  /** Pruning by rank misses nothing: the element is found exactly when its address is in the heap. */
  lemma {:induction false} RemoveFindsMembers<T(!new)>(outRanks: (T, T) -> bool, t: Tree<T>, x: T)
    requires RanksTotally(outRanks) && Ordered(outRanks, t)
    ensures Remove(outRanks, t, x).found <==> x in Bag(t)
  {
    RemoveCounts(outRanks, t, x, x);
    if x in Bag(t) {
      TopIsHighest(outRanks, t, x);
      if x != t.data {
        RemoveFindsMembers(outRanks, t.left, x);
        RemoveFindsMembers(outRanks, t.right, x);
      }
    }
  }

  /** Only taking out the top itself changes the top. */
  lemma RemoveElsewhereKeepsTop<T(!new)>(outRanks: (T, T) -> bool, t: Tree<T>, x: T)
    requires t.Node?
    ensures var r := Remove(outRanks, t, x);
      if x == t.data then r.found && r.tree == PopTop(outRanks, t) else r.tree.Node? && r.tree.data == t.data
  {}

  /** A removal takes out exactly one occurrence of the address asked for if there is one, and otherwise nothing. */
  lemma {:induction false} RemoveRefines<T(!new)>(outRanks: (T, T) -> bool, t: Tree<T>, x: T)
    requires RanksTotally(outRanks) && Sized(t) && Ordered(outRanks, t)
    ensures var r := Remove(outRanks, t, x);
      && (r.found <==> x in Bag(t)) && (!r.found ==> r.tree == t)
      && Sized(r.tree) && Ordered(outRanks, r.tree) && Bag(r.tree) == Bag(t) - multiset{x}
  {
    RemoveFindsMembers(outRanks, t, x);
    RemoveBag(outRanks, t, x);
    RemoveKeepsSizes(outRanks, t, x);
    RemoveKeepsOrder(outRanks, t, x);
  }

  ghost function Nodes<T>(t: Tree<T>): nat {
    if t.Leaf? then 0 else 1 + Nodes(t.left) + Nodes(t.right)
  }

  lemma {:induction false} NodesAfterPop<T(!new)>(outRanks: (T, T) -> bool, t: Tree<T>)
    ensures t.Node? ==> Nodes(PopTop(outRanks, t)) == Nodes(t) - 1
  {
    if t.Node? {
      if TakesLeft(outRanks, t.left, t.right) {
        NodesAfterPop(outRanks, t.left);
      } else if t.right.Node? {
        NodesAfterPop(outRanks, t.right);
      }
    }
  }

  // ----- whole histories -----

  datatype Op<T> = OpPush(x: T) | OpPop | OpRemove(x: T)

  function Apply<T(==, !new)>(outRanks: (T, T) -> bool, t: Tree<T>, op: Op<T>): Tree<T> {
    match op
    case OpPush(x) => Push(outRanks, t, x)
    case OpPop => if t.Leaf? then Leaf else PopTop(outRanks, t)
    case OpRemove(x) => Remove(outRanks, t, x).tree
  }

  function Run<T(==, !new)>(outRanks: (T, T) -> bool, ops: seq<Op<T>>): Tree<T> {
    if ops == [] then Leaf else Apply(outRanks, Run(outRanks, ops[..|ops| - 1]), ops[|ops| - 1])
  }

  /** What a bag does under the same operations; popping takes some element that nothing in the bag outranks. */
  ghost predicate BagStep<T>(outRanks: (T, T) -> bool, b: multiset<T>, op: Op<T>, b': multiset<T>) {
    match op
    case OpPush(x) => b' == b + multiset{x}
    case OpRemove(x) => b' == b - multiset{x}
    case OpPop =>
      if b == multiset{} then b' == b
      else exists x :: x in b && (forall y :: y in b ==> !outRanks(y, x)) && b' == b - multiset{x}
  }

  lemma {:induction false} ApplyRefines<T(!new)>(outRanks: (T, T) -> bool, t: Tree<T>, op: Op<T>)
    requires RanksTotally(outRanks) && Sized(t) && Ordered(outRanks, t)
    ensures var t' := Apply(outRanks, t, op);
      Sized(t') && Ordered(outRanks, t') && BagStep(outRanks, Bag(t), op, Bag(t'))
  {
    match op {
      case OpPush(x) => PushRefines(outRanks, t, x);
      case OpRemove(x) => RemoveRefines(outRanks, t, x);
      case OpPop =>
        if t.Node? {
          PopRefines(outRanks, t);
          forall y | y in Bag(t) ensures !outRanks(y, t.data) {
            TopIsHighest(outRanks, t, y);
          }
          assert t.data in Bag(t);
        }
    }
  }

  /** Over any history of the three operations the heap is a bag that always pops a highest-ranked element. */
  lemma {:induction false} HistoryRefinesBag<T(!new)>(outRanks: (T, T) -> bool, ops: seq<Op<T>>)
    requires RanksTotally(outRanks)
    ensures var t := Run(outRanks, ops);
      Sized(t) && Ordered(outRanks, t) && Size(t) == |Bag(t)|
    ensures ops != [] ==>
      BagStep(outRanks, Bag(Run(outRanks, ops[..|ops| - 1])), ops[|ops| - 1], Bag(Run(outRanks, ops)))
  {
    if ops != [] {
      HistoryRefinesBag(outRanks, ops[..|ops| - 1]);
      ApplyRefines(outRanks, Run(outRanks, ops[..|ops| - 1]), ops[|ops| - 1]);
    }
    SizeCountsBag(Run(outRanks, ops));
  }

  // ----- balance -----

  function Abs(n: int): int {
    if n < 0 then -n else n
  }

  function Max(a: int, b: int): int {
    if a < b then b else a
  }

  /** No node of `t'` is more lopsided than the node in the same place of `t` was, or by more than one. */
  ghost predicate NoMoreLopsided<T>(t: Tree<T>, t': Tree<T>) {
    match t'
    case Leaf => t.Leaf?
    case Node(_, l', _, r') =>
      && Abs(Size(l') - Size(r')) <= Max(1, if t.Node? then Abs(Size(t.left) - Size(t.right)) else 0)
      && NoMoreLopsided(if t.Node? then t.left else Leaf, l')
      && NoMoreLopsided(if t.Node? then t.right else Leaf, r')
  }

  lemma {:induction false} SameTreeNoMoreLopsided<T>(t: Tree<T>)
    ensures NoMoreLopsided(t, t)
  {
    if t.Node? {
      SameTreeNoMoreLopsided(t.left);
      SameTreeNoMoreLopsided(t.right);
    }
  }

  /** Pushing never tips a node further than it already leaned, or than one element. */
  lemma {:induction false} PushKeepsBalance<T>(outRanks: (T, T) -> bool, t: Tree<T>, x: T)
    requires Sized(t)
    ensures NoMoreLopsided(t, Push(outRanks, t, x))
  {
    if t.Node? {
      var down := if outRanks(x, t.data) then t.data else x;
      SizeIsPositive(t.left);
      SizeIsPositive(t.right);
      if GoesLeft(t.left, t.right) {
        SameTreeNoMoreLopsided(t.right);
        PushKeepsBalance(outRanks, t.left, down);
        PushKeepsSizes(outRanks, t.left, down);
      } else {
        SameTreeNoMoreLopsided(t.left);
        PushKeepsBalance(outRanks, t.right, down);
        PushKeepsSizes(outRanks, t.right, down);
      }
    }
  }

  /** At every node the left subtree is as big as the right one, or bigger by one. */
  ghost predicate LeftHeavyByAtMostOne<T>(t: Tree<T>) {
    t.Leaf? || (0 <= Size(t.left) - Size(t.right) <= 1 && LeftHeavyByAtMostOne(t.left) && LeftHeavyByAtMostOne(t.right))
  }

  function Height<T>(t: Tree<T>): nat {
    if t.Leaf? then 0 else 1 + Max(Height(t.left), Height(t.right))
  }

  function Pow2(n: nat): nat {
    if n == 0 then 1 else 2 * Pow2(n - 1)
  }

  function PushAll<T>(outRanks: (T, T) -> bool, xs: seq<T>): Tree<T> {
    if xs == [] then Leaf else Push(outRanks, PushAll(outRanks, xs[..|xs| - 1]), xs[|xs| - 1])
  }

  lemma {:induction false} PushKeepsLeftHeavy<T>(outRanks: (T, T) -> bool, t: Tree<T>, x: T)
    requires Sized(t) && LeftHeavyByAtMostOne(t)
    ensures LeftHeavyByAtMostOne(Push(outRanks, t, x))
  {
    if t.Node? {
      var down := if outRanks(x, t.data) then t.data else x;
      SizeIsPositive(t.left);
      SizeIsPositive(t.right);
      if GoesLeft(t.left, t.right) {
        PushKeepsLeftHeavy(outRanks, t.left, down);
        PushKeepsSizes(outRanks, t.left, down);
      } else {
        PushKeepsLeftHeavy(outRanks, t.right, down);
        PushKeepsSizes(outRanks, t.right, down);
      }
    }
  }

  lemma {:induction false} LeftHeavyHeight<T>(t: Tree<T>)
    requires Sized(t) && LeftHeavyByAtMostOne(t) && t.Node?
    ensures Pow2(Height(t) - 1) <= Size(t) < Pow2(Height(t))
  {
    SizeIsPositive(t.left);
    SizeIsPositive(t.right);
    if t.left.Node? {
      LeftHeavyHeight(t.left);
      if t.right.Node? {
        LeftHeavyHeight(t.right);
        if Height(t.right) > Height(t.left) {
          Pow2Monotone(Height(t.left), Height(t.right) - 1);
        }
      }
    }
  }

  lemma {:induction false} Pow2Monotone(a: nat, b: nat)
    requires a <= b
    ensures Pow2(a) <= Pow2(b)
    decreases b
  {
    if a < b {
      Pow2Monotone(a, b - 1);
    }
  }

  /** A heap built only by pushes has the least height its size allows: floor(log2 n) + 1. */
  lemma {:induction false} PushOnlyHeapIsShallow<T>(outRanks: (T, T) -> bool, xs: seq<T>)
    ensures var t := PushAll(outRanks, xs);
      && Sized(t) && Size(t) == |xs| && LeftHeavyByAtMostOne(t)
      && (xs != [] ==> Height(t) >= 1 && Pow2(Height(t) - 1) <= |xs| < Pow2(Height(t)))
  {
    if xs != [] {
      var init, x := xs[..|xs| - 1], xs[|xs| - 1];
      PushOnlyHeapIsShallow(outRanks, init);
      PushKeepsSizes(outRanks, PushAll(outRanks, init), x);
      PushKeepsLeftHeavy(outRanks, PushAll(outRanks, init), x);
      LeftHeavyHeight(PushAll(outRanks, xs));
    }
  }
}
