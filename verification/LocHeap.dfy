/**
  * The heap as it is in memory: nodes that are linked, relinked and rewritten in place.  Every method is proved to
  * have exactly the effect of the function of the same name in HeapSpec.  A C++ reference to a child pointer
  * is rendered as the pointer's new value, which the caller stores back.
  */
module LocHeap {
  import opened Wrappers
  import opened HeapSpec

  class HeapNode<T(==, !new)> {
    var mSize: int
    var mLeft: HeapNode?<T>
    var mRight: HeapNode?<T>
    var mData: T

    ghost var tree: Tree<T>            // the subtree hanging from this node, as a value
    ghost var repr: set<HeapNode<T>>   // a footprint of that subtree

    ghost predicate Valid()
      reads this, repr
      ensures Valid() ==> this in repr
    {
      && this in repr
      && (mLeft != null ==> mLeft in repr && mLeft.repr <= repr && this !in mLeft.repr && mLeft.Valid())
      && (mRight != null ==> mRight in repr && mRight.repr <= repr && this !in mRight.repr && mRight.Valid())
      && (mLeft != null && mRight != null ==> mLeft.repr !! mRight.repr)
      && tree == Node(mSize, if mLeft == null then Leaf else mLeft.tree, mData,
                      if mRight == null then Leaf else mRight.tree)
    }

    /** Cut off from any tree and holding the given data, so that deleting it frees one node only. */
    ghost predicate Alone(data: T)
      reads this
    {
      mLeft == null && mRight == null && mData == data
    }

    constructor (data: T)
      ensures Valid() && repr == {this} && tree == Single(data) && mData == data
    {
      mSize, mLeft, mRight, mData := 1, null, null, data;
      tree, repr := Single(data), {this};
    }

    /** Drops a node into a child slot that may be empty; the result goes back into the slot. */
    static method PushInto(outRanks: (T, T) -> bool, child: HeapNode?<T>, node: HeapNode<T>) returns (top: HeapNode<T>)
      requires child != null ==> child.Valid() && node !in child.repr
      requires node.Valid() && node.repr == {node} && node.tree == Single(node.mData)
      modifies if child == null then {} else child.repr, node
      ensures top.Valid() && top.repr == (if child == null then {} else old(child.repr)) + {node}
      ensures top.tree == HeapSpec.Push(outRanks, if child == null then Leaf else old(child.tree), old(node.mData))
      decreases if child == null then {} else child.repr, 2
    {
      if child == null {
        top := node;
      } else {
        child.Push(outRanks, node);
        top := child;
      }
    }

    method PushLeft(outRanks: (T, T) -> bool, node: HeapNode<T>)
      requires Valid() && node !in repr
      requires node.Valid() && node.repr == {node} && node.tree == Single(node.mData)
      modifies repr, node
      ensures Valid() && repr == old(repr) + {node}
      ensures tree
        == Node(old(mSize) + 1, HeapSpec.Push(outRanks, old(tree.left), old(node.mData)), old(mData), old(tree.right))
      decreases repr, 0
    {
      mLeft := PushInto(outRanks, mLeft, node);
      mSize := mSize + 1;
      repr := repr + {node};
      tree := Node(mSize, mLeft.tree, mData, tree.right);
    }

    method PushRight(outRanks: (T, T) -> bool, node: HeapNode<T>)
      requires Valid() && node !in repr
      requires node.Valid() && node.repr == {node} && node.tree == Single(node.mData)
      modifies repr, node
      ensures Valid() && repr == old(repr) + {node}
      ensures tree
        == Node(old(mSize) + 1, old(tree.left), old(mData), HeapSpec.Push(outRanks, old(tree.right), old(node.mData)))
      decreases repr, 0
    {
      mRight := PushInto(outRanks, mRight, node);
      mSize := mSize + 1;
      repr := repr + {node};
      tree := Node(mSize, tree.left, mData, mRight.tree);
    }

    /** Exchanges the data of two nodes, so that no link has to change. */
    method Swap(node: HeapNode<T>)
      requires Valid() && node !in repr
      requires node.Valid() && node.repr == {node} && node.tree == Single(node.mData)
      modifies this`mData, this`tree, node`mData, node`tree
      ensures mData == old(node.mData) && node.mData == old(mData)
      ensures Valid() && tree == Node(old(mSize), old(tree.left), mData, old(tree.right))
      ensures node.Valid() && node.tree == Single(node.mData)
    {
      var tmpData := node.mData;
      node.mData := mData;
      mData := tmpData;
      node.tree, tree := Single(node.mData), Node(mSize, tree.left, mData, tree.right);
    }

    method Push(outRanks: (T, T) -> bool, node: HeapNode<T>)
      requires Valid() && node !in repr
      requires node.Valid() && node.repr == {node} && node.tree == Single(node.mData)
      modifies repr, node
      ensures Valid() && repr == old(repr) + {node}
      ensures tree == HeapSpec.Push(outRanks, old(tree), old(node.mData))
      decreases repr, 1
    {
      // the current node must not rank lower than the incoming one
      if outRanks(node.mData, mData) {
        Swap(node);
      }
      if mLeft == null || (mRight != null && mLeft.mSize <= mRight.mSize) {
        PushLeft(outRanks, node);
      } else {
        PushRight(outRanks, node);
      }
    }

    /** Exchanges the data of this node and a child. */
    method Exchange(child: HeapNode<T>)
      requires Valid() && (child == mLeft || child == mRight) && child.tree.Node?
      modifies this`mData, this`tree, child`mData, child`tree
      ensures Valid() && child.Valid()
      ensures mData == old(child.mData) && child.mData == old(mData)
      ensures child.tree == old(child.tree).(data := child.mData)
    {
      child.mData, mData := mData, child.mData;
      child.tree := child.tree.(data := child.mData);
      tree := Node(mSize, if mLeft == null then Leaf else mLeft.tree, mData,
                   if mRight == null then Leaf else mRight.tree);
    }

    /** Takes the top's data down into the left subtree, whose top comes up, and pops there. */
    method PopLeft(outRanks: (T, T) -> bool) returns (popped: HeapNode<T>)
      requires Valid() && tree.left.Node?
      modifies repr
      ensures Valid() && repr == old(repr) - {popped}
      ensures popped in old(repr) && popped != this && popped.Alone(old(mData))
      ensures tree == Node(old(mSize), PopTop(outRanks, old(tree.left)), old(tree.left.data), old(tree.right))
      decreases repr, 0
    {
      Exchange(mLeft);
      mLeft, popped := Pop(outRanks, mLeft);
      repr := repr - {popped};
      tree := Node(mSize, if mLeft == null then Leaf else mLeft.tree, mData, tree.right);
    }

    method PopRight(outRanks: (T, T) -> bool) returns (popped: HeapNode<T>)
      requires Valid() && tree.right.Node?
      modifies repr
      ensures Valid() && repr == old(repr) - {popped}
      ensures popped in old(repr) && popped != this && popped.Alone(old(mData))
      ensures tree == Node(old(mSize), old(tree.left), old(tree.right.data), PopTop(outRanks, old(tree.right)))
      decreases repr, 0
    {
      Exchange(mRight);
      mRight, popped := Pop(outRanks, mRight);
      repr := repr - {popped};
      tree := Node(mSize, tree.left, mData, if mRight == null then Leaf else mRight.tree);
    }

    /** `rest` is the top again, or null if the top was the last node; the popped node is out of the tree. */
    static method Pop(outRanks: (T, T) -> bool, top: HeapNode<T>) returns (rest: HeapNode?<T>, popped: HeapNode<T>)
      requires top.Valid()
      modifies top.repr
      ensures popped in old(top.repr) && popped.Alone(old(top.mData))
      ensures rest == null ==> popped == top && PopTop(outRanks, old(top.tree)).Leaf?
      ensures rest != null ==> rest == top && rest.Valid() && rest.repr == old(top.repr) - {popped}
      ensures rest != null ==> rest.tree == PopTop(outRanks, old(top.tree))
      decreases top.repr, 1
    {
      // top is losing a node in its subtree
      top.mSize := top.mSize - 1;
      top.tree := top.tree.(size := top.mSize);
      if top.mLeft != null && (top.mRight == null || outRanks(top.mLeft.mData, top.mRight.mData)) {
        popped := top.PopLeft(outRanks);
        rest := top;
      } else if top.mRight != null {
        popped := top.PopRight(outRanks);
        rest := top;
      } else {
        popped := top;
        rest := null;
      }
    }

    /** Searches the left subtree, which may be empty. */
    method RemoveLeft(outRanks: (T, T) -> bool, data: T) returns (removed: HeapNode?<T>)
      requires Valid()
      modifies repr
      ensures var r := HeapSpec.Remove(outRanks, old(tree.left), data);
        (removed != null <==> r.found) && tree == Node(old(mSize), r.tree, old(mData), old(tree.right))
      ensures Valid() && repr == (if removed == null then old(repr) else old(repr) - {removed})
      ensures removed != null ==> removed in old(repr) && removed != this && removed.Alone(data)
      decreases repr, 0
    {
      removed := null;
      if mLeft != null {
        mLeft, removed := Remove(outRanks, mLeft, data);
      }
      if removed != null {
        repr := repr - {removed};
        tree := Node(mSize, if mLeft == null then Leaf else mLeft.tree, mData, tree.right);
      }
    }

    /** Searches the right subtree, which may be empty. */
    method RemoveRight(outRanks: (T, T) -> bool, data: T) returns (removed: HeapNode?<T>)
      requires Valid()
      modifies repr
      ensures var r := HeapSpec.Remove(outRanks, old(tree.right), data);
        (removed != null <==> r.found) && tree == Node(old(mSize), old(tree.left), old(mData), r.tree)
      ensures Valid() && repr == (if removed == null then old(repr) else old(repr) - {removed})
      ensures removed != null ==> removed in old(repr) && removed != this && removed.Alone(data)
      decreases repr, 0
    {
      removed := null;
      if mRight != null {
        mRight, removed := Remove(outRanks, mRight, data);
      }
      if removed != null {
        repr := repr - {removed};
        tree := Node(mSize, tree.left, mData, if mRight == null then Leaf else mRight.tree);
      }
    }

    /** `removed` is null if the data is not there; `rest` is null if its node was the last one. */
    static method Remove(outRanks: (T, T) -> bool, top: HeapNode<T>, data: T)
      returns (rest: HeapNode?<T>, removed: HeapNode?<T>)
      requires top.Valid()
      modifies top.repr
      ensures removed != null <==> HeapSpec.Remove(outRanks, old(top.tree), data).found
      ensures removed != null ==> removed in old(top.repr) && removed.Alone(data)
      ensures rest == null ==> removed == top && HeapSpec.Remove(outRanks, old(top.tree), data).tree.Leaf?
      ensures rest != null ==>
        && rest == top && rest.Valid() && rest.tree == HeapSpec.Remove(outRanks, old(top.tree), data).tree
        && rest.repr == (if removed == null then old(top.repr) else old(top.repr) - {removed})
      decreases top.repr, 1
    {
      rest, removed := top, null;
      if data == top.mData {
        // this is the node, by address
        rest, removed := Pop(outRanks, top);
      } else if !outRanks(data, top.mData) {
        removed := top.RemoveLeft(outRanks, data);
        if removed == null {
          removed := top.RemoveRight(outRanks, data);
        }
        if removed != null {
          // top lost a node in its subtree
          top.mSize := top.mSize - 1;
          top.tree := top.tree.(size := top.mSize);
        }
      }
    }

    /** Decides what the heap's self-check decides: sizes are exact and no child outranks its parent. */
    method CheckNodes(outRanks: (T, T) -> bool) returns (ok: bool)
      requires Valid()
      ensures ok <==> Sized(tree) && Ordered(outRanks, tree)
      decreases repr
    {
      var totalSize := mSize;
      if mLeft != null {
        if outRanks(mLeft.mData, mData) {
          return false;
        }
        var okLeft := mLeft.CheckNodes(outRanks);
        if !okLeft {
          return false;
        }
        totalSize := totalSize - mLeft.mSize;
      }
      if mRight != null {
        if outRanks(mRight.mData, mData) {
          return false;
        }
        var okRight := mRight.CheckNodes(outRanks);
        if !okRight {
          return false;
        }
        totalSize := totalSize - mRight.mSize;
      }
      return totalSize == 1;
    }
  }

  class LocHeap<T(==, !new)> {
    const outRanks: (T, T) -> bool   // the rank comparison its elements implement
    var mTree: HeapNode?<T>
    ghost var repr: set<HeapNode<T>>

    ghost predicate Valid()
      reads this, repr
    {
      if mTree == null then repr == {} else mTree in repr && mTree.repr == repr && mTree.Valid()
    }

    ghost function Value(): Tree<T>
      reads this, mTree
    {
      if mTree == null then Leaf else mTree.tree
    }

    constructor (outRanks: (T, T) -> bool)
      ensures Valid() && Value() == Leaf && this.outRanks == outRanks && repr == {}
    {
      this.outRanks := outRanks;
      mTree, repr := null, {};
    }

    method Push(data: T)
      requires Valid()
      modifies this, repr
      ensures Valid() && fresh(repr - old(repr))
      ensures Value() == HeapSpec.Push(outRanks, old(Value()), data)
    {
      var heapNode := new HeapNode(data);
      if mTree == null {
        mTree := heapNode;
      } else {
        mTree.Push(outRanks, heapNode);
      }
      repr := mTree.repr;
    }

    method Peek() returns (top: Option<T>)
      requires Valid()
      ensures top == if Value().Leaf? then None else Some(Value().data)
    {
      top := if mTree == null then None else Some(mTree.mData);
    }

    method Pop() returns (data: Option<T>)
      requires Valid()
      modifies this, repr
      ensures Valid() && repr <= old(repr)
      ensures old(Value()).Leaf? ==> data == None && Value() == Leaf
      ensures old(Value()).Node? ==> data == Some(old(Value()).data) && Value() == PopTop(outRanks, old(Value()))
    {
      data := None;
      if mTree != null {
        var heapNode;
        mTree, heapNode := HeapNode<T>.Pop(outRanks, mTree);
        data := Some(heapNode.mData);
        repr := if mTree == null then {} else mTree.repr;
      }
    }

    method Remove(wanted: T) returns (data: Option<T>)
      requires Valid()
      modifies this, repr
      ensures Valid() && repr <= old(repr)
      ensures var r := HeapSpec.Remove(outRanks, old(Value()), wanted);
        Value() == r.tree && data == if r.found then Some(wanted) else None
    {
      data := None;
      if mTree != null {
        var heapNode;
        mTree, heapNode := HeapNode<T>.Remove(outRanks, mTree, wanted);
        if heapNode != null {
          data := Some(heapNode.mData);
        }
        repr := if mTree == null then {} else mTree.repr;
      }
    }
  }
}
