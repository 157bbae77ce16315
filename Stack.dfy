/**
 * The solver's work stack: a singly linked list of nodes with a pointer to
 * the top node, each node linking to the one pushed before it. `top()` hands out a reference to the top element, through
 * which the solver updates the frame on top in place; ReplaceTop models that
 * write.
 */
module Stacks {
  import opened Wrappers

  class Node<T> {
    var data: T
    var next: Node?<T>

    constructor (data: T, next: Node?<T>)
      ensures this.data == data && this.next == next
    {
      this.data := data;
      this.next := next;
    }
  }

  class Stack<T> {
    var topNode: Node?<T>

    /** The elements from the bottom up: the last element is the top. */
    ghost var Contents: seq<T>
    /** The nodes of the list, in the same order: each node's next is the one before it. */
    ghost var Nodes: seq<Node<T>>
    ghost var Repr: set<object>

    ghost predicate Valid()
      reads this, Repr
    {
      && this in Repr
      && |Nodes| == |Contents|
      && (forall i :: 0 <= i < |Nodes| ==> Nodes[i] in Repr)
      && (forall i, j :: 0 <= i < j < |Nodes| ==> Nodes[i] != Nodes[j])
      && topNode == (if Nodes == [] then null else Nodes[|Nodes| - 1])
      && (forall i :: 0 <= i < |Nodes| ==> Nodes[i].data == Contents[i])
      && (Nodes != [] ==> Nodes[0].next == null)
      && (forall i {:trigger Nodes[i].next} :: 1 <= i < |Nodes| ==> Nodes[i].next == Nodes[i - 1])
    }

    /** A new stack is empty. */
    constructor ()
      ensures Valid() && fresh(Repr)
      ensures Contents == []
    {
      topNode := null;
      Contents := [];
      Nodes := [];
      Repr := {this};
    }

    /** isEmpty: there is no top node exactly when the stack holds nothing. */
    method IsEmpty() returns (empty: bool)
      requires Valid()
      ensures empty <==> Contents == []
    {
      empty := topNode == null;
    }

    /** push: a fresh node becomes the top; everything below is unchanged. */
    method Push(x: T)
      requires Valid()
      modifies this
      ensures Valid() && fresh(Repr - old(Repr))
      ensures Contents == old(Contents) + [x]
    {
      var node := new Node(x, topNode);
      ghost var oldNodes, oldContents := Nodes, Contents;
      topNode := node;
      Contents := Contents + [x];
      Nodes := Nodes + [node];
      Repr := Repr + {node};
      forall i | 0 <= i < |oldNodes|
        ensures Nodes[i] == oldNodes[i] && Contents[i] == oldContents[i]
      {
      }
      forall i, j | 0 <= i < j < |Nodes|
        ensures Nodes[i] != Nodes[j]
      {
        assert Nodes[i] == oldNodes[i] && oldNodes[i] in old(Repr);
      }
    }

    /**
     * pop: on an empty stack an out_of_range error (None); otherwise the top
     * element, and the stack as it was before that element was pushed.
     */
    method Pop() returns (r: Option<T>)
      requires Valid()
      modifies this
      ensures Valid() && Repr == old(Repr)
      ensures old(Contents) == [] ==> r == None && Contents == []
      ensures old(Contents) != [] ==>
        r == Some(old(Contents)[|old(Contents)| - 1]) && Contents == old(Contents)[..|old(Contents)| - 1]
    {
      if topNode == null {
        return None;
      }
      var data := topNode.data;
      topNode := topNode.next;
      Contents := Contents[..|Contents| - 1];
      Nodes := Nodes[..|Nodes| - 1];
      r := Some(data);
    }

    /** top: an out_of_range error (None) on an empty stack, else the top element; never changes the stack. */
    method Top() returns (r: Option<T>)
      requires Valid()
      ensures Contents == [] ==> r == None
      ensures Contents != [] ==> r == Some(Contents[|Contents| - 1])
    {
      if topNode == null {
        return None;
      }
      r := Some(topNode.data);
    }

    /** A write through the reference top() returns: only the top element changes. */
    method ReplaceTop(x: T)
      requires Valid() && Contents != []
      modifies this, Repr
      ensures Valid() && Repr == old(Repr)
      ensures Contents == old(Contents)[..|old(Contents)| - 1] + [x]
    {
      ghost var oldContents := Contents;
      ghost var n := |Nodes| - 1;
      topNode.data := x;
      Contents := Contents[..n] + [x];
      forall i | 0 <= i < n
        ensures Nodes[i] != Nodes[n] && Contents[i] == oldContents[i]
        ensures Nodes[i].data == old(Nodes[i].data)
      {
      }
    }
  }

  /** Last in, first out: popping right after a push returns the pushed element and restores the stack. */
  method PushThenPop<T>(s: Stack<T>, x: T) returns (r: Option<T>)
    requires s.Valid()
    modifies s, s.Repr
    ensures s.Valid()
    ensures r == Some(x) && s.Contents == old(s.Contents)
  {
    s.Push(x);
    r := s.Pop();
  }
}
