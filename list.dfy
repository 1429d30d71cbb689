/** The singly linked list of list.c/list.h. Its `list_append` links the new
    node in FRONT of the old head, so a list built by appending x1 .. xn from
    NULL reads xn .. x1 from its head; the field precedence of the ACPI
    resolvers follows from that. */
module LinkedList {

  /** `struct list`: a datum and the successor (NULL at the end). */
  class Node<T> {
    var data: T
    var next: Node?<T>
    /** the data of this node and of all its successors, head first */
    ghost var Contents: seq<T>
    /** this node and all its successors */
    ghost var Repr: set<object>

    ghost predicate Valid()
      reads this, Repr
      decreases Repr
    {
      this in Repr &&
      (next == null ==> Contents == [data] && Repr == {this}) &&
      (next != null ==>
        next in Repr && this !in next.Repr && Repr == {this} + next.Repr &&
        Contents == [data] + next.Contents &&
        next.Valid())
    }

    /** list_new: one node holding `data`, with a NULL successor. */
    constructor (data: T)
      ensures Valid() && fresh(Repr)
      ensures this.data == data && next == null
      ensures Contents == [data] && Repr == {this}
    {
      this.data := data;
      next := null;
      Contents := [data];
      Repr := {this};
    }
  }

  /** The data a possibly empty list holds, head first. */
  ghost function Elements<T>(l: Node?<T>): seq<T>
    reads l
  {
    if l == null then [] else l.Contents
  }

  /** The nodes of a possibly empty list. */
  ghost function Footprint<T>(l: Node?<T>): set<object>
    reads l
  {
    if l == null then {} else l.Repr
  }

  /** NULL, or a well-formed list. */
  ghost predicate IsList<T>(l: Node?<T>)
    reads l, Footprint(l)
  {
    l == null || l.Valid()
  }

  /** list_append: a fresh node holding `data` whose successor is the old
      head; the old list becomes its tail unchanged (no modifies clause: no
      existing node is written). With `node == null` it is list_new. */
  method Append<T>(node: Node?<T>, data: T) returns (r: Node<T>)
    requires IsList(node)
    ensures fresh(r) && r.Valid()
    ensures r.data == data && r.next == node
    ensures r.Contents == [data] + Elements(node)
    ensures r.Repr == {r} + Footprint(node)
  {
    r := new Node(data);
    r.next := node;
    r.Contents := [data] + Elements(node);
    r.Repr := {r} + Footprint(node);
  }

  /** list_next: the successor of a node; nothing is modified. */
  method Next<T>(node: Node<T>) returns (r: Node?<T>)
    requires node.Valid()
    ensures r == node.next && IsList(r)
    ensures node.Contents == [node.data] + Elements(r)
    ensures Footprint(r) < node.Repr
  {
    r := node.next;
  }

  /** list_length: the number of nodes, counted by walking the `next`
      pointers; 0 for NULL. (The source counts in an `unsigned int`; lists
      of 2^32 nodes and more are not modelled.) */
  method Length<T>(node: Node?<T>) returns (l: nat)
    requires IsList(node)
    ensures l == |Elements(node)|
  {
    l := 0;
    var p := node;
    while p != null
      invariant IsList(p)
      invariant l + |Elements(p)| == |Elements(node)|
      decreases Footprint(p)
    {
      l := l + 1;
      p := p.next;
    }
  }

  /** list_length after list_append counts one more node, and NULL has
      none. */
  method LengthAfterAppend<T>(l: Node?<T>, x: T) returns (before: nat, after: nat)
    requires IsList(l)
    ensures before == |Elements(l)| && after == |Elements(l)| + 1
    ensures l == null ==> before == 0 && after == 1
  {
    before := Length(l);
    var r := Append(l, x);
    after := Length(r);
  }

  /** The sequence read backwards. */
  function Reverse<T>(s: seq<T>): (r: seq<T>)
    ensures |r| == |s|
  {
    if s == [] then [] else [s[|s| - 1]] + Reverse(s[..|s| - 1])
  }

  /** Reversing puts the last element first. */
  lemma ReverseSnoc<T>(s: seq<T>, x: T)
    ensures Reverse(s + [x]) == [x] + Reverse(s)
  {
    assert (s + [x])[..|s|] == s;
  }

  lemma {:induction false} ReverseAt<T>(s: seq<T>, k: nat)
    requires k < |s|
    ensures Reverse(s)[k] == s[|s| - 1 - k]
  {
    if k > 0 {
      ReverseAt(s[..|s| - 1], k - 1);
    }
  }

  /** Reading a reversed list backwards gives the original order back. */
  lemma {:induction false} ReverseReverse<T>(s: seq<T>)
    ensures Reverse(Reverse(s)) == s
  {
    var r := Reverse(Reverse(s));
    forall k | 0 <= k < |s| ensures r[k] == s[k] {
      ReverseAt(Reverse(s), k);
      ReverseAt(s, |s| - 1 - k);
    }
  }

  /** Appending x1 .. xn in order, starting from NULL, gives a list whose head
      holds xn and whose last node holds x1. */
  method AppendAll<T>(xs: seq<T>) returns (l: Node?<T>)
    ensures IsList(l) && Elements(l) == Reverse(xs)
    ensures l == null <==> xs == []
  {
    l := null;
    var i := 0;
    while i < |xs|
      invariant 0 <= i <= |xs|
      invariant IsList(l) && Elements(l) == Reverse(xs[..i])
      invariant l == null <==> i == 0
    {
      l := Append(l, xs[i]);
      assert xs[..i + 1][..i] == xs[..i];
      i := i + 1;
    }
    assert xs[..i] == xs;
  }
}
