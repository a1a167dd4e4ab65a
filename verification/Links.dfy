/** Doubly linked nodes, as in the lists of exercises 59-04 and 30-02. */
module Links {

  class Node<T> {
    var data: T
    var next: Node?<T>
    var prev: Node?<T>

    constructor (d: T)
      ensures data == d && next == null && prev == null
    {
      data, next, prev := d, null, null;
    }
  }

  /** The nodes are distinct and each is linked to its neighbours in the sequence and to nothing else;
      so the chain is acyclic and `next` and `prev` are inverse to one another. */
  ghost predicate Linked<T>(nodes: seq<Node<T>>)
    reads nodes
  {
    && (forall i, j :: 0 <= i < j < |nodes| ==> nodes[i] != nodes[j])
    && (forall i {:trigger nodes[i].next} :: 0 <= i < |nodes| ==> nodes[i].next == Neighbour(nodes, i + 1))
    && (forall i {:trigger nodes[i].prev} :: 0 <= i < |nodes| ==> nodes[i].prev == Neighbour(nodes, i - 1))
  }

  /** The node at position `i`, or null beyond the ends. */
  ghost function Neighbour<T>(nodes: seq<Node<T>>, i: int): Node?<T> {
    if 0 <= i < |nodes| then nodes[i] else null
  }

  /** The nodes hold the given data. */
  ghost predicate Carry<T>(nodes: seq<Node<T>>, data: seq<T>)
    reads nodes
  {
    |nodes| == |data| && forall i {:trigger nodes[i].data} {:trigger data[i]} :: 0 <= i < |nodes| ==> nodes[i].data == data[i]
  }

  function Without<T>(s: seq<T>, k: nat): seq<T>
    requires k < |s|
  {
    s[..k] + s[k + 1..]
  }

  /** The place in a sequence of what is at `i` once the element at `k` is gone. */
  function Skip(i: nat, k: nat): nat {
    if i < k then i else i + 1
  }

  lemma WithoutAt<T>(s: seq<T>, k: nat)
    requires k < |s|
    ensures |Without(s, k)| == |s| - 1
    ensures forall i :: 0 <= i < |s| - 1 ==> Without(s, k)[i] == s[Skip(i, k)]
  {
  }

  lemma WithoutIn<T>(s: seq<T>, k: nat)
    requires k < |s|
    ensures |Without(s, k)| == |s| - 1 && forall x :: x in Without(s, k) ==> x in s
  {
  }

  /** The chain passes by the node at `k`: its neighbours are linked to one another. */
  ghost predicate Bypassed<T>(nodes: seq<Node<T>>, k: nat)
    requires k < |nodes|
    reads nodes
  {
    && (forall i, j :: 0 <= i < j < |nodes| ==> nodes[i] != nodes[j])
    && (forall i {:trigger nodes[i].next} :: 0 <= i < |nodes| && i != k ==>
          nodes[i].next == Neighbour(nodes, if i + 1 == k then k + 1 else i + 1))
    && (forall i {:trigger nodes[i].prev} :: 0 <= i < |nodes| && i != k ==>
          nodes[i].prev == Neighbour(nodes, if i - 1 == k then k - 1 else i - 1))
  }

  lemma BypassedLinked<T>(nodes: seq<Node<T>>, k: nat)
    requires k < |nodes| && Bypassed(nodes, k)
    ensures Linked(Without(nodes, k))
    ensures Neighbour(Without(nodes, k), 0) == Neighbour(nodes, if k == 0 then 1 else 0)
  {
  }

  lemma CarryWithout<T>(nodes: seq<Node<T>>, data: seq<T>, k: nat)
    requires k < |nodes| && Carry(nodes, data)
    ensures Carry(Without(nodes, k), Without(data, k))
  {
    WithoutAt(nodes, k);
    WithoutAt(data, k);
    hide Without;
    var ns, ds := Without(nodes, k), Without(data, k);
    forall i | 0 <= i < |ns|
      ensures ns[i].data == ds[i]
    {
      assert ns[i] == nodes[Skip(i, k)] && ds[i] == data[Skip(i, k)];
    }
  }
}
