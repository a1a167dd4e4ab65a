/** The keyed doubly linked list of exercise 30-02, called a tree there, with pointers to its first and
    last element. */
module KeyedList {
  import opened Basics
  import opened Links

  const RET_SUCCESS := 0
  const RET_FAILURE := -1
  const NOT_FOUND := 1

  /** `value` is `None` for a null pointer. */
  datatype Pair = Pair(key: string, value: Option<string>)

  // ----- what the list stands for: pairs with distinct keys, in the order of insertion -----

  ghost predicate Distinct(pairs: seq<Pair>) {
    forall i, j :: 0 <= i < j < |pairs| ==> pairs[i].key != pairs[j].key
  }

  /** The place of a key, or the length when it is missing. */
  function IndexOf(pairs: seq<Pair>, key: string): (k: nat)
    ensures k <= |pairs| && (k < |pairs| ==> pairs[k].key == key)
    ensures forall i :: 0 <= i < k ==> pairs[i].key != key
  {
    if pairs == [] || pairs[0].key == key then 0 else 1 + IndexOf(pairs[1..], key)
  }

  lemma IndexOfIs(pairs: seq<Pair>, key: string, k: nat)
    requires k <= |pairs| && (k < |pairs| ==> pairs[k].key == key)
    requires forall i :: 0 <= i < k ==> pairs[i].key != key
    ensures IndexOf(pairs, key) == k
  {
  }

  function Added(pairs: seq<Pair>, p: Pair): seq<Pair> {
    if IndexOf(pairs, p.key) < |pairs| then pairs else pairs + [p]
  }

  function Deleted(pairs: seq<Pair>, key: string): seq<Pair> {
    var k := IndexOf(pairs, key);
    if k < |pairs| then Without(pairs, k) else pairs
  }

  lemma AddedDistinct(pairs: seq<Pair>, p: Pair)
    requires Distinct(pairs)
    ensures Distinct(Added(pairs, p))
  {
  }

  lemma DeletedDistinct(pairs: seq<Pair>, key: string)
    requires Distinct(pairs)
    ensures Distinct(Deleted(pairs, key)) && IndexOf(Deleted(pairs, key), key) == |Deleted(pairs, key)|
  {
    var k, ps := IndexOf(pairs, key), Deleted(pairs, key);
    if k < |pairs| {
      WithoutAt(pairs, k);
    }
    forall i | 0 <= i < |ps|
      ensures ps[i].key != key
    {
      if k < |pairs| {
        assert ps[i] == pairs[Skip(i, k)];
      }
    }
    IndexOfIs(ps, key, |ps|);
  }

  // ----- the list -----

  class Tree {
    var first: Node?<Pair>
    var last: Node?<Pair>
    ghost var nodes: seq<Node<Pair>>
    ghost var pairs: seq<Pair>

    ghost predicate Chain()
      reads this, nodes
    {
      Linked(nodes) && Carry(nodes, pairs) && first == Neighbour(nodes, 0) && last == Neighbour(nodes, |nodes| - 1)
    }

    ghost predicate Valid()
      reads this, nodes
    {
      Chain() && Distinct(pairs)
    }

    /** `tree_init` */
    constructor ()
      ensures Valid() && pairs == [] && nodes == []
    {
      first, last, nodes, pairs := null, null, [], [];
    }

    lemma ElementAt(i: nat)
      requires Chain() && i < |nodes|
      ensures |nodes| == |pairs| && nodes[i].data == pairs[i]
      ensures nodes[i].next == Neighbour(nodes, i + 1) && nodes[i].prev == Neighbour(nodes, i - 1)
    {
    }

    lemma Sizes()
      requires Chain()
      ensures |nodes| == |pairs|
    {
    }

    /** The loops that look for a key. */
    method Find(key: string) returns (elem: Node?<Pair>, ghost k: nat)
      requires Chain()
      ensures |nodes| == |pairs| && elem == Neighbour(nodes, IndexOf(pairs, key))
      ensures elem == null <==> forall i :: 0 <= i < |pairs| ==> pairs[i].key != key
      ensures k == IndexOf(pairs, key)
    {
      elem, k := first, 0;
      while elem != null
        invariant k <= |nodes| && elem == Neighbour(nodes, k)
        invariant forall i :: 0 <= i < k ==> pairs[i].key != key
        decreases |nodes| - k
      {
        if elem.data.key == key {
          break;
        }
        elem, k := elem.next, k + 1;
      }
      IndexOfIs(pairs, key, k);
    }

    /** A new element becomes the last. */
    method Append(p: Pair)
      requires Chain()
      modifies this, nodes
      ensures Chain() && pairs == old(pairs) + [p]
      ensures |nodes| > 0 && nodes[..|nodes| - 1] == old(nodes) && fresh(nodes[|nodes| - 1])
    {
      var elem := new Node(p);
      if first == null {
        first := elem;
        last := elem;
      } else {
        last.next := elem;
        elem.prev := last;
        last := elem;
      }
      nodes, pairs := nodes + [elem], pairs + [p];
    }

    /** `tree_add` */
    method Add(key: string, value: Option<string>) returns (r: int)
      requires Valid()
      modifies this, nodes
      ensures Valid() && pairs == Added(old(pairs), Pair(key, value))
      ensures r == if IndexOf(old(pairs), key) < |old(pairs)| then RET_FAILURE else RET_SUCCESS
      ensures forall n :: n in nodes ==> n in old(nodes) || fresh(n)
    {
      hide Linked, Carry, IndexOf;
      var elem, k := Find(key);
      if elem != null {
        return RET_FAILURE;
      }
      AddedDistinct(pairs, Pair(key, value));
      Append(Pair(key, value));
      return RET_SUCCESS;
    }

    /** The three cases of `tree_del` for the element found: first, last, in the middle. */
    method Detach(elem: Node<Pair>, ghost k: nat)
      requires Chain() && k < |nodes| && nodes[k] == elem
      modifies this`first, this`last, nodes
      ensures Bypassed(nodes, k) && Carry(nodes, pairs) && elem.prev == old(elem.prev)
      ensures first == Neighbour(nodes, if k == 0 then 1 else 0)
      ensures last == Neighbour(nodes, if k == |nodes| - 1 then |nodes| - 2 else |nodes| - 1)
    {
      if elem.prev == null {
        first := elem.next;
        if first != null {
          first.prev := null;
        }
      }
      if elem.next == null {
        last := elem.prev;
        if last != null {
          last.next := null;
        }
      }
      if elem.prev != null && elem.next != null {
        elem.prev.next := elem.next;
        elem.next.prev := elem.prev;
      }
    }

    /** Detaching as seen by the rest of the list. */
    method Remove(elem: Node<Pair>, ghost k: nat)
      requires Valid() && k < |nodes| && nodes[k] == elem
      modifies this, nodes
      ensures Chain() && pairs == Without(old(pairs), k) && nodes == Without(old(nodes), k)
      ensures elem.prev == Neighbour(nodes, k - 1)
    {
      ElementAt(k);
      PrevWithout(nodes, k);
      hide Linked, Carry, Without;
      Detach(elem, k);
      BypassedLinked(nodes, k);
      CarryWithout(nodes, pairs, k);
      LastWithout(nodes, k);
      nodes, pairs := Without(nodes, k), Without(pairs, k);
    }

    /** `tree_del`: the walk goes on behind an element it has removed, from the one before it. */
    method Del(key: string) returns (r: int)
      requires Valid()
      modifies this, nodes
      ensures Valid() && pairs == Deleted(old(pairs), key)
      ensures r == if IndexOf(old(pairs), key) < |old(pairs)| then RET_SUCCESS else RET_FAILURE
      ensures forall n :: n in nodes ==> n in old(nodes)
    {
      hide Linked, Carry, Without, IndexOf, Distinct;
      var del := false;
      var elem := first;
      ghost var i := 0;
      Sizes();
      while elem != null
        invariant Valid() && i <= |nodes| == |pairs| && elem == Neighbour(nodes, i)
        invariant !del ==> pairs == old(pairs) && nodes == old(nodes) && forall j :: 0 <= j < i ==> pairs[j].key != key
        invariant del ==> IndexOf(old(pairs), key) < |old(pairs)| && pairs == Deleted(old(pairs), key)
        invariant forall n :: n in nodes ==> n in old(nodes)
        decreases |nodes| - i
      {
        ElementAt(i);
        if elem.data.key != key {
          elem, i := elem.next, i + 1;
          continue;
        }
        DeletedDistinct(old(pairs), key);
        if !del {
          IndexOfIs(pairs, key, i);
        }
        WithoutIn(nodes, i);
        Remove(elem, i);
        Sizes();
        del := true;
        elem := elem.prev;
        if elem == null {
          break;
        }
        ElementAt(i - 1);
        elem := elem.next;
      }
      if del {
        return RET_SUCCESS;
      }
      IndexOfIs(pairs, key, |pairs|);
      return RET_FAILURE;
    }

    /** `tree_look`: `value` must be null on entry and gets the value found. */
    method Look(key: string, value: Option<string>) returns (r: int, value': Option<string>)
      requires Valid()
      ensures value.Some? ==> r == RET_FAILURE && value' == value
      ensures value.None? ==>
                var k := IndexOf(pairs, key);
                && value' == (if k < |pairs| then pairs[k].value else None)
                && r == if value'.Some? then RET_SUCCESS else NOT_FOUND
    {
      if value.Some? {
        return RET_FAILURE, value;
      }
      var elem, k := Find(key);
      value' := if elem != null then elem.data.value else value;
      r := if value'.None? then NOT_FOUND else RET_SUCCESS;
    }
  }

  lemma PrevWithout<T>(nodes: seq<Node<T>>, k: nat)
    requires k < |nodes|
    ensures Neighbour(Without(nodes, k), k - 1) == Neighbour(nodes, k - 1)
  {
  }

  lemma LastWithout<T>(nodes: seq<Node<T>>, k: nat)
    requires k < |nodes|
    ensures |Without(nodes, k)| == |nodes| - 1
    ensures Neighbour(Without(nodes, k), |nodes| - 2) == Neighbour(nodes, if k == |nodes| - 1 then |nodes| - 2 else |nodes| - 1)
  {
  }

  // ----- whole histories -----

  datatype Op = AddOp(pair: Pair) | DelOp(key: string)

  function Apply(pairs: seq<Pair>, op: Op): seq<Pair> {
    match op
    case AddOp(p) => Added(pairs, p)
    case DelOp(key) => Deleted(pairs, key)
  }

  /** The list after a history of operations on an empty one. */
  function Run(ops: seq<Op>): seq<Pair> {
    if ops == [] then [] else Apply(Run(ops[..|ops| - 1]), ops[|ops| - 1])
  }

  /** The same history on a map, where adding does not overwrite. */
  function MapRun(ops: seq<Op>): map<string, Option<string>> {
    if ops == [] then map[]
    else
      var m := MapRun(ops[..|ops| - 1]);
      match ops[|ops| - 1]
      case AddOp(p) => if p.key in m then m else m[p.key := p.value]
      case DelOp(key) => m - {key}
  }

  /** The operation that put the key into the list as it is now. */
  function InsertedAt(ops: seq<Op>, key: string): nat {
    if ops == [] then 0
    else
      var n := |ops| - 1;
      if ops[n].AddOp? && ops[n].pair.key == key && key !in MapRun(ops[..n]) then n else InsertedAt(ops[..n], key)
  }

  /** The list holds the pairs of the map. */
  ghost predicate Lists(pairs: seq<Pair>, m: map<string, Option<string>>) {
    && (forall i :: 0 <= i < |pairs| ==> pairs[i].key in m && m[pairs[i].key] == pairs[i].value)
    && (forall key :: key in m ==> IndexOf(pairs, key) < |pairs|)
  }

  lemma ListsAdd(pairs: seq<Pair>, m: map<string, Option<string>>, p: Pair)
    requires Distinct(pairs) && Lists(pairs, m)
    ensures Lists(Added(pairs, p), if p.key in m then m else m[p.key := p.value])
  {
    hide Distinct;
    if p.key !in m {
      var ps, m' := pairs + [p], m[p.key := p.value];
      assert IndexOf(pairs, p.key) == |pairs|;
      forall key | key in m'
        ensures IndexOf(ps, key) < |ps|
      {
        if key == p.key {
          IndexOfIs(ps, key, |pairs|);
        } else {
          IndexOfIs(ps, key, IndexOf(pairs, key));
        }
      }
    }
  }

  lemma ListsDel(pairs: seq<Pair>, m: map<string, Option<string>>, key: string)
    requires Distinct(pairs) && Lists(pairs, m)
    ensures Lists(Deleted(pairs, key), m - {key})
  {
    hide IndexOf;
    var k, ps := IndexOf(pairs, key), Deleted(pairs, key);
    DeletedDistinct(pairs, key);
    hide Distinct;
    if k < |pairs| {
      WithoutAt(pairs, k);
      hide Without;
      forall i | 0 <= i < |ps|
        ensures ps[i].key in m - {key} && (m - {key})[ps[i].key] == ps[i].value
      {
        assert ps[i] == pairs[Skip(i, k)];
      }
      forall other | other in m - {key}
        ensures IndexOf(ps, other) < |ps|
      {
        var j := IndexOf(pairs, other);
        assert ps[if j < k then j else j - 1] == pairs[j];
      }
    }
  }

  /** In every history the list refines the map, its keys are distinct, and they stand in the order in
      which they were inserted. */
  lemma {:induction false} RunTheorem(ops: seq<Op>)
    ensures Distinct(Run(ops)) && Lists(Run(ops), MapRun(ops))
    ensures forall i, j :: 0 <= i < j < |Run(ops)| ==> InsertedAt(ops, Run(ops)[i].key) < InsertedAt(ops, Run(ops)[j].key)
    ensures forall i :: 0 <= i < |Run(ops)| ==> InsertedAt(ops, Run(ops)[i].key) < |ops|
  {
    if ops != [] {
      var n := |ops| - 1;
      var before, pairs, m := ops[..n], Run(ops[..n]), MapRun(ops[..n]);
      RunTheorem(before);
      match ops[n]
      case AddOp(p) =>
        AddedDistinct(pairs, p);
        ListsAdd(pairs, m, p);
        OrderAdd(ops, p);
      case DelOp(key) =>
        DeletedDistinct(pairs, key);
        ListsDel(pairs, m, key);
        OrderDel(ops, key);
    }
  }

  ghost predicate Ordered(ops: seq<Op>, pairs: seq<Pair>) {
    && (forall i, j :: 0 <= i < j < |pairs| ==> InsertedAt(ops, pairs[i].key) < InsertedAt(ops, pairs[j].key))
    && (forall i :: 0 <= i < |pairs| ==> InsertedAt(ops, pairs[i].key) < |ops|)
  }

  lemma InsertedStep(ops: seq<Op>, key: string)
    requires ops != []
    ensures var n := |ops| - 1;
            InsertedAt(ops, key) ==
            if ops[n].AddOp? && ops[n].pair.key == key && key !in MapRun(ops[..n]) then n else InsertedAt(ops[..n], key)
  {
  }

  lemma OrderAdd(ops: seq<Op>, p: Pair)
    requires ops != [] && ops[|ops| - 1] == AddOp(p)
    requires var before := ops[..|ops| - 1]; Lists(Run(before), MapRun(before)) && Ordered(before, Run(before))
    ensures Ordered(ops, Run(ops))
  {
    var n := |ops| - 1;
    var pairs := Run(ops[..n]);
    assert Run(ops) == Added(pairs, p);
    hide Run, MapRun, InsertedAt, IndexOf;
    forall i | 0 <= i < |pairs|
      ensures InsertedAt(ops, pairs[i].key) == InsertedAt(ops[..n], pairs[i].key)
    {
      InsertedStep(ops, pairs[i].key);
      assert pairs[i].key in MapRun(ops[..n]);
    }
    InsertedStep(ops, p.key);
  }

  lemma OrderSame(ops: seq<Op>, pairs: seq<Pair>)
    requires ops != [] && ops[|ops| - 1].DelOp? && Ordered(ops[..|ops| - 1], pairs)
    ensures Ordered(ops, pairs)
  {
    hide InsertedAt, MapRun;
    forall i | 0 <= i < |pairs|
      ensures InsertedAt(ops, pairs[i].key) == InsertedAt(ops[..|ops| - 1], pairs[i].key)
    {
      InsertedStep(ops, pairs[i].key);
    }
  }

  lemma OrderDel(ops: seq<Op>, key: string)
    requires ops != [] && ops[|ops| - 1] == DelOp(key)
    requires var before := ops[..|ops| - 1]; Ordered(before, Run(before))
    ensures Ordered(ops, Run(ops))
  {
    var before := ops[..|ops| - 1];
    assert Run(ops) == Deleted(Run(before), key);
    hide Run, Ordered, IndexOf, Without;
    OrderWithout(before, Run(before), IndexOf(Run(before), key));
    OrderSame(ops, Run(ops));
  }

  lemma OrderWithout(ops: seq<Op>, pairs: seq<Pair>, k: nat)
    requires Ordered(ops, pairs)
    ensures k < |pairs| ==> Ordered(ops, Without(pairs, k))
  {
    if k < |pairs| {
      WithoutAt(pairs, k);
    }
    hide InsertedAt, Without;
  }
}
