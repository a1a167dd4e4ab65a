/** The name/value list of `src/lib/59-04-llist.c`. */
module NameValueList {
  import opened Links

  const LL_NAME_LEN := 16
  const LL_VALUE_LEN := 32
  const LL_USRNAME_LEN := 32

  const FN_OK := 0
  const FN_ER := -1
  const EL_PERM := 1
  const EL_EXIST := 2
  const EL_NOEXT := 3

  /** `struct item_nv`: three character fields of fixed size. */
  datatype Item = Item(name: string, value: string, own: string)

  /** The text in a field: what comes before the first null character, if there is one. */
  function Text(field: string): (t: string)
    ensures t <= field && '\0' !in t && (t == field || field[|t|] == '\0')
  {
    if field == "" || field[0] == '\0' then "" else [field[0]] + Text(field[1..])
  }

  predicate ItemOk(it: Item) {
    |it.name| == LL_NAME_LEN && |it.value| == LL_VALUE_LEN && |it.own| == LL_USRNAME_LEN
  }

  /** `strncmp` of two fields of the same size gives 0. */
  predicate SameText(a: string, b: string)
    requires |a| == |b|
  {
    Text(a) == Text(b)
  }

  lemma TextShorter(field: string)
    requires '\0' in field
    ensures |Text(field)| < |field|
  {
  }

  /** `strcpy` into a field: the text and its null character; the bytes behind stay. */
  function StrCpy(to: string, from: string): (r: string)
    requires |to| == |from| && '\0' in from
    ensures |r| == |to| && '\0' in r && Text(r) == Text(from)
  {
    TextShorter(from);
    var t := Text(from);
    var r := t + ['\0'] + to[|t| + 1..];
    assert r[|t|] == '\0';
    TextOf(t, to[|t| + 1..]);
    r
  }

  lemma {:induction false} TextOf(t: string, rest: string)
    requires '\0' !in t
    ensures Text(t + ['\0'] + rest) == t
  {
    if t != "" {
      assert (t + ['\0'] + rest)[1..] == t[1..] + ['\0'] + rest;
      TextOf(t[1..], rest);
    }
  }

  // ----- what the list stands for -----

  datatype Entry = Entry(value: string, own: string)

  type Store = map<string, Entry>

  function EntryOf(it: Item): Entry {
    Entry(Text(it.value), Text(it.own))
  }

  ghost predicate ItemsOk(items: seq<Item>) {
    && (forall i :: 0 <= i < |items| ==> ItemOk(items[i]))
    && (forall i, j :: 0 <= i < j < |items| ==> Text(items[i].name) != Text(items[j].name))
  }

  ghost function StoreOf(items: seq<Item>): Store {
    if items == [] then map[] else StoreOf(items[1..])[Text(items[0].name) := EntryOf(items[0])]
  }

  lemma {:induction false} StoreKeys(items: seq<Item>, name: string)
    ensures name in StoreOf(items) <==> exists i :: 0 <= i < |items| && Text(items[i].name) == name
  {
    if items != [] {
      StoreKeys(items[1..], name);
      if i :| 0 <= i < |items| && Text(items[i].name) == name {
        if i > 0 {
          assert Text(items[1..][i - 1].name) == name;
        }
      }
      if i :| 0 <= i < |items[1..]| && Text(items[1..][i].name) == name {
        assert Text(items[i + 1].name) == name;
      }
    }
  }

  lemma {:induction false} StoreAt(items: seq<Item>, k: nat)
    requires ItemsOk(items) && k < |items|
    ensures Text(items[k].name) in StoreOf(items) && StoreOf(items)[Text(items[k].name)] == EntryOf(items[k])
  {
    hide Text, ItemOk, EntryOf;
    if k > 0 {
      StoreAt(items[1..], k - 1);
    }
  }

  lemma {:induction false} StoreUpdate(items: seq<Item>, k: nat, it: Item)
    requires ItemsOk(items) && k < |items| && Text(it.name) == Text(items[k].name)
    ensures StoreOf(items[k := it]) == StoreOf(items)[Text(it.name) := EntryOf(it)]
  {
    hide Text, ItemOk, EntryOf;
    if k == 0 {
      assert items[k := it][1..] == items[1..];
    } else {
      assert items[k := it][1..] == items[1..][k - 1 := it];
      StoreUpdate(items[1..], k - 1, it);
    }
  }

  lemma UpdateRemove(m: Store, k: string, e: Entry, name: string)
    requires k != name
    ensures (m - {name})[k := e] == m[k := e] - {name}
  {
  }

  lemma {:induction false} StoreRemove(items: seq<Item>, k: nat)
    requires ItemsOk(items) && k < |items|
    ensures StoreOf(Without(items, k)) == StoreOf(items) - {Text(items[k].name)}
  {
    hide Text, ItemOk, EntryOf;
    var name := Text(items[k].name);
    if k == 0 {
      assert Without(items, 0) == items[1..];
      StoreKeys(items[1..], name);
    } else {
      var first, rest := Text(items[0].name), Without(items[1..], k - 1);
      assert Without(items, k)[1..] == rest && Without(items, k)[0] == items[0];
      StoreRemove(items[1..], k - 1);
      assert items[1..][k - 1] == items[k];
      assert first != name;
      UpdateRemove(StoreOf(items[1..]), first, EntryOf(items[0]), name);
    }
  }

  // ----- the operations on the store -----

  /** The store after an operation and its error code, 0 for none. */
  datatype Reply = Reply(store: Store, code: int)

  function AddReply(m: Store, item: Item): Reply {
    if Text(item.name) in m then Reply(m, EL_EXIST) else Reply(m[Text(item.name) := EntryOf(item)], 0)
  }

  function GetReply(m: Store, item: Item): Reply {
    Reply(m, if Text(item.name) in m then 0 else EL_NOEXT)
  }

  function SetReply(m: Store, item: Item): Reply {
    var name := Text(item.name);
    if name !in m then Reply(m, EL_NOEXT)
    else if m[name].own != Text(item.own) then Reply(m, EL_PERM)
    else Reply(m[name := EntryOf(item)], 0)
  }

  function DelReply(m: Store, item: Item): Reply {
    var name := Text(item.name);
    if name !in m then Reply(m, EL_NOEXT)
    else if m[name].own != Text(item.own) then Reply(m, EL_PERM)
    else Reply(m - {name}, 0)
  }

  // ----- the list -----

  class LList {
    var first: Node?<Item>
    var lerrno: int
    ghost var nodes: seq<Node<Item>>
    ghost var items: seq<Item>

    /** `nodes` are linked from `first` on and hold `items`. */
    ghost predicate Chain()
      reads this, nodes
    {
      Linked(nodes) && Carry(nodes, items) && first == Neighbour(nodes, 0)
    }

    ghost predicate Valid()
      reads this, nodes
    {
      Chain() && ItemsOk(items)
    }

    ghost function View(): Store
      reads this
    {
      StoreOf(items)
    }

    /** The store, the return value and `lerrno` are those of the reply. */
    ghost predicate Answers(reply: Reply, r: int, before: int)
      reads this, nodes
    {
      && Valid() && View() == reply.store
      && if reply.code == 0 then r == FN_OK && lerrno == before else r == FN_ER && lerrno == reply.code
    }

    /** `ll_init` */
    constructor ()
      ensures Valid() && View() == map[] && nodes == [] && lerrno == 0
    {
      first, lerrno, nodes, items := null, 0, [], [];
    }

    /** The search that every operation begins with. */
    method Find(name: string) returns (litem: Node?<Item>, ghost k: nat)
      requires Valid() && |name| == LL_NAME_LEN
      ensures litem == null <==> Text(name) !in View()
      ensures litem != null ==> k < |items| == |nodes| && litem == nodes[k] && litem.data == items[k] && Text(items[k].name) == Text(name)
    {
      hide StoreOf, Text;
      litem, k := first, 0;
      while litem != null
        invariant k <= |nodes| && litem == Neighbour(nodes, k)
        invariant forall i :: 0 <= i < k ==> Text(items[i].name) != Text(name)
        decreases |nodes| - k
      {
        ItemAt(items, k);
        if SameText(litem.data.name, name) {
          break;
        }
        litem, k := litem.next, k + 1;
      }
      StoreKeys(items, Text(name));
    }

    /** A new node becomes the first. */
    method Insert(item: Item)
      requires Chain()
      modifies this`first, this`nodes, this`items, nodes
      ensures Chain() && items == [item] + old(items)
      ensures |nodes| > 0 && nodes[1..] == old(nodes) && fresh(nodes[0])
    {
      var litem := new Node(item);
      if first == null {
        first := litem;
      } else {
        litem.next := first;
        first.prev := litem;
        first := litem;
      }
      nodes, items := [litem] + nodes, [item] + items;
    }

    method Fail(code: int)
      requires Valid()
      modifies this`lerrno
      ensures Valid() && lerrno == code
    {
      lerrno := code;
    }

    /** `ll_add` */
    method Add(item: Item) returns (r: int)
      requires Valid() && ItemOk(item)
      modifies this, nodes
      ensures Answers(AddReply(old(View()), item), r, old(lerrno))
      ensures forall n :: n in nodes ==> n in old(nodes) || fresh(n)
    {
      assert |item.name| == LL_NAME_LEN;
      hide StoreOf, Text, ItemOk, ItemsOk, Chain;
      var litem, k := Find(item.name);
      if litem != null {
        Fail(EL_EXIST);
        return FN_ER;
      }
      ItemsAdd(items, item);
      Insert(item);
      return FN_OK;
    }

    /** `ll_get` */
    method Get(item: Item) returns (r: int, found: Item)
      requires Valid() && |item.name| == LL_NAME_LEN
      modifies this`lerrno
      ensures Answers(GetReply(old(View()), item), r, old(lerrno))
      ensures if r == FN_ER then found == item
              else ItemOk(found) && Text(found.name) == Text(item.name) && Text(item.name) in View() && EntryOf(found) == View()[Text(item.name)]
    {
      hide StoreOf, Text, ItemsOk, Linked, Carry;
      var litem, k := Find(item.name);
      if litem == null {
        lerrno := EL_NOEXT;
        return FN_ER, item;
      }
      StoreAt(items, k);
      ItemAt(items, k);
      return FN_OK, litem.data;
    }

    /** The search and the test of the owner that `ll_set` and `ll_del` begin with. */
    method FindOwned(item: Item) returns (litem: Node?<Item>, ghost k: nat)
      requires Valid() && |item.name| == LL_NAME_LEN && |item.own| == LL_USRNAME_LEN
      modifies this`lerrno
      ensures Valid()
      ensures litem == null ==> lerrno == DelReply(View(), item).code == SetReply(View(), item).code != 0
      ensures litem != null ==>
                && lerrno == old(lerrno) && Text(item.name) in View() && View()[Text(item.name)].own == Text(item.own)
                && k < |items| == |nodes| && litem == nodes[k] && litem.data == items[k]
                && Text(items[k].name) == Text(item.name) && Text(items[k].own) == Text(item.own) && ItemOk(items[k])
    {
      hide StoreOf, Text, ItemsOk, Linked, Carry;
      litem, k := Find(item.name);
      if litem == null {
        lerrno := EL_NOEXT;
        return null, 0;
      }
      StoreAt(items, k);
      ItemAt(items, k);
      if !SameText(litem.data.own, item.own) {
        lerrno := EL_PERM;
        return null, 0;
      }
    }

    method Overwrite(litem: Node<Item>, ghost k: nat, it: Item)
      requires Chain() && k < |nodes| && nodes[k] == litem
      modifies litem`data, this`items
      ensures Chain() && items == old(items)[k := it]
    {
      litem.data := it;
      items := items[k := it];
    }

    /** `ll_set`: only the value of an entry with the same owner is replaced; `strcpy` needs the new one
        to be terminated. */
    method Set(item: Item) returns (r: int)
      requires Valid() && ItemOk(item) && '\0' in item.value
      modifies this`lerrno, this`items, nodes
      ensures Answers(SetReply(old(View()), item), r, old(lerrno))
    {
      assert |item.name| == LL_NAME_LEN && |item.own| == LL_USRNAME_LEN && |item.value| == LL_VALUE_LEN;
      hide StoreOf, Text, ItemsOk, Chain, StrCpy;
      var litem, k := FindOwned(item);
      if litem == null {
        return FN_ER;
      }
      ItemsSet(items, k, item);
      Overwrite(litem, k, litem.data.(value := StrCpy(litem.data.value, item.value)));
      return FN_OK;
    }

    /** The node is taken out of the chain. */
    method Unlink(litem: Node<Item>, ghost k: nat)
      requires Chain() && k < |nodes| && nodes[k] == litem
      modifies this`first, nodes
      ensures Bypassed(nodes, k) && Carry(nodes, items) && first == Neighbour(nodes, if k == 0 then 1 else 0)
    {
      if litem.prev == null {
        first := litem.next;
        if first != null {
          first.prev := null;
        }
      } else {
        litem.prev.next := litem.next;
        if litem.next != null {
          litem.next.prev := litem.prev;
        }
      }
    }

    /** Taking the node out as seen by the rest of the list. */
    method Remove(litem: Node<Item>, ghost k: nat)
      requires Chain() && k < |nodes| && nodes[k] == litem
      modifies this`first, this`nodes, this`items, nodes
      ensures Chain() && k < |old(items)| && items == Without(old(items), k)
      ensures forall n :: n in nodes ==> n in old(nodes)
    {
      hide Linked;
      Unlink(litem, k);
      BypassedLinked(nodes, k);
      CarryWithout(nodes, items, k);
      WithoutIn(nodes, k);
      hide Without, Bypassed;
      nodes, items := Without(nodes, k), Without(items, k);
    }

    /** `ll_del` */
    method Del(item: Item) returns (r: int)
      requires Valid() && |item.name| == LL_NAME_LEN && |item.own| == LL_USRNAME_LEN
      modifies this, nodes
      ensures Answers(DelReply(old(View()), item), r, old(lerrno))
      ensures forall n :: n in nodes ==> n in old(nodes)
    {
      hide StoreOf, Text, ItemsOk, Linked, Carry;
      var litem, k := FindOwned(item);
      if litem == null {
        return FN_ER;
      }
      StoreRemove(items, k);
      ItemsDel(items, k);
      hide Chain, Without;
      Remove(litem, k);
      return FN_OK;
    }
  }

  lemma ItemAt(items: seq<Item>, k: nat)
    requires ItemsOk(items) && k < |items|
    ensures ItemOk(items[k])
  {
  }

  lemma ItemsAdd(items: seq<Item>, item: Item)
    requires ItemsOk(items) && ItemOk(item) && Text(item.name) !in StoreOf(items)
    ensures ItemsOk([item] + items)
    ensures StoreOf([item] + items) == StoreOf(items)[Text(item.name) := EntryOf(item)]
  {
    hide Text, ItemOk;
    NotIn(items, Text(item.name));
    assert ([item] + items)[1..] == items;
  }

  /** Replacing the value of an item in place. */
  lemma ItemsSet(items: seq<Item>, k: nat, item: Item)
    requires ItemsOk(items) && k < |items| && ItemOk(item) && '\0' in item.value && Text(item.name) == Text(items[k].name)
    requires Text(items[k].own) == Text(item.own)
    ensures ItemOk(items[k])
    ensures var it := items[k].(value := StrCpy(items[k].value, item.value));
            && ItemsOk(items[k := it])
            && StoreOf(items[k := it]) == StoreOf(items)[Text(item.name) := EntryOf(item)]
  {
    hide Text;
    ItemAt(items, k);
    StoreUpdate(items, k, items[k].(value := StrCpy(items[k].value, item.value)));
  }

  lemma ItemsDel(items: seq<Item>, k: nat)
    requires ItemsOk(items) && k < |items|
    ensures ItemsOk(Without(items, k))
  {
    hide Text, ItemOk;
    forall i | 0 <= i < |items| - 1
      ensures Without(items, k)[i] == items[if i < k then i else i + 1]
    {
    }
  }

  lemma NotIn(items: seq<Item>, name: string)
    requires name !in StoreOf(items)
    ensures forall i :: 0 <= i < |items| ==> Text(items[i].name) != name
  {
    StoreKeys(items, name);
  }
}
