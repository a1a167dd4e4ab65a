/** The request loop of `src/imp/59-04-server.c` on the name/value list. */
module NameServer {
  import opened Links
  import opened NameValueList

  const REQ_ADD := 1
  const REQ_GET := 2
  const REQ_SET := 3
  const REQ_DEL := 4

  const RES_OK := 0
  const RES_UNKOW := 5

  datatype Request = Request(cmd: int, item: Item)

  predicate RequestOk(req: Request) {
    ItemOk(req.item) && (req.cmd == REQ_SET ==> '\0' in req.item.value)
  }

  /** The store after a request and the result code sent back. */
  function Serve(m: Store, req: Request): Reply {
    if req.cmd == REQ_ADD then AddReply(m, req.item)
    else if req.cmd == REQ_GET then GetReply(m, req.item)
    else if req.cmd == REQ_SET then SetReply(m, req.item)
    else if req.cmd == REQ_DEL then DelReply(m, req.item)
    else Reply(m, RES_UNKOW)
  }

  /** The store after a sequence of requests to an empty server. */
  function After(reqs: seq<Request>): Store {
    if reqs == [] then map[] else Serve(After(reqs[..|reqs| - 1]), reqs[|reqs| - 1]).store
  }

  // ----- what a history of requests and result codes says by itself -----

  /** Request `i` succeeded in adding, setting or deleting the name. */
  predicate Changes(reqs: seq<Request>, codes: seq<int>, i: nat, name: string)
    requires i < |reqs| && i < |codes|
  {
    && (reqs[i].cmd == REQ_ADD || reqs[i].cmd == REQ_SET || reqs[i].cmd == REQ_DEL)
    && Text(reqs[i].item.name) == name && codes[i] == RES_OK
  }

  /** Of the requests before `k`, request `j` was the last to change the name, and it did not delete it. */
  ghost predicate Wrote(reqs: seq<Request>, codes: seq<int>, k: nat, name: string, j: nat) {
    && k <= |reqs| && k <= |codes| && j < k && reqs[j].cmd != REQ_DEL && Changes(reqs, codes, j, name)
    && forall i :: j < i < k ==> !Changes(reqs, codes, i, name)
  }

  ghost predicate Live(reqs: seq<Request>, codes: seq<int>, k: nat, name: string) {
    exists j: nat :: Wrote(reqs, codes, k, name, j)
  }

  /** The last to write the name was a request of this owner. */
  ghost predicate Owned(reqs: seq<Request>, codes: seq<int>, k: nat, name: string, own: string) {
    exists j: nat :: Wrote(reqs, codes, k, name, j) && Text(reqs[j].item.own) == own
  }

  /** The result code that request `k` must have. */
  ghost function Due(reqs: seq<Request>, codes: seq<int>, k: nat): int
    requires k < |reqs|
  {
    var name, own := Text(reqs[k].item.name), Text(reqs[k].item.own);
    if reqs[k].cmd == REQ_ADD then if Live(reqs, codes, k, name) then EL_EXIST else RES_OK
    else if reqs[k].cmd == REQ_GET then if Live(reqs, codes, k, name) then RES_OK else EL_NOEXT
    else if reqs[k].cmd == REQ_SET || reqs[k].cmd == REQ_DEL then
      if !Live(reqs, codes, k, name) then EL_NOEXT
      else if !Owned(reqs, codes, k, name, own) then EL_PERM
      else RES_OK
    else RES_UNKOW
  }

  predicate SameItem(a: Item, b: Item) {
    Text(a.name) == Text(b.name) && Text(a.value) == Text(b.value) && Text(a.own) == Text(b.own)
  }

  /** Every successful get brings the item of the last request that wrote the name. */
  ghost predicate Delivered(reqs: seq<Request>, codes: seq<int>, items: seq<Item>) {
    forall k: nat, j: nat :: k < |reqs| && k < |items| && reqs[k].cmd == REQ_GET && Wrote(reqs, codes, k, Text(reqs[k].item.name), j) ==>
      SameItem(items[k], reqs[j].item)
  }

  /** There is an entry exactly when the name was added and not deleted since, with the value and the owner
      of the last request that wrote it. */
  ghost predicate StoredAt(reqs: seq<Request>, codes: seq<int>, k: nat, m: Store, name: string) {
    && (name in m <==> Live(reqs, codes, k, name))
    && (forall j: nat :: Wrote(reqs, codes, k, name, j) ==>
          name in m && m[name].value == Text(reqs[j].item.value) && m[name].own == Text(reqs[j].item.own))
  }

  ghost predicate Stored(reqs: seq<Request>, codes: seq<int>, k: nat, m: Store) {
    forall name :: StoredAt(reqs, codes, k, m, name)
  }

  /** The codes are those of the server. */
  ghost predicate Coded(reqs: seq<Request>, codes: seq<int>, n: nat) {
    n <= |reqs| && n <= |codes| && forall i :: 0 <= i < n ==> codes[i] == Serve(After(reqs[..i]), reqs[i]).code
  }

  /** A successful get brings the entry there is. */
  ghost predicate Fetched(reqs: seq<Request>, codes: seq<int>, items: seq<Item>, n: nat) {
    && n <= |reqs| && n <= |codes| && n <= |items|
    && forall k :: 0 <= k < n && reqs[k].cmd == REQ_GET && codes[k] == RES_OK ==>
         var name := Text(reqs[k].item.name);
         Text(items[k].name) == name && name in After(reqs[..k]) && EntryOf(items[k]) == After(reqs[..k])[name]
  }

  lemma NothingYet(reqs: seq<Request>)
    ensures Coded(reqs, [], 0) && Fetched(reqs, [], [], 0)
  {
  }

  lemma OneMore(reqs: seq<Request>, codes: seq<int>, items: seq<Item>, code: int, item: Item)
    requires |codes| == |items| < |reqs| && Coded(reqs, codes, |codes|) && Fetched(reqs, codes, items, |codes|)
    requires code == Serve(After(reqs[..|codes|]), reqs[|codes|]).code
    requires reqs[|codes|].cmd == REQ_GET && code == RES_OK ==>
               var name, m := Text(reqs[|codes|].item.name), Serve(After(reqs[..|codes|]), reqs[|codes|]).store;
               Text(item.name) == name && name in m && EntryOf(item) == m[name]
    ensures Coded(reqs, codes + [code], |codes| + 1) && Fetched(reqs, codes + [code], items + [item], |codes| + 1)
    ensures After(reqs[..|codes| + 1]) == Serve(After(reqs[..|codes|]), reqs[|codes|]).store
  {
    hide Serve, After, Text, EntryOf;
    AfterStep(reqs, |codes|);
    ServeName(After(reqs[..|codes|]), reqs[|codes|], Text(reqs[|codes|].item.name));
    CodedMore(reqs, codes, code);
    hide Coded;
  }

  lemma CodedMore(reqs: seq<Request>, codes: seq<int>, code: int)
    requires |codes| < |reqs| && Coded(reqs, codes, |codes|)
    requires code == Serve(After(reqs[..|codes|]), reqs[|codes|]).code
    ensures Coded(reqs, codes + [code], |codes| + 1)
  {
    hide Serve, After;
  }

  /** One more request. */
  lemma WroteStep(reqs: seq<Request>, codes: seq<int>, k: nat, name: string, j: nat)
    requires k < |reqs| && k < |codes|
    ensures Wrote(reqs, codes, k + 1, name, j) <==>
            if Changes(reqs, codes, k, name) then j == k && reqs[k].cmd != REQ_DEL else Wrote(reqs, codes, k, name, j)
  {
    hide Text;
  }

  /** What a request does to one name. */
  lemma ServeName(m: Store, req: Request, name: string)
    ensures var r := Serve(m, req);
            if (req.cmd == REQ_ADD || req.cmd == REQ_SET || req.cmd == REQ_DEL) && Text(req.item.name) == name && r.code == RES_OK then
              (name in r.store <==> req.cmd != REQ_DEL) && (name in r.store ==> r.store[name] == EntryOf(req.item))
            else (name in r.store <==> name in m) && (name in m ==> r.store[name] == m[name])
  {
    hide Text;
  }

  lemma {:induction false} HistoryAt(reqs: seq<Request>, codes: seq<int>, k: nat, name: string)
    requires Coded(reqs, codes, k)
    ensures StoredAt(reqs, codes, k, After(reqs[..k]), name)
    decreases k
  {
    hide Text, After;
    if k == 0 {
      AfterNone();
      assert reqs[..0] == [];
    } else {
      HistoryAt(reqs, codes, k - 1, name);
      AfterStep(reqs, k - 1);
      ServeName(After(reqs[..k - 1]), reqs[k - 1], name);
      hide Serve;
      forall j: nat
        ensures Wrote(reqs, codes, k, name, j) <==>
                if Changes(reqs, codes, k - 1, name) then j == k - 1 && reqs[k - 1].cmd != REQ_DEL
                else Wrote(reqs, codes, k - 1, name, j)
      {
        WroteStep(reqs, codes, k - 1, name, j);
      }
      hide Wrote;
      if Live(reqs, codes, k - 1, name) {
        var j: nat :| Wrote(reqs, codes, k - 1, name, j);
        assert Changes(reqs, codes, k - 1, name) || Wrote(reqs, codes, k, name, j);
      }
      assert Changes(reqs, codes, k - 1, name) && reqs[k - 1].cmd != REQ_DEL ==> Wrote(reqs, codes, k, name, k - 1);
    }
  }

  /** In every history the store, and each result code, is what the requests and codes before say. */
  lemma HistoryTheorem(reqs: seq<Request>, codes: seq<int>, n: nat)
    requires Coded(reqs, codes, n)
    ensures Stored(reqs, codes, n, After(reqs[..n]))
    ensures forall k :: 0 <= k < n ==> codes[k] == Due(reqs, codes, k)
  {
    forall name
      ensures StoredAt(reqs, codes, n, After(reqs[..n]), name)
    {
      HistoryAt(reqs, codes, n, name);
    }
    forall k | 0 <= k < n
      ensures codes[k] == Due(reqs, codes, k)
    {
      HistoryDue(reqs, codes, k);
    }
  }

  lemma HistoryDue(reqs: seq<Request>, codes: seq<int>, k: nat)
    requires Coded(reqs, codes, k + 1)
    ensures codes[k] == Due(reqs, codes, k)
  {
    hide Text, After, Wrote;
    var name, own := Text(reqs[k].item.name), Text(reqs[k].item.own);
    HistoryAt(reqs, codes, k, name);
    if Live(reqs, codes, k, name) {
      var j: nat :| Wrote(reqs, codes, k, name, j);
      assert Owned(reqs, codes, k, name, own) <==> After(reqs[..k])[name].own == own;
    }
  }

  lemma HistoryDelivers(reqs: seq<Request>, codes: seq<int>, items: seq<Item>)
    requires |reqs| <= |items| && Coded(reqs, codes, |reqs|) && Fetched(reqs, codes, items, |reqs|)
    ensures Delivered(reqs, codes, items)
  {
    hide Text, After, Wrote;
    forall k: nat, j: nat | k < |reqs| && reqs[k].cmd == REQ_GET && Wrote(reqs, codes, k, Text(reqs[k].item.name), j)
      ensures j < |reqs| && SameItem(items[k], reqs[j].item)
    {
      HistoryAt(reqs, codes, k, Text(reqs[k].item.name));
      WroteName(reqs, codes, k, Text(reqs[k].item.name), j);
    }
  }

  lemma WroteName(reqs: seq<Request>, codes: seq<int>, k: nat, name: string, j: nat)
    requires Wrote(reqs, codes, k, name, j)
    ensures j < |reqs| && Text(reqs[j].item.name) == name
  {
  }

  class Server {
    const list: LList
    /** `res.item`, which keeps what earlier requests left in it. */
    var resItem: Item

    constructor (initial: Item)
      requires ItemOk(initial)
      ensures fresh(list) && list.Valid() && list.nodes == [] && list.View() == map[] && ItemOk(resItem)
    {
      list := new LList();
      resItem := initial;
    }

    /** One turn of the loop: the command is chosen, carried out, and its error number sent back. */
    method Respond(req: Request) returns (result: int)
      requires list.Valid() && RequestOk(req) && ItemOk(resItem)
      modifies this, list, list.nodes
      ensures list.Valid() && ItemOk(resItem)
      ensures Reply(list.View(), result) == Serve(old(list.View()), req)
      ensures req.cmd == REQ_GET && result == RES_OK ==>
                && Text(resItem.name) == Text(req.item.name) && Text(req.item.name) in list.View()
                && EntryOf(resItem) == list.View()[Text(req.item.name)]
      ensures req.cmd != REQ_GET ==> resItem == old(resItem)
      ensures forall n :: n in list.nodes ==> n in old(list.nodes) || fresh(n)
    {
      hide Text, StoreOf, ItemsOk, Linked, Carry;
      list.lerrno := 0;
      var r := FN_OK;
      if req.cmd == REQ_ADD {
        r := list.Add(req.item);
      } else if req.cmd == REQ_GET {
        resItem := resItem.(name := req.item.name);
        r, resItem := list.Get(resItem);
      } else if req.cmd == REQ_SET {
        r := list.Set(req.item);
      } else if req.cmd == REQ_DEL {
        r := list.Del(req.item);
      } else {
        list.lerrno := RES_UNKOW;
      }
      result := if list.lerrno == 0 then RES_OK else list.lerrno;
    }

    /** Any number of requests, with the result code and the item of each response.  The codes, what is
        delivered and what is stored in the end follow from the requests and the codes before alone. */
    method RespondAll(reqs: seq<Request>) returns (results: seq<int>, items: seq<Item>)
      requires list.Valid() && list.View() == map[] && ItemOk(resItem) && forall i :: 0 <= i < |reqs| ==> RequestOk(reqs[i])
      modifies this, list, list.nodes
      ensures list.Valid() && |results| == |items| == |reqs|
      ensures forall k :: 0 <= k < |reqs| ==> results[k] == Due(reqs, results, k)
      ensures Delivered(reqs, results, items) && Stored(reqs, results, |reqs|, list.View())
      ensures list.View() == After(reqs)
    {
      hide StoreOf, ItemsOk, Linked, Carry, Serve, RequestOk, ItemOk, After, Text, Due, Stored, Delivered, EntryOf, Coded, Fetched;
      results, items := [], [];
      var i := 0;
      AfterNone();
      assert reqs[..0] == [];
      NothingYet(reqs);
      while i < |reqs|
        invariant 0 <= i <= |reqs| && |results| == |items| == i
        invariant list.Valid() && list.View() == After(reqs[..i]) && ItemOk(resItem)
        invariant Coded(reqs, results, i) && Fetched(reqs, results, items, i)
        invariant forall j :: 0 <= j < |list.nodes| ==> list.nodes[j] in old(list.nodes) || fresh(list.nodes[j])
      {
        ghost var before := list.nodes;
        var result := Respond(reqs[i]);
        assert forall j :: 0 <= j < |list.nodes| ==> list.nodes[j] in list.nodes;
        assert forall n :: n in before ==> n in old(list.nodes) || fresh(n);
        OneMore(reqs, results, items, result, resItem);
        results, items := results + [result], items + [resItem];
        i := i + 1;
      }
      assert reqs[..i] == reqs;
      HistoryTheorem(reqs, results, |reqs|);
      HistoryDelivers(reqs, results, items);
    }
  }

  // ----- ownership over whole histories -----

  ghost predicate Held(reqs: seq<Request>, t: nat, name: string, own: string)
    requires t <= |reqs|
  {
    name in After(reqs[..t]) && After(reqs[..t])[name].own == own
  }

  /** Request `j` created the entry, and it has had that request's owner ever since. */
  ghost predicate CreatedBy(reqs: seq<Request>, j: nat, k: nat, name: string, own: string)
    requires k <= |reqs|
  {
    && j < k && reqs[j].cmd == REQ_ADD && Text(reqs[j].item.name) == name && Text(reqs[j].item.own) == own
    && name !in After(reqs[..j])
    && forall t :: j < t <= k ==> Held(reqs, t, name, own)
  }

  lemma AfterStep(reqs: seq<Request>, k: nat)
    requires k < |reqs|
    ensures After(reqs[..k + 1]) == Serve(After(reqs[..k]), reqs[k]).store
  {
    assert reqs[..k + 1][..k] == reqs[..k];
  }

  /** Every entry there is was created by a request of its owner. */
  lemma {:induction false} HasCreator(reqs: seq<Request>, k: nat, name: string) returns (j: nat)
    requires k <= |reqs| && name in After(reqs[..k])
    ensures CreatedBy(reqs, j, k, name, After(reqs[..k])[name].own)
    decreases k
  {
    hide Text, After;
    j := 0;
    assert reqs[..0] == [];
    AfterNone();
    if k > 0 {
      AfterStep(reqs, k - 1);
      var m := After(reqs[..k - 1]);
      if name in m {
        j := HasCreator(reqs, k - 1, name);
      } else {
        j := k - 1;
      }
    }
  }

  lemma AfterNone()
    ensures After([]) == map[]
  {
  }

  /** In every history of requests, an entry changes or disappears only through a request to set or
      delete that name whose owner is that of the request which created the entry. */
  lemma OwnerTheorem(reqs: seq<Request>, k: nat, name: string)
    requires k < |reqs| && name in After(reqs[..k])
    requires name !in After(reqs[..k + 1]) || After(reqs[..k + 1])[name] != After(reqs[..k])[name]
    ensures reqs[k].cmd == REQ_SET || reqs[k].cmd == REQ_DEL
    ensures Text(reqs[k].item.name) == name && Serve(After(reqs[..k]), reqs[k]).code == RES_OK
    ensures exists j :: CreatedBy(reqs, j, k, name, Text(reqs[k].item.own))
  {
    hide Text, After;
    AfterStep(reqs, k);
    var j := HasCreator(reqs, k, name);
  }
}
