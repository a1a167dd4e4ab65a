/** When no more directories are created the monitor can always finish its walk and handle the events still
    queued; then it has caught up. */
module CreateSettle {
  import opened Paths
  import opened DirTree
  import opened Monitor
  import opened Sync
  import opened SyncRun
  import opened SyncTheorem
  import opened SyncMeasure
  import opened SyncProgress
  import opened Create

  /** A step of the monitor itself. */
  ghost predicate Works(s: State, s': State) {
    Takes(s, s') || (exists wd :: Visits(s, wd, s')) || (exists y :: Finds(s, y, s')) || Finishes(s, s')
  }

  /** `n` steps of the monitor lead from `s` to `t`. */
  ghost predicate Leads(s: State, n: nat, t: State)
    decreases n
  {
    if n == 0 then s == t else exists u :: Works(s, u) && Leads(u, n - 1, t)
  }

  lemma {:induction false} LeadsTrans(s: State, n: nat, t: State, m: nat, u: State)
    requires Leads(s, n, t) && Leads(t, m, u)
    ensures Leads(s, n + m, u)
    decreases n
  {
    hide Works;
    if n > 0 {
      var v :| Works(s, v) && Leads(v, n - 1, t);
      LeadsTrans(v, n - 1, t, m, u);
    }
  }

  lemma LeadsOne(s: State, t: State)
    requires Works(s, t)
    ensures Leads(s, 1, t)
  {
    hide Works;
    assert Leads(t, 0, t);
  }

  lemma WorksInv(s: State, s': State)
    requires Inv(s) && Works(s, s')
    ensures Inv(s')
  {
    hide Inv, Takes, Visits, Finds, Finishes;
    StepInv(s, s');
  }

  // ----- a walk ends -----

  /** The directories at or below `x`. */
  ghost function Within(tree: Tree, x: Inode): set<Inode> {
    set y | y in tree && Below(tree, x, y)
  }

  lemma WithinEntry(tree: Tree, x: Inode, y: Inode)
    requires AllRooted(tree) && x in tree && y in Entries(tree, x)
    ensures Within(tree, y) < Within(tree, x)
  {
    hide AllRooted;
    RootedAcyclic(tree, y);
    forall z | z in Within(tree, y)
      ensures z in Within(tree, x)
    {
      var rel :| At(tree, y, rel, z);
      ChildBelow(tree, x, y);
      BelowTrans(tree, x, y, z);
    }
    BelowSelf(tree, x);
    if x in Within(tree, y) {
      var rel :| At(tree, y, rel, x);
      assert (rel + [tree[y].name])[..|rel|] == rel;
      assert At(tree, y, rel + [tree[y].name], y);
    }
  }

  lemma Listing(s: State)
    requires Inv(s) && s.walk != []
    ensures s.walk[0].x in s.fs.tree && AllRooted(s.fs.tree)
    ensures s.walk[0].List? ==> s.walk[0].must <= Entries(s.fs.tree, s.walk[0].x)
  {
    hide Loc, AllRooted, RootsOk, Covered, QueueOk, Accurate;
    assert ItemOk(s, s.walk[0]);
    LocInTree(s.fs, s.walk[0].x, s.walk[0].path);
  }

  /** The monitor can visit a directory and all below it. */
  lemma {:induction false} Through(s: State, rest: seq<Item>) returns (n: nat, t: State)
    requires Inv(s) && s.walk != [] && s.walk[0].Enter? && rest == s.walk[1..]
    ensures Leads(s, n, t) && Inv(t) && t.walk == rest && t.queue == s.queue && t.fs == s.fs
    decreases Within(s.fs.tree, s.walk[0].x), 1, 0
  {
    assert WatchesOk(s.watch);
    hide *;
    var s1 := CanVisit(s);
    WorksInv(s, s1);
    LeadsOne(s, s1);
    n, t := Over(s1, rest);
    LeadsTrans(s, 1, s1, n, t);
    n := n + 1;
  }

  lemma CanVisit(s: State) returns (s': State)
    requires WatchesOk(s.watch) && s.walk != [] && s.walk[0].Enter?
    ensures Works(s, s') && s'.queue == s.queue && s'.fs == s.fs
    ensures var it := s.walk[0]; s'.walk == [List(it.x, it.path, Entries(s.fs.tree, it.x))] + s.walk[1..]
  {
    var it := s.walk[0];
    var wd: int;
    if Watched(s.watch, it.x) {
      wd :| wd in s.watch && s.watch[wd] == it.x;
    } else {
      wd := FreshWd(s.watch.Keys);
    }
    s' := s.(watch := s.watch[wd := it.x], mon := s.mon.(cache := AddVisit(s.mon.cache, Visit(it.path, wd))),
             walk := [List(it.x, it.path, Entries(s.fs.tree, it.x))] + s.walk[1..]);
    assert wd in s.watch ==> s.watch[wd := it.x] == s.watch;
    assert Visits(s, wd, s');
  }

  /** The monitor can read the entries of a directory and go through them. */
  lemma {:induction false} Over(s: State, rest: seq<Item>) returns (n: nat, t: State)
    requires Inv(s) && s.walk != [] && s.walk[0].List? && rest == s.walk[1..]
    ensures Leads(s, n, t) && Inv(t) && t.walk == rest && t.queue == s.queue && t.fs == s.fs
    decreases Within(s.fs.tree, s.walk[0].x), 0, |s.walk[0].must|
  {
    hide *;
    Listing(s);
    var it := s.walk[0];
    if it.must == {} {
      t := s.(walk := rest);
      CanFinish(s, t);
      WorksInv(s, t);
      LeadsOne(s, t);
      n := 1;
    } else {
      var y := Pick(it.must);
      var s1 := CanFind(s, y);
      WorksInv(s, s1);
      LeadsOne(s, s1);
      WithinEntry(s.fs.tree, it.x, y);
      var n1, t1 := Through(s1, s1.walk[1..]);
      var n2;
      n2, t := Over(t1, rest);
      LeadsTrans(s1, n1, t1, n2, t);
      LeadsTrans(s, 1, s1, n1 + n2, t);
      n := 1 + (n1 + n2);
    }
  }

  lemma CanFinish(s: State, s': State)
    requires s.walk != [] && s.walk[0].List? && s.walk[0].must == {} && s' == s.(walk := s.walk[1..])
    ensures Works(s, s')
  {
  }

  lemma CanFind(s: State, y: Inode) returns (s': State)
    requires s.walk != [] && s.walk[0].List? && y in s.walk[0].must && y in Entries(s.fs.tree, s.walk[0].x)
    ensures Works(s, s') && s'.queue == s.queue && s'.fs == s.fs && |s'.walk| == |s.walk| + 1 && s'.walk[0].Enter? && s'.walk[0].x == y
    ensures s'.walk[1..] == [s.walk[0].(must := s.walk[0].must - {y})] + s.walk[1..]
  {
    var it := s.walk[0];
    s' := s.(walk := [Enter(y, Child(it.path, s.fs.tree[y].name)), it.(must := it.must - {y})] + s.walk[1..]);
    assert Finds(s, y, s');
  }

  // ----- the queue is emptied -----

  lemma CanTake(s: State) returns (s': State)
    requires Inv(s) && s.walk == [] && s.queue != []
    ensures Works(s, s') && s'.queue == s.queue[1..] && s'.fs == s.fs
  {
    hide Loc, ForestOk, AllRooted, Covered, Accurate, QueueOk, WalkOk, Decide;
    var x := HeadNamed(s);
    var ev := s.queue[0];
    DecideNew(s.mon, ev.wd, ev.mask, ev.cookie, ev.name, Next(s.queue), true);
    assert ev == Event(ev.wd, ev.mask, ev.cookie, ev.name);
    var p := Child(s.mon.cache[ev.wd], ev.name);
    s' := if PathCached(s.mon.cache, p) then s.(queue := s.queue[1..]) else s.(queue := s.queue[1..], walk := [Enter(x, p)]);
    assert Takes(s, s');
  }

  lemma {:induction false} Settles(s: State) returns (n: nat, t: State)
    requires Inv(s)
    ensures Leads(s, n, t) && Inv(t) && t.walk == [] && t.queue == [] && t.fs == s.fs
    decreases |s.queue|, |s.walk|
  {
    hide Inv, Works;
    if s.walk == [] && s.queue == [] {
      n, t := 0, s;
    } else {
      var k, u;
      if s.walk == [] {
        u := CanTake(s);
        k := 1;
        WorksInv(s, u);
        LeadsOne(s, u);
      } else if s.walk[0].Enter? {
        k, u := Through(s, s.walk[1..]);
      } else {
        k, u := Over(s, s.walk[1..]);
      }
      hide Leads;
      n, t := Settles(u);
      LeadsTrans(s, k, u, n, t);
      n := k + n;
    }
  }

  /** From every state of every run the monitor can catch up: by steps of its own it comes to a state where
      its walk is over and no event is left, and there every monitored directory is cached, with its pathname. */
  lemma SettleTheorem(run: seq<State>, i: nat)
    requires IsRun(run) && i < |run|
    ensures exists n, t :: Leads(run[i], n, t) && t.walk == [] && t.queue == [] && t.fs == run[i].fs
                           && Accurate(t.fs, t.watch, t.mon.cache) && Complete(t.fs, t.watch)
  {
    hide IsRun, Leads;
    RunInv(run, i);
    var n, t := Settles(run[i]);
    QuietComplete(t);
  }
}
