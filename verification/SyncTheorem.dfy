/** Which operations leave the cache in step with the file system, for all states and operations. */
module SyncTheorem {
  import opened Basics
  import opened Paths
  import opened DirTree
  import opened Monitor
  import opened Sync
  import opened SyncRun

  /** The state right after an operation on `d` that led from forest `f1`, while the monitor still
      holds what was right for `f1`. */
  ghost predicate Pending(f1: Forest, s: Sys) {
    !s.exited && AllRooted(s.fs.tree) && InStep(f1, s.watch, s.selfWds, s.mon)
  }

  ghost predicate Caught(s: Sys, s': Sys) {
    Synced(s') && s'.fs == s.fs && s'.queue == []
  }

  // ----- each way a directory can change, followed by its events -----

  /** A created or moved-in directory, reported on its parent; events that watches are gone may follow. */
  lemma AppearRound(f1: Forest, s: Sys, d: Inode, pd: string, wd: int, mask: nat, cookie: nat, name: string, ign: seq<Event>,
                    n: nat, s': Sys)
    requires Pending(f1, s) && Appears(f1, s.fs, d, pd) && s.fs.roots != map[]
    requires mask == IN_CREATE + IN_ISDIR || mask == IN_MOVED_TO + IN_ISDIR
    requires wd in s.mon.cache && pd == Child(s.mon.cache[wd], name)
    requires s.queue == [Event(wd, mask, cookie, name)] + ign && AllIgnored(ign) && Drains(s, n, s')
    ensures Caught(s, s')
  {
    hide Loc, Drains, Step, ForestOk, Complete, AllRooted, Decide;
    AppearAccurate(f1, s.fs, d, pd, s.watch, s.mon.cache);
    assert wd in s.watch;
    DecideNew(s.mon, wd, mask, cookie, name, Next(s.queue), false);
    var t := DrainStep(s, n, s');
    var w := StepWatch(s, t, pd);
    AppearInStep(f1, s.fs, d, pd, s.watch, s.selfWds, s.mon, w, t.watch, t.selfWds);
    DrainIgnored(t, n - 1, s');
  }

  /** A directory moved out, reported on its former parent. */
  lemma VanishRound(f1: Forest, s: Sys, d: Inode, pd: string, wd: int, cookie: nat, name: string, n: nat, s': Sys)
    requires Pending(f1, s) && Vanishes(f1, s.fs, d, pd) && d !in f1.roots && s.fs.roots != map[]
    requires wd in s.mon.cache && pd == Child(s.mon.cache[wd], name)
    requires s.queue == [Event(wd, IN_MOVED_FROM + IN_ISDIR, cookie, name)] && Drains(s, n, s')
    ensures Caught(s, s')
  {
    hide Loc, Drains, Step, ForestOk, Complete, AllRooted, Decide, RootsAgree;
    assert wd in s.watch;
    DecideFrom(s.mon, wd, cookie, name, Next(s.queue), false);
    var t := DrainStep(s, n, s');
    var ign := StepZap(s, t, pd);
    assert s.fs.roots == f1.roots;
    VanishInStep(f1, s.fs, d, pd, s.watch, s.selfWds, s.mon, s.mon.roots);
    DrainIgnored(t, n - 1, s');
  }

  /** A rename within the monitored trees, reported as a pair. */
  lemma MoveRound(f1: Forest, s: Sys, d: Inode, pd: string, qd: string, from: Event, to: Event, n: nat, s': Sys)
    requires Pending(f1, s) && Moves(f1, s.fs, d, pd, qd) && s.fs.roots != map[]
    requires from.wd in s.mon.cache && pd == Child(s.mon.cache[from.wd], from.name)
    requires to.wd in s.mon.cache && qd == Child(s.mon.cache[to.wd], to.name)
    requires from.mask == IN_MOVED_FROM + IN_ISDIR && to.mask == IN_MOVED_TO + IN_ISDIR && from.cookie == to.cookie
    requires s.queue == [from, to] && Drains(s, n, s')
    ensures Caught(s, s')
  {
    hide Loc, Drains, Step, ForestOk, Complete, AllRooted, Decide, RootsAgree;
    assert from.wd in s.watch;
    DecideFrom(s.mon, from.wd, from.cookie, from.name, Next(s.queue), false);
    var t := DrainStep(s, n, s');
    StepRename(s, t, pd, qd);
    MoveInStep(f1, s.fs, d, pd, qd, s.watch, s.selfWds, s.mon);
    DrainIgnored(t, n - 1, s');
  }

  /** A rename that replaces an empty directory, whose deletion is reported after the pair. */
  lemma MoveOverRound(fv: Forest, s: Sys, d: Inode, pd: string, qd: string, from: Event, to: Event, v: int, n: nat, s': Sys)
    requires v in s.mon.cache && s.mon.cache[v] == qd && v >= 0 && !AtOrBelow(pd, qd) && !IsRoot(s.mon, qd)
    requires Pending(fv, s.(mon := s.mon.(cache := s.mon.cache - {v})))
    requires Moves(fv, s.fs, d, pd, qd) && s.fs.roots != map[]
    requires from.wd in s.watch && pd == Child(s.mon.cache[from.wd], from.name)
    requires to.wd in s.watch && qd == Child(s.mon.cache[to.wd], to.name)
    requires from.mask == IN_MOVED_FROM + IN_ISDIR && to.mask == IN_MOVED_TO + IN_ISDIR && from.cookie == to.cookie
    requires s.queue == [from, to, Event(v, IN_DELETE_SELF, 0, ""), Event(v, IN_IGNORED, 0, "")] && Drains(s, n, s')
    ensures Caught(s, s')
  {
    hide Loc, Drains, Step, ForestOk, Complete, AllRooted, Decide, RootsAgree;
    DecideFrom(s.mon, from.wd, from.cookie, from.name, Next(s.queue), false);
    var t := DrainStep(s, n, s');
    StepRename(s, t, pd, qd);
    DecideOther(t.mon, v, Next(t.queue), false);
    var u := DrainStep(t, n - 1, s');
    StepDrop(t, u, v);
    assert u.mon.cache == RenameCached(s.mon.cache - {v}, pd, qd);
    MoveInStep(fv, s.fs, d, pd, qd, s.watch, s.selfWds, s.mon.(cache := s.mon.cache - {v}));
    DrainIgnored(u, n - 2, s');
  }

  lemma RootsLeft(dirs: map<Inode, string>, roots: seq<Option<string>>)
    requires RootsAgree(dirs, roots)
    ensures NoRoots(roots) <==> dirs == map[]
  {
    if r :| r in dirs {
      var i :| 0 <= i < |roots| && roots[i] == Some(dirs[r]);
    }
    if !NoRoots(roots) {
      var i :| 0 <= i < |roots| && roots[i].Some?;
      assert Some(roots[i].value) in roots;
    }
  }

  lemma RootPathsDiffer(fs: Forest, d: Inode)
    requires RootsOk(fs) && d in fs.roots
    ensures forall r :: r in fs.roots && r != d ==> fs.roots[r] != fs.roots[d]
  {
    forall r | r in fs.roots && r != d
      ensures fs.roots[r] != fs.roots[d]
    {
      assert Apart(fs.roots[r], fs.roots[d]);
    }
  }

  /** The root list after `d`, known as `pd`, is gone. */
  function RootsWithout(fs: Forest, roots: seq<Option<string>>, d: Inode, pd: string): seq<Option<string>> {
    if d in fs.roots then Strike(roots, pd) else roots
  }

  lemma RootsAfter(fs: Forest, roots: seq<Option<string>>, d: Inode, pd: string)
    requires ForestOk(fs) && RootsAgree(fs.roots, roots) && Loc(fs, d, pd)
    ensures RootsAgree(fs.roots - {d}, RootsWithout(fs, roots, d, pd))
    ensures NoRoots(RootsWithout(fs, roots, d, pd)) <==> fs.roots - {d} == map[]
    ensures Some(pd) in roots <==> d in fs.roots
  {
    hide Loc;
    if d in fs.roots {
      LocRoot(fs, d);
      LocUnique(fs, d, pd, fs.roots[d]);
      RootPathsDiffer(fs, d);
      StrikeAgree(fs.roots, roots, d);
    } else {
      assert fs.roots - {d} == fs.roots;
      if Some(pd) in roots {
        ListedRoot(fs, roots, d, pd);
      }
    }
    RootsLeft(fs.roots - {d}, RootsWithout(fs, roots, d, pd));
  }

  /** A root directory moved to a place that is not monitored, reported on itself. */
  lemma RootAwayRound(f1: Forest, s: Sys, d: Inode, wd: int, n: nat, s': Sys)
    requires Pending(f1, s) && d in f1.roots && Vanishes(f1, s.fs, d, f1.roots[d])
    requires wd in s.watch && s.watch[wd] == d && s.mon.cache[wd] == f1.roots[d]
    requires s.queue == [Event(wd, IN_MOVE_SELF, 0, "")] && Drains(s, n, s')
    ensures s'.exited <==> s.fs.roots == map[]
    ensures !s'.exited ==> Caught(s, s')
  {
    hide Loc, Drains, Step, Complete, AllRooted, Decide, Acyclic, Monitored, RootsAgree, ForestOk, SelfOk, Strike;
    var pd := f1.roots[d];
    RootsAfter(f1, s.mon.roots, d, pd);
    var roots' := RootsWithout(f1, s.mon.roots, d, pd);
    DecideOther(s.mon, wd, Next(s.queue), false);
    var t := DrainStep(s, n, s');
    var ign := StepZapRoot(s, t, pd);
    if t.exited {
      DrainEnd(t, n - 1, s');
    } else {
      VanishInStep(f1, s.fs, d, pd, s.watch, s.selfWds, s.mon, roots');
      DrainIgnored(t, n - 1, s');
    }
  }

  lemma LeafBelow(tree: Tree, d: Inode)
    requires Lone(tree, d)
    ensures forall x :: Below(tree, d, x) ==> x == d
  {
    forall x | Below(tree, d, x)
      ensures x == d
    {
      LoneBelow(tree, d, x);
    }
  }

  /** A deleted directory, reported on itself; its watch is already gone. */
  lemma GoneRound(f1: Forest, watch: Watches, selfWds: set<int>, s: Sys, d: Inode, pd: string, wd: int, n: nat, s': Sys)
    requires !s.exited && AllRooted(s.fs.tree) && InStep(f1, watch, selfWds, s.mon)
    requires Vanishes(f1, s.fs, d, pd) && Lone(f1.tree, d)
    requires wd in watch && watch[wd] == d && s.mon.cache[wd] == pd && f1.roots != map[]
    requires s.watch == watch - {wd} && s.selfWds == selfWds * s.watch.Keys
    requires s.queue == [Event(wd, IN_DELETE_SELF, 0, ""), Event(wd, IN_IGNORED, 0, "")] && Drains(s, n, s')
    ensures s'.exited <==> s.fs.roots == map[]
    ensures !s'.exited ==> Caught(s, s')
  {
    hide Loc, Drains, Step, Complete, AllRooted, Decide, Acyclic, Monitored, RootsAgree, ForestOk, SelfOk, Strike;
    RootsAfter(f1, s.mon.roots, d, pd);
    var roots' := RootsWithout(f1, s.mon.roots, d, pd);
    DecideOther(s.mon, wd, Next(s.queue), false);
    var t := DrainStep(s, n, s');
    StepDrop(s, t, wd);
    if t.exited {
      DrainEnd(t, n - 1, s');
    } else {
      LeafBelow(f1.tree, d);
      ZapLeaf(f1, d, pd, watch, s.mon.cache, wd);
      VanishInStep(f1, s.fs, d, pd, watch, selfWds, s.mon, roots');
      DrainIgnored(t, n - 1, s');
    }
  }

  // ----- the two kinds of operation the monitor loses track of -----

  ghost predicate Lost(s: Sys, d: Inode) {
    Monitored(s.fs, d) && !Watched(s.watch, d)
  }

  lemma LostNotSynced(s: Sys, d: Inode)
    requires Lost(s, d)
    ensures !Synced(s)
  {
  }

  function Tail(v: Option<int>): seq<Event> {
    if v.Some? then [Event(v.value, IN_DELETE_SELF, 0, ""), Event(v.value, IN_IGNORED, 0, "")] else []
  }

  lemma LostTail(s: Sys, d: Inode, v: Option<int>, ign: seq<Event>, n: nat, s': Sys)
    requires !s.exited && Lost(s, d) && AllIgnored(ign)
    requires v.Some? ==> v.value >= 0 && v.value in s.mon.cache && !IsRoot(s.mon, s.mon.cache[v.value])
    requires s.queue == Tail(v) + ign && Drains(s, n, s')
    ensures Lost(s', d) && s'.fs == s.fs && s'.queue == [] && !s'.exited
  {
    hide Monitored, Drains, Step, Decide, Watched, Synced;
    var t, k := s, n;
    if v.Some? {
      DecideOther(s.mon, v.value, Next(s.queue), false);
      t := DrainStep(s, n, s');
      StepDrop(s, t, v.value);
      k := n - 1;
    }
    DrainIgnored(t, k, s');
  }

  /** A directory moved in over an empty one: its pathname is still cached for the directory it
      replaced, so it is not watched; then that entry is dropped. */
  lemma LostOver(s: Sys, d: Inode, to: Event, v: int, ign: seq<Event>, n: nat, s': Sys)
    requires !s.exited && Lost(s, d)
    requires to.wd >= 0 && to.wd in s.mon.cache && to.mask == IN_MOVED_TO + IN_ISDIR
    requires v >= 0 && v in s.mon.cache && s.mon.cache[v] == Child(s.mon.cache[to.wd], to.name) && !IsRoot(s.mon, s.mon.cache[v])
    requires s.queue == [to] + Tail(Some(v)) + ign && AllIgnored(ign) && Drains(s, n, s')
    ensures Lost(s', d) && s'.fs == s.fs && s'.queue == [] && !s'.exited
  {
    hide Monitored, Drains, Step, Decide, Watched, Synced;
    DecideNew(s.mon, to.wd, to.mask, to.cookie, to.name, Next(s.queue), false);
    var t := DrainStep(s, n, s');
    StepSkip(s, t);
    LostTail(t, d, Some(v), ign, n - 1, s');
  }

  /** After the walk of a root directory at its new place its cache entry still has the old pathname. */
  lemma RootWalked(s: Sys, t: Sys, to: Event)
    requires Step(s, t) && !s.exited && s.queue != [] && s.queue[0] == to && WatchesOk(s.watch)
    requires to.wd >= 0 && to.wd in s.mon.cache && to.mask == IN_MOVED_TO + IN_ISDIR
    ensures !t.exited && t.fs == s.fs && t.queue == s.queue[1..] && t.mon.roots == s.mon.roots && WatchesOk(t.watch)
    ensures forall wd :: wd in s.watch ==> wd in t.watch && t.watch[wd] == s.watch[wd]
    ensures forall wd :: wd in s.mon.cache ==> wd in t.mon.cache && t.mon.cache[wd] == s.mon.cache[wd]
    ensures forall wd :: wd in t.mon.cache ==> wd in s.mon.cache || wd in t.watch
  {
    hide Decide, Step, SelfAfter;
    DecideNew(s.mon, to.wd, to.mask, to.cookie, to.name, Next(s.queue), false);
    var path := Child(s.mon.cache[to.wd], to.name);
    if PathCached(s.mon.cache, path) {
      StepSkip(s, t);
    } else {
      var w := StepWatch(s, t, path);
      AddWalkContents(s.mon.cache, w);
    }
  }

  /** A root directory moved into another monitored tree: its watches are found to exist already, and
      then the report that it moved removes them. */
  lemma LostRoot(s: Sys, d: Inode, pd: string, wd: int, to: Event, v: Option<int>, n: nat, s': Sys)
    requires !s.exited && Monitored(s.fs, d) && WatchesOk(s.watch) && wd in s.watch && s.watch[wd] == d
    requires wd in s.mon.cache && s.mon.cache[wd] == pd && IsRoot(s.mon, pd) && !NoRoots(Strike(s.mon.roots, pd))
    requires to.wd >= 0 && to.wd in s.mon.cache && to.mask == IN_MOVED_TO + IN_ISDIR
    requires forall u :: u in s.mon.cache && AtOrBelow(pd, s.mon.cache[u]) ==> u in s.watch
    requires DistinctRoots(s.mon.roots)
    requires v.Some? ==>
               && v.value >= 0 && v.value in s.mon.cache
               && !IsRoot(s.mon, s.mon.cache[v.value]) && !AtOrBelow(pd, s.mon.cache[v.value])
    requires s.queue == [to, Event(wd, IN_MOVE_SELF, 0, "")] + Tail(v) && Drains(s, n, s')
    ensures Lost(s', d) && s'.fs == s.fs && s'.queue == [] && !s'.exited
  {
    hide Monitored, Drains, Step, Decide, Synced, Strike, NoRoots, DistinctRoots;
    var t := DrainStep(s, n, s');
    RootWalked(s, t, to);
    DecideOther(t.mon, wd, Next(t.queue), false);
    var u := DrainStep(t, n - 1, s');
    var ign := StepZapRoot(t, u, pd);
    StrikeOnce(s.mon.roots, pd);
    assert Lost(u, d);
    assert u.queue == Tail(v) + ign;
    LostTail(u, d, v, ign, n - 2, s');
  }

  // ----- one operation and its events -----

  lemma SelfKept(roots: map<Inode, string>, watch: Watches, selfWds: set<int>)
    requires SelfOk(roots, watch, selfWds)
    ensures selfWds * watch.Keys == selfWds
  {
    forall wd | wd in selfWds
      ensures wd in watch.Keys
    {
      assert wd in watch && watch[wd] in roots;
    }
  }

  lemma MkdirRound(s: Sys, x: Inode, at: Link, n: nat, s': Sys)
    requires Synced(s) && s.queue == [] && Enabled(s.fs, Mkdir(x, at)) && Drains(Perform(s, Mkdir(x, at)), n, s')
    ensures Caught(Perform(s, Mkdir(x, at)), s')
  {
    hide Loc, Drains, AllRooted, Complete, Below, SiblingsOk;
    var f1, f2, s1 := s.fs, Relink(s.fs, x, at), Perform(s, Mkdir(x, at));
    assert !Below(f1.tree, x, at.parent) by {
      if Below(f1.tree, x, at.parent) {
        LoneBelow(f1.tree, x, at.parent);
      }
    }
    assert !Monitored(f1, x) by {
      if p :| Loc(f1, x, p) {
        LocInTree(f1, x, p);
      }
    }
    RelinkOk(f1, x, at);
    assert f2.roots == f1.roots;
    SelfKept(f1.roots, s.watch, s.selfWds);
    WatchedMonitored(f1, s.watch, s.mon.cache, at.parent);
    RelinkMonitored(f1, x, at);
    hide ForestOk, Acyclic, RootsAgree, SelfOk, Watched;
    if Watched(s.watch, at.parent) {
      var wd := WdOf(s.watch, at.parent);
      AppearRound(f1, s1, x, Child(s.mon.cache[wd], at.name), wd, IN_CREATE + IN_ISDIR, 0, at.name, [], n, s');
    } else {
      UnseenInStep(f1, f2, x, s.watch, s.selfWds, s.mon);
      DrainEnd(s1, n, s');
    }
  }

  lemma UnwatchOne(watch: Watches, x: Inode)
    requires WatchesOk(watch)
    ensures Watched(watch, x) ==> Unwatch(watch, x) == watch - {WdOf(watch, x)}
    ensures !Watched(watch, x) ==> Unwatch(watch, x) == watch
  {
    forall wd | wd in watch
      ensures watch[wd] == x <==> Watched(watch, x) && wd == WdOf(watch, x)
    {
    }
    assert Unwatch(watch, x).Keys == if Watched(watch, x) then watch.Keys - {WdOf(watch, x)} else watch.Keys;
  }

  lemma RmdirRound(s: Sys, x: Inode, n: nat, s': Sys)
    requires Synced(s) && s.queue == [] && Enabled(s.fs, Rmdir(x)) && Drains(Perform(s, Rmdir(x)), n, s')
    ensures s'.exited <==> Without(s.fs, x).roots == map[]
    ensures !s'.exited ==> Caught(Perform(s, Rmdir(x)), s')
  {
    hide Loc, Drains, AllRooted, Complete, Below, SiblingsOk, RootsOk, RootsAgree;
    var f1, f2, s1 := s.fs, Without(s.fs, x), Perform(s, Rmdir(x));
    WithoutOk(f1, x);
    GoneNotMonitored(f1, x);
    WatchedMonitored(f1, s.watch, s.mon.cache, x);
    UnwatchOne(s.watch, x);
    SelfKept(f1.roots, s.watch, s.selfWds);
    hide ForestOk, Acyclic, SelfOk, Watched;
    if Watched(s.watch, x) {
      var wd := WdOf(s.watch, x);
      GoneRound(f1, s.watch, s.selfWds, s1, x, s.mon.cache[wd], wd, n, s');
    } else {
      if x in f1.roots {
        LocRoot(f1, x);
      }
      assert f2.roots == f1.roots;
      UnseenInStep(f1, f2, x, s.watch, s.selfWds, s.mon);
      DrainEnd(s1, n, s');
    }
  }

  // ----- moving: first the replaced directory goes, then the moved one changes place -----

  ghost function ClearedCache(s: Sys, v: Inode): Cache {
    if Watched(s.watch, v) then s.mon.cache - {WdOf(s.watch, v)} else s.mon.cache
  }

  lemma ClearInStep(s: Sys, v: Inode)
    requires Synced(s) && v in s.fs.tree && Lone(s.fs.tree, v) && v !in s.fs.roots
    ensures var watch := Unwatch(s.watch, v);
            InStep(Without(s.fs, v), watch, s.selfWds * watch.Keys, s.mon.(cache := ClearedCache(s, v)))
    ensures AllRooted(Without(s.fs, v).tree)
  {
    hide Loc, AllRooted, Complete, Below, SiblingsOk, RootsOk, RootsAgree;
    var f1, f2 := s.fs, Without(s.fs, v);
    WithoutOk(f1, v);
    GoneNotMonitored(f1, v);
    WatchedMonitored(f1, s.watch, s.mon.cache, v);
    UnwatchOne(s.watch, v);
    SelfKept(f1.roots, s.watch, s.selfWds);
    assert f2.roots == f1.roots;
    hide ForestOk, Acyclic, SelfOk, Watched;
    if Watched(s.watch, v) {
      var wd := WdOf(s.watch, v);
      LeafBelow(f1.tree, v);
      ZapLeaf(f1, v, s.mon.cache[wd], s.watch, s.mon.cache, wd);
      VanishInStep(f1, f2, v, s.mon.cache[wd], s.watch, s.selfWds, s.mon, s.mon.roots);
    } else {
      UnseenInStep(f1, f2, v, s.watch, s.selfWds, s.mon);
    }
  }

  lemma {:induction false} AtFewer(t1: Tree, t2: Tree, r: Inode, names: seq<string>, x: Inode)
    requires (forall y :: y in t1 ==> y in t2 && t2[y] == t1[y]) && At(t1, r, names, x)
    ensures At(t2, r, names, x)
    decreases |names|
  {
    if names != [] {
      AtFewer(t1, t2, r, names[..|names| - 1], t1[x].parent);
    }
  }

  lemma BelowFewer(t1: Tree, t2: Tree, d: Inode, x: Inode)
    requires (forall y :: y in t1 ==> y in t2 && t2[y] == t1[y]) && Below(t1, d, x)
    ensures Below(t2, d, x)
  {
    var rel :| At(t1, d, rel, x);
    AtFewer(t1, t2, d, rel, x);
  }

  lemma ClearLoc(fs: Forest, v: Inode, x: Inode, p: string)
    requires ForestOk(fs) && AllRooted(fs.tree) && Lone(fs.tree, v) && x != v
    ensures Loc(Without(fs, v), x, p) <==> Loc(fs, x, p)
  {
    hide Loc, AllRooted;
    WithoutOk(fs, v);
    if Below(fs.tree, v, x) {
      LoneBelow(fs.tree, v, x);
    }
    LocSame(fs, Without(fs, v), v, x, p);
  }

  ghost predicate MoveReady(s: Sys, op: Op) {
    Synced(s) && s.queue == [] && op.Move? && Enabled(s.fs, op)
  }

  ghost function CacheV(s: Sys, over: Option<Inode>): Cache {
    if over.Some? then ClearedCache(s, over.value) else s.mon.cache
  }

  /** The state between the two halves of a move. */
  lemma MoveClears(s: Sys, op: Op)
    requires MoveReady(s, op)
    ensures var watch := NewWatches(s.watch, op);
            InStep(Cleared(s.fs, op.over), watch, s.selfWds * watch.Keys, s.mon.(cache := CacheV(s, op.over)))
    ensures AllRooted(Cleared(s.fs, op.over).tree) && Cleared(s.fs, op.over).roots == s.fs.roots
  {
    hide Loc, AllRooted, Complete, Below, SiblingsOk, RootsAgree;
    SelfKept(s.fs.roots, s.watch, s.selfWds);
    if op.over.Some? {
      assert op.over.value !in s.fs.roots;
      ClearInStep(s, op.over.value);
    }
  }

  /** The forest after a move is sound and arises from the cleared one by relinking `d`. */
  lemma MoveRelinks(s: Sys, op: Op)
    requires MoveReady(s, op)
    ensures var fv, f2 := Cleared(s.fs, op.over), NewForest(s.fs, op);
            && f2 == Relink(fv, op.d, op.to) && Changed(fv, f2, op.d) && Acyclic(fv.tree, op.d) && Acyclic(f2.tree, op.d)
            && ForestOk(fv) && ForestOk(f2) && AllRooted(f2.tree)
            && (op.to.Under? ==> !Below(fv.tree, op.d, op.to.parent) && op.to.parent != op.d)
  {
    hide Loc, AllRooted, Complete, Accurate, RootsAgree, At;
    var fv := Cleared(s.fs, op.over);
    MoveClears(s, op);
    if op.to.Under? {
      BelowSelf(s.fs.tree, op.d);
      if Below(fv.tree, op.d, op.to.parent) {
        BelowFewer(fv.tree, s.fs.tree, op.d, op.to.parent);
      }
      assert op.to.parent in fv.tree;
    }
    assert Free(fv.tree, op.to);
    RelinkOk(fv, op.d, op.to);
  }

  lemma BelowSelf(tree: Tree, d: Inode)
    ensures Below(tree, d, d)
  {
    assert At(tree, d, [], d);
  }

  /** Where directories other than the replaced one were, seen from the cleared forest. */
  lemma MoveLocs(s: Sys, op: Op, x: Inode)
    requires MoveReady(s, op) && (op.over.Some? ==> x != op.over.value)
    ensures Monitored(Cleared(s.fs, op.over), x) <==> Monitored(s.fs, x)
    ensures forall p :: Loc(Cleared(s.fs, op.over), x, p) <==> Loc(s.fs, x, p)
  {
    hide Loc, AllRooted, Complete, Accurate, RootsAgree, ForestOk, Below;
    if op.over.Some? {
      forall p
        ensures Loc(Cleared(s.fs, op.over), x, p) <==> Loc(s.fs, x, p)
      {
        ClearLoc(s.fs, op.over.value, x, p);
      }
    }
  }

  /** A watched directory other than the replaced one: its watch and pathname survive the clearing. */
  lemma MoveWatch(s: Sys, op: Op, x: Inode)
    requires MoveReady(s, op) && (op.over.Some? ==> x != op.over.value)
    ensures Watched(s.watch, x) <==> Monitored(s.fs, x)
    ensures Watched(s.watch, x) ==>
              var wd := WdOf(s.watch, x);
              && wd >= 0 && wd in NewWatches(s.watch, op) && NewWatches(s.watch, op)[wd] == x
              && wd in CacheV(s, op.over) && CacheV(s, op.over)[wd] == s.mon.cache[wd] && Loc(s.fs, x, s.mon.cache[wd])
  {
    hide Loc, AllRooted, Complete, RootsAgree, ForestOk, Below;
    WatchedMonitored(s.fs, s.watch, s.mon.cache, x);
  }

  ghost predicate DestLive(s: Sys, op: Op)
    requires op.Move?
  {
    op.to.Under? && Monitored(s.fs, op.to.parent)
  }

  lemma MoveDest(s: Sys, op: Op)
    requires MoveReady(s, op)
    ensures Monitored(NewForest(s.fs, op), op.d) <==> DestLive(s, op)
    ensures DestLive(s, op) ==>
              && Watched(s.watch, op.to.parent)
              && Loc(NewForest(s.fs, op), op.d, Child(s.mon.cache[WdOf(s.watch, op.to.parent)], op.to.name))
    ensures op.to.Under? && op.over.Some? ==> op.to.parent != op.over.value
  {
    hide Loc, AllRooted, Complete, Accurate, RootsAgree, Below, ForestOk, Acyclic;
    MoveRelinks(s, op);
    RelinkMonitored(Cleared(s.fs, op.over), op.d, op.to);
    if op.to.Under? {
      MoveLocs(s, op, op.to.parent);
      MoveWatch(s, op, op.to.parent);
    }
  }

  /** The directory moved, while it was monitored. */
  lemma MoveSource(s: Sys, op: Op)
    requires MoveReady(s, op) && op.d !in s.fs.roots
    ensures Monitored(s.fs, op.d) <==> s.fs.tree[op.d].Under? && Watched(s.watch, s.fs.tree[op.d].parent)
    ensures s.fs.tree[op.d].Under? && op.over.Some? ==> s.fs.tree[op.d].parent != op.over.value
    ensures Monitored(s.fs, op.d) ==>
              Loc(Cleared(s.fs, op.over), op.d, Child(s.mon.cache[WdOf(s.watch, s.fs.tree[op.d].parent)], s.fs.tree[op.d].name))
    ensures Monitored(s.fs, op.d) <==> Monitored(Cleared(s.fs, op.over), op.d)
  {
    hide Loc, AllRooted, Complete, Accurate, RootsAgree, Below, ForestOk;
    ChildMonitored(s.fs, op.d);
    MoveLocs(s, op, op.d);
    if s.fs.tree[op.d].Under? {
      MoveWatch(s, op, s.fs.tree[op.d].parent);
    }
  }

  /** Only a root directory reports that it moved. */
  lemma MoveSelfReport(s: Sys, op: Op)
    requires MoveReady(s, op)
    ensures op.d !in s.fs.roots ==> OnMoved(s.watch, s.selfWds, op.d) == []
    ensures op.d in s.fs.roots ==>
              && Watched(s.watch, op.d)
              && OnMoved(s.watch, s.selfWds, op.d) == [Event(WdOf(s.watch, op.d), IN_MOVE_SELF, 0, "")]
              && WdOf(s.watch, op.d) in s.mon.cache && s.mon.cache[WdOf(s.watch, op.d)] == s.fs.roots[op.d]
  {
    hide Loc, AllRooted, Complete, RootsAgree, Below;
    WatchedMonitored(s.fs, s.watch, s.mon.cache, op.d);
    if op.d in s.fs.roots {
      LocRoot(s.fs, op.d);
      LocUnique(s.fs, op.d, s.fs.roots[op.d], s.mon.cache[WdOf(s.watch, op.d)]);
    }
  }

  /** The replaced directory is watched exactly when the destination is monitored, and its cached
      pathname is the new name. */
  lemma MoveVictim(s: Sys, op: Op)
    requires MoveReady(s, op) && op.over.Some?
    ensures Watched(s.watch, op.over.value) <==> DestLive(s, op)
    ensures DestLive(s, op) ==>
              var wd := WdOf(s.watch, op.over.value);
              && wd >= 0 && wd in s.mon.cache && wd !in NewWatches(s.watch, op)
              && s.mon.cache[wd] == Child(s.mon.cache[WdOf(s.watch, op.to.parent)], op.to.name)
              && Loc(s.fs, op.over.value, s.mon.cache[wd])
              && !IsRoot(s.mon, s.mon.cache[wd])
  {
    hide Loc, AllRooted, Complete, Below, Accurate;
    var v := op.over.value;
    ChildMonitored(s.fs, v);
    WatchedMonitored(s.fs, s.watch, s.mon.cache, v);
    MoveDest(s, op);
    MoveWatch(s, op, op.to.parent);
    if DestLive(s, op) {
      var wd := WdOf(s.watch, v);
      LocUnique(s.fs, v, s.mon.cache[wd], Child(s.mon.cache[WdOf(s.watch, op.to.parent)], op.to.name));
      if IsRoot(s.mon, s.mon.cache[wd]) {
        ListedRoot(s.fs, s.mon.roots, v, s.mon.cache[wd]);
      }
    }
  }

  // ----- the cases of a move -----

  lemma MoveWithin(s: Sys, op: Op, n: nat, s': Sys)
    requires MoveReady(s, op) && op.d !in s.fs.roots && Monitored(s.fs, op.d) && DestLive(s, op)
    requires Drains(Perform(s, op), n, s')
    ensures Caught(Perform(s, op), s')
  {
    hide Loc, AllRooted, Complete, Below, Drains, RootsAgree, ForestOk, Acyclic, Accurate, Monitored, Watched, SelfOk;
    var s1, fv, d := Perform(s, op), Cleared(s.fs, op.over), op.d;
    MoveClears(s, op);
    MoveRelinks(s, op);
    MoveSource(s, op);
    MoveDest(s, op);
    MoveSelfReport(s, op);
    var l := s.fs.tree[d];
    MoveWatch(s, op, l.parent);
    MoveWatch(s, op, op.to.parent);
    var pd := Child(s.mon.cache[WdOf(s.watch, l.parent)], l.name);
    var qd := Child(s.mon.cache[WdOf(s.watch, op.to.parent)], op.to.name);
    var from := Event(WdOf(s.watch, l.parent), IN_MOVED_FROM + IN_ISDIR, op.cookie, l.name);
    var to := Event(WdOf(s.watch, op.to.parent), IN_MOVED_TO + IN_ISDIR, op.cookie, op.to.name);
    assert s1.fs.roots == s.fs.roots;
    if op.over.None? {
      assert s1.queue == [from, to];
      MoveRound(fv, s1, d, pd, qd, from, to, n, s');
    } else {
      MoveVictim(s, op);
      var v := WdOf(s.watch, op.over.value);
      MoveLocs(s, op, d);
      MoveApart(s, op, pd, qd);
      assert s1.queue == [from, to, Event(v, IN_DELETE_SELF, 0, ""), Event(v, IN_IGNORED, 0, "")];
      MoveOverRound(fv, s1, d, pd, qd, from, to, v, n, s');
    }
  }

  /** The new name does not lie below the old one. */
  lemma MoveApart(s: Sys, op: Op, pd: string, qd: string)
    requires MoveReady(s, op) && op.over.Some?
    requires Loc(s.fs, op.d, pd) && Loc(s.fs, op.over.value, qd)
    ensures !AtOrBelow(pd, qd)
  {
    hide Loc, AllRooted, Complete, RootsAgree, Accurate;
    LocOrder(s.fs, op.d, pd, op.over.value, qd);
    if Below(s.fs.tree, op.d, op.over.value) {
      ParentBelow(s.fs.tree, op.d, op.over.value);
    }
  }

  lemma ParentBelow(tree: Tree, d: Inode, x: Inode)
    requires Below(tree, d, x) && x != d
    ensures x in tree && tree[x].Under? && Below(tree, d, tree[x].parent)
  {
    var rel :| At(tree, d, rel, x);
    assert At(tree, d, rel[..|rel| - 1], tree[x].parent);
  }

  /** When the destination is not monitored a replaced directory is not either, and nothing of the
      monitor's state changes with it. */
  lemma DeadDest(s: Sys, op: Op)
    requires MoveReady(s, op) && !DestLive(s, op)
    ensures NewWatches(s.watch, op) == s.watch && CacheV(s, op.over) == s.mon.cache
    ensures Perform(s, op).selfWds == s.selfWds
    ensures Reports(s, op) == OnLink(s.watch, s.fs.tree[op.d], IN_MOVED_FROM + IN_ISDIR, op.cookie)
                              + OnMoved(s.watch, s.selfWds, op.d)
  {
    hide Loc, AllRooted, Complete, Below, RootsAgree, Accurate, Monitored;
    SelfKept(s.fs.roots, s.watch, s.selfWds);
    if op.over.Some? {
      MoveVictim(s, op);
      UnwatchOne(s.watch, op.over.value);
    }
    if op.to.Under? {
      MoveDest(s, op);
      MoveWatch(s, op, op.to.parent);
    }
  }

  lemma MoveOut(s: Sys, op: Op, n: nat, s': Sys)
    requires MoveReady(s, op) && op.d !in s.fs.roots && !DestLive(s, op)
    requires Drains(Perform(s, op), n, s')
    ensures Caught(Perform(s, op), s')
  {
    hide Loc, AllRooted, Complete, Below, Drains, RootsAgree, ForestOk, Acyclic, Accurate, Monitored, Watched, SelfOk;
    var s1, fv, d := Perform(s, op), Cleared(s.fs, op.over), op.d;
    MoveClears(s, op);
    MoveRelinks(s, op);
    MoveSource(s, op);
    MoveDest(s, op);
    MoveSelfReport(s, op);
    DeadDest(s, op);
    var l := s.fs.tree[d];
    assert s1.fs.roots == s.fs.roots;
    if Monitored(s.fs, d) {
      MoveWatch(s, op, l.parent);
      var wd := WdOf(s.watch, l.parent);
      VanishRound(fv, s1, d, Child(s.mon.cache[wd], l.name), wd, op.cookie, l.name, n, s');
    } else {
      UnseenInStep(fv, s1.fs, d, s.watch, s.selfWds, s.mon);
      DrainEnd(s1, n, s');
    }
  }

  lemma MoveIn(s: Sys, op: Op, n: nat, s': Sys)
    requires MoveReady(s, op) && op.d !in s.fs.roots && !Monitored(s.fs, op.d) && DestLive(s, op)
    requires Drains(Perform(s, op), n, s')
    ensures op.over.None? ==> Caught(Perform(s, op), s')
    ensures op.over.Some? ==> Lost(s', op.d) && !s'.exited && s'.fs == NewForest(s.fs, op) && s'.queue == []
  {
    hide Loc, AllRooted, Complete, Below, Drains, RootsAgree, ForestOk, Acyclic, Accurate, Monitored, Watched, SelfOk, Synced;
    assert !s.exited && s.fs.roots != map[] by { SyncedFacts(s); }
    var s1, fv, d := Perform(s, op), Cleared(s.fs, op.over), op.d;
    MoveClears(s, op);
    MoveRelinks(s, op);
    MoveSource(s, op);
    MoveDest(s, op);
    MoveSelfReport(s, op);
    MoveWatch(s, op, op.to.parent);
    var wd := WdOf(s.watch, op.to.parent);
    var qd := Child(s.mon.cache[wd], op.to.name);
    var to := Event(wd, IN_MOVED_TO + IN_ISDIR, op.cookie, op.to.name);
    assert s1.fs.roots == s.fs.roots;
    if op.over.None? {
      assert s1.queue == [to];
      AppearRound(fv, s1, d, qd, wd, IN_MOVED_TO + IN_ISDIR, op.cookie, op.to.name, [], n, s');
    } else {
      MoveVictim(s, op);
      var v := WdOf(s.watch, op.over.value);
      assert s1.queue == [to] + Tail(Some(v));
      MoveInLost(s, op);
      LostOver(s1, d, to, v, [], n, s');
    }
  }

  lemma SyncedFacts(s: Sys)
    requires Synced(s)
    ensures !s.exited && s.fs.roots != map[] && WatchesOk(s.watch) && DistinctRoots(s.mon.roots)
  {
  }

  lemma MoveInLost(s: Sys, op: Op)
    requires MoveReady(s, op) && op.d !in s.fs.roots && !Monitored(s.fs, op.d) && DestLive(s, op) && op.over.Some?
    ensures Lost(Perform(s, op), op.d)
  {
    hide Loc, AllRooted, Complete, Below, RootsAgree, ForestOk, Accurate, Monitored, SelfOk;
    MoveDest(s, op);
    WatchedIn(s, op.d);
  }

  lemma WatchedIn(s: Sys, x: Inode)
    requires Synced(s)
    ensures Watched(s.watch, x) <==> Monitored(s.fs, x)
  {
    hide Loc, AllRooted, Complete, Accurate;
    WatchedMonitored(s.fs, s.watch, s.mon.cache, x);
  }

  lemma RootAway(s: Sys, op: Op, n: nat, s': Sys)
    requires MoveReady(s, op) && op.d in s.fs.roots && !DestLive(s, op)
    requires Drains(Perform(s, op), n, s')
    ensures s'.exited <==> NewForest(s.fs, op).roots == map[]
    ensures !s'.exited ==> Caught(Perform(s, op), s')
  {
    hide Loc, AllRooted, Complete, Below, Drains, RootsAgree, ForestOk, Acyclic, Accurate, Monitored, Watched, SelfOk;
    var s1, fv, d := Perform(s, op), Cleared(s.fs, op.over), op.d;
    MoveClears(s, op);
    MoveRelinks(s, op);
    MoveDest(s, op);
    MoveSelfReport(s, op);
    DeadDest(s, op);
    RootIsTop(s, d);
    LocRoot(fv, d);
    RootAwayRound(fv, s1, d, WdOf(s.watch, d), n, s');
  }

  lemma RootIsTop(s: Sys, d: Inode)
    requires Synced(s) && d in s.fs.roots
    ensures d in s.fs.tree && s.fs.tree[d].Top?
  {
  }

  /** Every cached pathname at or below that of the moved root belongs to a live watch. */
  lemma RootIn(s: Sys, op: Op, n: nat, s': Sys)
    requires MoveReady(s, op) && op.d in s.fs.roots && DestLive(s, op)
    requires Drains(Perform(s, op), n, s')
    ensures Lost(s', op.d) && !s'.exited && s'.fs == NewForest(s.fs, op) && s'.queue == []
  {
    hide Loc, AllRooted, Complete, Below, Drains, RootsAgree, ForestOk, Acyclic, Accurate, Monitored, Watched, SelfOk,
      Synced, DistinctRoots, WatchesOk, NoRoots, Strike;
    var s1, fv, d := Perform(s, op), Cleared(s.fs, op.over), op.d;
    SyncedFacts(s);
    MoveDest(s, op);
    MoveSelfReport(s, op);
    MoveWatch(s, op, op.to.parent);
    MoveClears(s, op);
    RootIsTop(s, d);
    RootInFacts(s, op);
    var to := Event(WdOf(s.watch, op.to.parent), IN_MOVED_TO + IN_ISDIR, op.cookie, op.to.name);
    var v := if op.over.Some? then Some(WdOf(s.watch, op.over.value)) else None;
    assert s1.queue == [to, Event(WdOf(s.watch, d), IN_MOVE_SELF, 0, "")] + Tail(v);
    LostRoot(s1, d, s.fs.roots[d], WdOf(s.watch, d), to, v, n, s');
  }

  lemma RootInFacts(s: Sys, op: Op)
    requires MoveReady(s, op) && op.d in s.fs.roots && DestLive(s, op)
    ensures var pd := s.fs.roots[op.d];
            && (op.over.Some? ==>
                 && Watched(s.watch, op.over.value)
                 && var v := WdOf(s.watch, op.over.value);
                    v >= 0 && v in s.mon.cache && !IsRoot(s.mon, s.mon.cache[v]) && !AtOrBelow(pd, s.mon.cache[v]))
            && (forall u :: u in s.mon.cache && AtOrBelow(pd, s.mon.cache[u]) ==> u in NewWatches(s.watch, op))
            && IsRoot(s.mon, pd) && !NoRoots(Strike(s.mon.roots, pd))
            && Watched(s.watch, op.d)
            && var w := WdOf(s.watch, op.d); w in NewWatches(s.watch, op) && NewWatches(s.watch, op)[w] == op.d
  {
    hide Loc, AllRooted, Complete, Below, Accurate, Monitored, NoRoots, Strike, ForestOk;
    var pd := s.fs.roots[op.d];
    LocRoot(s.fs, op.d);
    MoveWatch(s, op, op.d);
    MoveSelfReport(s, op);
    RootsAfter(s.fs, s.mon.roots, op.d, pd);
    OtherRoot(s, op);
    if op.over.Some? {
      MoveVictim(s, op);
      MoveApart(s, op, pd, s.mon.cache[WdOf(s.watch, op.over.value)]);
      UnwatchOne(s.watch, op.over.value);
    }
    CachedWatched(s);
  }

  lemma CachedWatched(s: Sys)
    requires Synced(s)
    ensures s.mon.cache.Keys == s.watch.Keys
  {
  }

  /** The destination of a moved root lies under another root. */
  lemma OtherRoot(s: Sys, op: Op)
    requires MoveReady(s, op) && op.d in s.fs.roots && DestLive(s, op)
    ensures s.fs.roots - {op.d} != map[]
  {
    hide AllRooted, Complete, Accurate, RootsAgree;
    var p :| Loc(s.fs, op.to.parent, p);
    var r, names :| LocVia(s.fs, r, names, op.to.parent, p);
    assert r != op.d;
    assert r in s.fs.roots - {op.d};
  }

  // ----- the theorem -----

  /** The cache follows every operation except two kinds: moving a root directory into a monitored
      tree, and moving a directory that was not monitored onto an existing directory in one. */
  ghost predicate Followed(fs: Forest, op: Op) {
    op.Move? && op.to.Under? && Monitored(fs, op.to.parent) ==>
      op.d !in fs.roots && (op.over.Some? ==> Monitored(fs, op.d))
  }

  /** From a state in step, after any operation and the handling of all its events: the monitor has
      ended exactly when no root directory is left; otherwise its cache is in step with the new
      directory trees exactly when the operation is one that it follows.  After any other the moved
      directory lies in a monitored tree and is not watched. */
  lemma RoundTheorem(s: Sys, op: Op, n: nat, s': Sys)
    requires Synced(s) && s.queue == [] && Enabled(s.fs, op) && Drains(Perform(s, op), n, s')
    ensures s'.exited <==> NewForest(s.fs, op).roots == map[]
    ensures !s'.exited ==> s'.fs == NewForest(s.fs, op) && s'.queue == [] && (Synced(s') <==> Followed(s.fs, op))
    ensures !s'.exited && !Followed(s.fs, op) ==> op.Move? && Lost(s', op.d)
  {
    hide Loc, AllRooted, Complete, Below, Drains, RootsAgree, ForestOk, Acyclic, Accurate, Monitored, Watched, SelfOk;
    match op
    case Mkdir(x, at) =>
      MkdirRound(s, x, at, n, s');
    case Rmdir(x) =>
      RmdirRound(s, x, n, s');
    case Move(d, to, over, cookie) =>
      if d in s.fs.roots {
        if DestLive(s, op) {
          OtherRoot(s, op);
          MoveClears(s, op);
          RootIn(s, op, n, s');
          LostNotSynced(s', d);
        } else {
          RootAway(s, op, n, s');
        }
      } else {
        MoveClears(s, op);
        assert NewForest(s.fs, op).roots == s.fs.roots;
        if !DestLive(s, op) {
          MoveOut(s, op, n, s');
        } else if Monitored(s.fs, d) {
          MoveWithin(s, op, n, s');
        } else {
          MoveIn(s, op, n, s');
          if over.Some? {
            LostNotSynced(s', d);
          }
        }
      }
  }

  // ----- whole runs -----

  /** A run of operations, each followed by the handling of all its events. */
  ghost predicate Run(s: Sys, ops: seq<Op>, s': Sys)
    decreases |ops|
  {
    if ops == [] then s' == s
    else
      && !s.exited && s.queue == [] && Enabled(s.fs, ops[0]) && Followed(s.fs, ops[0])
      && exists n, t :: Drains(Perform(s, ops[0]), n, t) && Run(t, ops[1..], s')
  }

  /** After every run of operations that the monitor follows, of any length, its cache is in step with
      the directory trees, or it has ended because no root directory was left. */
  lemma {:induction false} RunTheorem(s: Sys, ops: seq<Op>, s': Sys)
    requires Synced(s) && Run(s, ops, s')
    ensures s'.exited || Synced(s')
    ensures s'.exited <==> s'.fs.roots == map[]
    decreases |ops|
  {
    hide Drains, Enabled, Followed, InStep, AllRooted, Reports, NewForest, NewWatches;
    if ops != [] {
      var n, t :| Drains(Perform(s, ops[0]), n, t) && Run(t, ops[1..], s');
      RoundTheorem(s, ops[0], n, t);
      DrainsFs(Perform(s, ops[0]), n, t);
      if t.exited {
        assert ops[1..] == [];
      } else {
        RunTheorem(t, ops[1..], s');
      }
    }
  }

  lemma StepFs(s: Sys, t: Sys)
    requires Step(s, t)
    ensures t.fs == s.fs
  {
    hide Handle, Decide, Replies, BuildsAnew, TruthfulRm;
  }

  lemma {:induction false} DrainsFs(s: Sys, n: nat, s': Sys)
    requires Drains(s, n, s')
    ensures s'.fs == s.fs
    decreases n
  {
    hide Step;
    if n > 0 {
      var t :| Step(s, t) && Drains(t, n - 1, s');
      StepFs(s, t);
      DrainsFs(t, n - 1, s');
    }
  }
}
