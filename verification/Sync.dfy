/** The cache of `inotify_dtree.c` against the file system it mirrors, when every operation on the
    file system is followed by the handling of its events. */
module Sync {
  import opened Basics
  import opened Paths
  import opened DirTree
  import opened Monitor

  type Watches = map<int, Inode>

  ghost predicate Watched(watch: Watches, x: Inode) {
    exists wd :: wd in watch && watch[wd] == x
  }

  ghost predicate WatchesOk(watch: Watches) {
    && (forall wd :: wd in watch ==> wd >= 0)
    && (forall w1, w2 :: w1 in watch && w2 in watch && watch[w1] == watch[w2] ==> w1 == w2)
  }

  /** The cached pathname of every watch is the pathname of the watched directory. */
  ghost predicate Accurate(fs: Forest, watch: Watches, cache: Cache) {
    cache.Keys == watch.Keys && forall wd :: wd in watch ==> Loc(fs, watch[wd], cache[wd])
  }

  /** Every monitored directory is watched. */
  ghost predicate Complete(fs: Forest, watch: Watches) {
    forall x, p :: Loc(fs, x, p) ==> Watched(watch, x)
  }

  /** Exactly the watches on root directories report that the directory itself moved. */
  ghost predicate SelfOk(roots: map<Inode, string>, watch: Watches, selfWds: set<int>) {
    forall wd :: wd in selfWds <==> wd in watch && watch[wd] in roots
  }

  ghost predicate DistinctRoots(roots: seq<Option<string>>) {
    forall i, j :: 0 <= i < j < |roots| && roots[i].Some? ==> roots[i] != roots[j]
  }

  /** The root list of the program names the root directories that exist. */
  ghost predicate RootsAgree(dirs: map<Inode, string>, roots: seq<Option<string>>) {
    && DistinctRoots(roots)
    && (forall r :: r in dirs ==> Some(dirs[r]) in roots)
    && (forall p :: Some(p) in roots ==> exists r :: r in dirs && dirs[r] == p)
  }

  /** The cached pairs are exactly the watched directories, which are exactly the monitored ones. */
  ghost predicate InStep(fs: Forest, watch: Watches, selfWds: set<int>, mon: Mon) {
    && ForestOk(fs)
    && WatchesOk(watch)
    && Accurate(fs, watch, mon.cache)
    && Complete(fs, watch)
    && SelfOk(fs.roots, watch, selfWds)
    && RootsAgree(fs.roots, mon.roots)
  }

  // ----- how a change of the forest moves pathnames -----

  /** `f2` arises from `f1` by changing the link of `d` (or its existence); when `d` is a root it may
      cease to be one. */
  ghost predicate Changed(f1: Forest, f2: Forest, d: Inode) {
    && AgreeOff(f1.tree, f2.tree, d) && AgreeOff(f2.tree, f1.tree, d)
    && f2.roots == f1.roots - {d}
  }

  lemma BelowKept(f1: Forest, f2: Forest, d: Inode, x: Inode)
    requires AgreeOff(f1.tree, f2.tree, d) && Acyclic(f1.tree, d) && Below(f1.tree, d, x)
    ensures Below(f2.tree, d, x)
  {
    var rel :| At(f1.tree, d, rel, x);
    AtInside(f1.tree, f2.tree, d, rel, x);
  }

  /** In both forests `d` has the same descendants, so everything else keeps its pathname. */
  lemma LocSame(f1: Forest, f2: Forest, d: Inode, x: Inode, p: string)
    requires Changed(f1, f2, d) && !Below(f1.tree, d, x)
    requires Acyclic(f2.tree, d)
    ensures !Below(f2.tree, d, x) && (Loc(f1, x, p) <==> Loc(f2, x, p))
  {
    if Below(f2.tree, d, x) {
      BelowKept(f2, f1, d, x);
    }
    if Loc(f1, x, p) {
      LocKeep(f1, f2, d, x, p);
    }
    if Loc(f2, x, p) {
      LocKeep(f2, f1, d, x, p);
    }
  }

  /** The kernel side of adding watches for the directories at or below `p`. */
  ghost predicate IsWalk(fs: Forest, watch: Watches, p: string, w: Walk, watch': Watches) {
    && WatchesOk(watch')
    && (forall wd :: wd in watch ==> wd in watch' && watch'[wd] == watch[wd])
    && (forall wd :: wd in watch' ==> wd in watch || exists v :: v in w && v.wd == wd)
    && (forall v :: v in w ==> v.wd in watch' && AtOrBelow(p, v.path) && Loc(fs, watch'[v.wd], v.path))
    && (forall x, q :: Loc(fs, x, q) && AtOrBelow(p, q) ==> exists wd :: wd in watch' && watch'[wd] == x)
  }

  /** The flags after the walk: `IN_MOVE_SELF` is asked for exactly on root pathnames. */
  ghost predicate SelfAfter(selfWds: set<int>, mon: Mon, w: Walk, selfWds': set<int>) {
    forall wd :: wd in selfWds' <==>
      if exists v :: v in w && v.wd == wd then exists v :: v in w && v.wd == wd && IsRoot(mon, v.path)
      else wd in selfWds
  }

  lemma AddWalkAccurate(fs: Forest, watch: Watches, cache: Cache, p: string, w: Walk, watch': Watches)
    requires Accurate(fs, watch, cache) && IsWalk(fs, watch, p, w, watch')
    ensures Accurate(fs, watch', AddWalk(cache, w))
  {
    AddWalkContents(cache, w);
    var c := AddWalk(cache, w);
    forall wd | wd in watch'
      ensures wd in c && Loc(fs, watch'[wd], c[wd])
    {
      if wd !in watch {
        assert Visit(c[wd], wd) in w;
      }
    }
    forall wd | wd in c
      ensures wd in watch'
    {
      assert wd in cache || exists v :: v in w && v.wd == wd != -1;
    }
  }

  lemma {:induction false} AddWalkContents(c: Cache, w: Walk)
    ensures forall wd :: wd in AddWalk(c, w) <==> wd in c || exists v :: v in w && v.wd == wd != -1
    ensures forall wd :: wd in c ==> AddWalk(c, w)[wd] == c[wd]
    ensures forall wd :: wd in AddWalk(c, w) && wd !in c ==> Visit(AddWalk(c, w)[wd], wd) in w
  {
    if w != [] {
      var n := |w| - 1;
      AddWalkContents(c, w[..n]);
      assert w == w[..n] + [w[n]];
    }
  }

  // ----- a directory appears in the monitored trees -----

  /** `d` and what is below it were not monitored and now are, `d` as `pd`. */
  ghost predicate Appears(f1: Forest, f2: Forest, d: Inode, pd: string) {
    && Changed(f1, f2, d) && d !in f1.roots && !Monitored(f1, d)
    && Acyclic(f1.tree, d) && Acyclic(f2.tree, d)
    && ForestOk(f1) && ForestOk(f2)
    && Loc(f2, d, pd)
  }

  lemma MonitoredBelow(fs: Forest, d: Inode, x: Inode, p: string)
    requires ForestOk(fs) && Loc(fs, x, p) && Below(fs.tree, d, x)
    ensures Monitored(fs, d)
  {
    var rel :| At(fs.tree, d, rel, x);
    var pd := LocAbove(fs, d, rel, x, p);
  }

  lemma AppearAccurate(f1: Forest, f2: Forest, d: Inode, pd: string, watch: Watches, cache: Cache)
    requires Appears(f1, f2, d, pd) && Accurate(f1, watch, cache)
    ensures Accurate(f2, watch, cache)
    ensures forall wd :: wd in watch ==> !Below(f2.tree, d, watch[wd])
    ensures !PathCached(cache, pd)
  {
    forall wd | wd in watch
      ensures Loc(f2, watch[wd], cache[wd]) && !Below(f2.tree, d, watch[wd])
    {
      if Below(f1.tree, d, watch[wd]) {
        MonitoredBelow(f1, d, watch[wd], cache[wd]);
      }
      LocSame(f1, f2, d, watch[wd], cache[wd]);
    }
    assert At(f2.tree, d, [], d);
    if wd :| wd in cache && cache[wd] == pd {
      LocInjective(f2, d, watch[wd], pd);
    }
  }

  lemma AppearComplete(f1: Forest, f2: Forest, d: Inode, pd: string, watch: Watches, w: Walk, watch': Watches)
    requires Appears(f1, f2, d, pd) && Complete(f1, watch) && IsWalk(f2, watch, pd, w, watch')
    ensures Complete(f2, watch')
  {
    forall x, p | Loc(f2, x, p)
      ensures Watched(watch', x)
    {
      if Below(f2.tree, d, x) {
        LocOrder(f2, d, pd, x, p);
      } else {
        NotBelowBack(f1, f2, d, x);
        LocSame(f1, f2, d, x, p);
        var wd :| wd in watch && watch[wd] == x;
        assert watch'[wd] == x;
      }
    }
  }

  lemma NotBelowBack(f1: Forest, f2: Forest, d: Inode, x: Inode)
    requires Changed(f1, f2, d) && !Below(f2.tree, d, x) && Acyclic(f1.tree, d)
    ensures !Below(f1.tree, d, x)
  {
    if Below(f1.tree, d, x) {
      BelowKept(f1, f2, d, x);
    }
  }

  /** Nothing below a directory that is not a root is a root. */
  lemma RootNotBelow(fs: Forest, d: Inode, x: Inode)
    requires RootsOk(fs) && d !in fs.roots && Below(fs.tree, d, x)
    ensures x !in fs.roots
  {
    var rel :| At(fs.tree, d, rel, x);
  }

  lemma ListedRoot(fs: Forest, roots: seq<Option<string>>, x: Inode, p: string)
    requires ForestOk(fs) && RootsAgree(fs.roots, roots) && Loc(fs, x, p) && Some(p) in roots
    ensures x in fs.roots
  {
    var r :| r in fs.roots && fs.roots[r] == p;
    LocRoot(fs, r);
    LocInjective(fs, r, x, p);
  }

  lemma AppearNotRoot(fs: Forest, d: Inode, pd: string, roots: seq<Option<string>>, x: Inode, p: string)
    requires ForestOk(fs) && Loc(fs, d, pd) && d !in fs.roots && RootsAgree(fs.roots, roots)
    requires Loc(fs, x, p) && AtOrBelow(pd, p)
    ensures x !in fs.roots && Some(p) !in roots
  {
    LocOrder(fs, d, pd, x, p);
    RootNotBelow(fs, d, x);
    if Some(p) in roots {
      ListedRoot(fs, roots, x, p);
    }
  }

  lemma AppearSelf(fs: Forest, d: Inode, pd: string, watch: Watches, selfWds: set<int>, mon: Mon,
                   w: Walk, watch': Watches, selfWds': set<int>)
    requires ForestOk(fs) && Loc(fs, d, pd) && d !in fs.roots && RootsAgree(fs.roots, mon.roots)
    requires IsWalk(fs, watch, pd, w, watch') && SelfAfter(selfWds, mon, w, selfWds')
    requires SelfOk(fs.roots, watch, selfWds)
    ensures SelfOk(fs.roots, watch', selfWds')
  {
    forall v | v in w
      ensures !IsRoot(mon, v.path) && v.wd in watch' && watch'[v.wd] !in fs.roots
    {
      AppearNotRoot(fs, d, pd, mon.roots, watch'[v.wd], v.path);
    }
    NoRootWalked(fs, watch, selfWds, mon, w, watch', selfWds');
  }

  lemma NoRootWalked(fs: Forest, watch: Watches, selfWds: set<int>, mon: Mon,
                     w: Walk, watch': Watches, selfWds': set<int>)
    requires SelfOk(fs.roots, watch, selfWds) && SelfAfter(selfWds, mon, w, selfWds')
    requires forall v :: v in w ==> !IsRoot(mon, v.path) && v.wd in watch' && watch'[v.wd] !in fs.roots
    requires forall wd :: wd in watch ==> wd in watch' && watch'[wd] == watch[wd]
    requires forall wd :: wd in watch' ==> wd in watch || exists v :: v in w && v.wd == wd
    ensures SelfOk(fs.roots, watch', selfWds')
  {
  }

  lemma AppearInStep(f1: Forest, f2: Forest, d: Inode, pd: string, watch: Watches, selfWds: set<int>, mon: Mon,
                     w: Walk, watch': Watches, selfWds': set<int>)
    requires Appears(f1, f2, d, pd) && InStep(f1, watch, selfWds, mon)
    requires IsWalk(f2, watch, pd, w, watch') && SelfAfter(selfWds, mon, w, selfWds')
    ensures !PathCached(mon.cache, pd)
    ensures InStep(f2, watch', selfWds', mon.(cache := AddWalk(mon.cache, w)))
  {
    hide Loc, SelfAfter, PathCached, AddWalk, Complete, Accurate, ForestOk, RootsAgree, SelfOk;
    assert Accurate(f2, watch, mon.cache) && !PathCached(mon.cache, pd) by {
      AppearAccurate(f1, f2, d, pd, watch, mon.cache);
    }
    assert Accurate(f2, watch', AddWalk(mon.cache, w)) by {
      AddWalkAccurate(f2, watch, mon.cache, pd, w, watch');
    }
    assert Complete(f2, watch') by {
      AppearComplete(f1, f2, d, pd, watch, w, watch');
    }
    assert f2.roots == f1.roots;
    assert SelfOk(f2.roots, watch', selfWds') by {
      AppearSelf(f2, d, pd, watch, selfWds, mon, w, watch', selfWds');
    }
  }

  // ----- a directory vanishes from the monitored trees -----

  /** `d`, known as `pd`, and what is below it were monitored and no longer are. */
  ghost predicate Vanishes(f1: Forest, f2: Forest, d: Inode, pd: string) {
    && Changed(f1, f2, d) && Acyclic(f1.tree, d) && Acyclic(f2.tree, d)
    && ForestOk(f1) && ForestOk(f2)
    && Loc(f1, d, pd) && !Monitored(f2, d)
  }

  /** The watches left when those of the zapped cache entries are removed. */
  function ZapWatches(watch: Watches, cache: Cache, path: string): Watches {
    map wd | wd in watch && !(wd in cache && AtOrBelow(path, cache[wd])) :: watch[wd]
  }

  lemma VanishAccurate(f1: Forest, f2: Forest, d: Inode, pd: string, watch: Watches, cache: Cache)
    requires Vanishes(f1, f2, d, pd) && Accurate(f1, watch, cache)
    ensures Accurate(f2, ZapWatches(watch, cache, pd), ZapCached(cache, pd))
  {
    hide ForestOk, Loc, Monitored, Acyclic;
    forall wd | wd in watch && !AtOrBelow(pd, cache[wd])
      ensures Loc(f2, watch[wd], cache[wd])
    {
      LocOrder(f1, d, pd, watch[wd], cache[wd]);
      LocSame(f1, f2, d, watch[wd], cache[wd]);
    }
  }

  lemma VanishComplete(f1: Forest, f2: Forest, d: Inode, pd: string, watch: Watches, cache: Cache)
    requires Vanishes(f1, f2, d, pd) && Accurate(f1, watch, cache) && Complete(f1, watch)
    ensures Complete(f2, ZapWatches(watch, cache, pd))
  {
    hide ForestOk, Loc, Monitored, Acyclic;
    forall x, p | Loc(f2, x, p)
      ensures Watched(ZapWatches(watch, cache, pd), x)
    {
      if Below(f2.tree, d, x) {
        MonitoredBelow(f2, d, x, p);
      }
      NotBelowBack(f1, f2, d, x);
      LocSame(f1, f2, d, x, p);
      var wd :| wd in watch && watch[wd] == x;
      LocOrder(f1, d, pd, x, cache[wd]);
      assert wd in ZapWatches(watch, cache, pd);
    }
  }

  lemma VanishSelf(f1: Forest, f2: Forest, d: Inode, pd: string, watch: Watches, selfWds: set<int>, cache: Cache)
    requires Vanishes(f1, f2, d, pd) && Accurate(f1, watch, cache) && SelfOk(f1.roots, watch, selfWds)
    ensures SelfOk(f2.roots, ZapWatches(watch, cache, pd), selfWds * ZapWatches(watch, cache, pd).Keys)
  {
    hide ForestOk, Loc, Monitored, Acyclic;
    forall wd | wd in watch && !AtOrBelow(pd, cache[wd])
      ensures watch[wd] in f2.roots <==> watch[wd] in f1.roots
    {
      LocOrder(f1, d, pd, watch[wd], cache[wd]);
      assert At(f1.tree, d, [], d);
    }
  }

  lemma VanishInStep(f1: Forest, f2: Forest, d: Inode, pd: string, watch: Watches, selfWds: set<int>, mon: Mon,
                     roots': seq<Option<string>>)
    requires Vanishes(f1, f2, d, pd) && InStep(f1, watch, selfWds, mon) && RootsAgree(f2.roots, roots')
    ensures var watch' := ZapWatches(watch, mon.cache, pd);
            InStep(f2, watch', selfWds * watch'.Keys, Mon(ZapCached(mon.cache, pd), roots'))
  {
    hide Loc, Complete, Accurate, ForestOk, RootsAgree, SelfOk;
    VanishAccurate(f1, f2, d, pd, watch, mon.cache);
    VanishComplete(f1, f2, d, pd, watch, mon.cache);
    VanishSelf(f1, f2, d, pd, watch, selfWds, mon.cache);
  }

  /** A directory that holds no others is the only one zapped. */
  lemma ZapLeaf(fs: Forest, d: Inode, pd: string, watch: Watches, cache: Cache, wd: int)
    requires ForestOk(fs) && WatchesOk(watch) && Accurate(fs, watch, cache)
    requires wd in watch && watch[wd] == d && cache[wd] == pd
    requires forall x :: Below(fs.tree, d, x) ==> x == d
    ensures ZapCached(cache, pd) == cache - {wd}
    ensures ZapWatches(watch, cache, pd) == watch - {wd}
  {
    hide ForestOk, Loc;
    forall u | u in watch
      ensures AtOrBelow(pd, cache[u]) <==> u == wd
    {
      LocOrder(fs, d, pd, watch[u], cache[u]);
    }
  }

  // ----- striking a root -----

  lemma {:induction false} StrikeOnce(roots: seq<Option<string>>, p: string)
    requires DistinctRoots(roots) && Some(p) in roots
    ensures DistinctRoots(Strike(roots, p))
    ensures forall q :: Some(q) in Strike(roots, p) <==> Some(q) in roots && q != p
  {
    if roots[0] == Some(p) {
      assert Some(p) !in roots[1..];
    } else {
      assert DistinctRoots(roots[1..]);
      assert Some(p) in roots[1..];
      StrikeOnce(roots[1..], p);
      var r := Strike(roots[1..], p);
      assert roots[0].Some? ==> roots[0] !in r;
    }
  }

  lemma StrikeAgree(dirs: map<Inode, string>, roots: seq<Option<string>>, d: Inode)
    requires RootsAgree(dirs, roots) && d in dirs
    requires forall r :: r in dirs && r != d ==> dirs[r] != dirs[d]
    ensures RootsAgree(dirs - {d}, Strike(roots, dirs[d]))
  {
    StrikeOnce(roots, dirs[d]);
    forall p | Some(p) in Strike(roots, dirs[d])
      ensures exists r :: r in dirs - {d} && (dirs - {d})[r] == p
    {
      var r :| r in dirs && dirs[r] == p;
      assert r in dirs - {d};
    }
  }

  // ----- a directory moves within the monitored trees -----

  ghost predicate Moves(f1: Forest, f2: Forest, d: Inode, pd: string, qd: string) {
    && Changed(f1, f2, d) && Acyclic(f1.tree, d) && Acyclic(f2.tree, d)
    && ForestOk(f1) && ForestOk(f2) && d !in f1.roots
    && Loc(f1, d, pd) && Loc(f2, d, qd)
  }

  lemma MoveLoc(f1: Forest, f2: Forest, d: Inode, pd: string, qd: string, x: Inode, p: string)
    requires Moves(f1, f2, d, pd, qd) && Loc(f1, x, p)
    ensures Loc(f2, x, Rewrite(pd, qd, p))
  {
    hide ForestOk, Loc, Acyclic;
    LocOrder(f1, d, pd, x, p);
    if Below(f1.tree, d, x) {
      var rel :| At(f1.tree, d, rel, x);
      var pd' := LocAbove(f1, d, rel, x, p);
      LocUnique(f1, d, pd, pd');
      AtInside(f1.tree, f2.tree, d, rel, x);
      LocBelow(f2, d, qd, rel, x);
      RewriteRender(pd, qd, rel);
    } else {
      LocSame(f1, f2, d, x, p);
    }
  }

  lemma MoveComplete(f1: Forest, f2: Forest, d: Inode, pd: string, qd: string, watch: Watches)
    requires Moves(f1, f2, d, pd, qd) && Complete(f1, watch)
    ensures Complete(f2, watch)
  {
    hide ForestOk, Loc, Acyclic;
    assert f1.roots == f2.roots;
    forall x, p | Loc(f2, x, p)
      ensures Watched(watch, x)
    {
      assert Moves(f2, f1, d, qd, pd);
      MoveLoc(f2, f1, d, qd, pd, x, p);
    }
  }

  lemma MoveInStep(f1: Forest, f2: Forest, d: Inode, pd: string, qd: string, watch: Watches, selfWds: set<int>, mon: Mon)
    requires Moves(f1, f2, d, pd, qd) && InStep(f1, watch, selfWds, mon)
    ensures InStep(f2, watch, selfWds, mon.(cache := RenameCached(mon.cache, pd, qd)))
  {
    hide Loc, ForestOk, RootsAgree, SelfOk, Complete;
    MoveComplete(f1, f2, d, pd, qd, watch);
    forall wd | wd in watch
      ensures Loc(f2, watch[wd], RenameCached(mon.cache, pd, qd)[wd])
    {
      MoveLoc(f1, f2, d, pd, qd, watch[wd], mon.cache[wd]);
    }
    assert f2.roots == f1.roots;
  }

  // ----- a directory changes outside the monitored trees -----

  lemma UnseenInStep(f1: Forest, f2: Forest, d: Inode, watch: Watches, selfWds: set<int>, mon: Mon)
    requires Changed(f1, f2, d) && Acyclic(f1.tree, d) && Acyclic(f2.tree, d) && ForestOk(f2)
    requires !Monitored(f1, d) && !Monitored(f2, d) && d !in f1.roots
    requires InStep(f1, watch, selfWds, mon)
    ensures InStep(f2, watch, selfWds, mon)
  {
    hide Loc, ForestOk, RootsAgree, SelfOk, Monitored, Acyclic;
    forall wd | wd in watch
      ensures Loc(f2, watch[wd], mon.cache[wd])
    {
      if Below(f1.tree, d, watch[wd]) {
        MonitoredBelow(f1, d, watch[wd], mon.cache[wd]);
      }
      LocSame(f1, f2, d, watch[wd], mon.cache[wd]);
    }
    forall x, p | Loc(f2, x, p)
      ensures Watched(watch, x)
    {
      if Below(f2.tree, d, x) {
        MonitoredBelow(f2, d, x, p);
      }
      NotBelowBack(f1, f2, d, x);
      LocSame(f1, f2, d, x, p);
    }
    assert f2.roots == f1.roots;
  }
}
