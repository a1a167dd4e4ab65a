/** A rename whose two events are not seen together: the second half arrives only after the first was handled
    as a move out of the monitored trees. */
module SyncSplit {
  import opened Basics
  import opened Paths
  import opened DirTree
  import opened Monitor
  import opened Sync
  import opened SyncRun
  import opened SyncTheorem

  /** The forest in which the directory is away. */
  function Away(fs: Forest, d: Inode): Forest {
    Relink(fs, d, Top)
  }

  lemma AwayBetween(f1: Forest, f2: Forest, d: Inode, l: Link, pd: string, qd: string)
    requires ForestOk(f1) && AllRooted(f1.tree) && f2 == Relink(f1, d, l) && ForestOk(f2) && Acyclic(f2.tree, d)
    requires Loc(f1, d, pd) && Loc(f2, d, qd) && d !in f1.roots
    ensures Vanishes(f1, Away(f1, d), d, pd) && Appears(Away(f1, d), f2, d, qd)
    ensures Away(f1, d).roots == f1.roots == f2.roots
  {
    hide Loc, AllRooted, ForestOk, Acyclic, Below, At;
    RelinkOk(f1, d, Top);
    RelinkMonitored(f1, d, Top);
  }

  /** The first half alone: the directory and all below it are zapped. */
  lemma HalfZaps(s: Sys, pd: string, from: Event, t: Sys) returns (ign: seq<Event>)
    requires !s.exited && from.wd >= 0 && from.wd in s.mon.cache && pd == Child(s.mon.cache[from.wd], from.name)
    requires from.mask == IN_MOVED_FROM + IN_ISDIR && Step(s.(queue := [from]), t)
    requires forall wd :: wd in s.mon.cache && AtOrBelow(pd, s.mon.cache[wd]) ==> wd in s.watch
    ensures AllIgnored(ign)
    ensures var watch := ZapWatches(s.watch, s.mon.cache, pd);
            t == Sys(s.fs, watch, s.selfWds * watch.Keys, s.mon.(cache := ZapCached(s.mon.cache, pd)), ign, false)
  {
    hide Step, Decide, ZapWatches, ZapCached, AtOrBelow;
    var s0 := s.(queue := [from]);
    DecideFrom(s.mon, from.wd, from.cookie, from.name, Next(s0.queue), false);
    ign := StepZap(s0, t, pd);
    assert [from][1..] + ign == ign;
  }

  /** After the first half the cache is in step with the forest in which the directory is away. */
  lemma HalfAway(f1: Forest, s: Sys, d: Inode, pd: string, t: Sys, ign: seq<Event>)
    requires Pending(f1, s) && Vanishes(f1, Away(f1, d), d, pd) && Away(f1, d).roots == f1.roots
    requires var watch := ZapWatches(s.watch, s.mon.cache, pd);
             t == Sys(s.fs, watch, s.selfWds * watch.Keys, s.mon.(cache := ZapCached(s.mon.cache, pd)), ign, false)
    ensures Pending(Away(f1, d), t)
  {
    assert InStep(f1, s.watch, s.selfWds, s.mon) && RootsAgree(f1.roots, s.mon.roots);
    hide InStep, Vanishes, Away, ZapWatches, ZapCached, AllRooted, RootsAgree;
    VanishInStep(f1, Away(f1, d), d, pd, s.watch, s.selfWds, s.mon, s.mon.roots);
    assert t.mon == Mon(ZapCached(s.mon.cache, pd), s.mon.roots);
  }

  lemma PendingFacts(f1: Forest, s: Sys)
    requires Pending(f1, s)
    ensures ForestOk(f1) && !s.exited && s.mon.cache.Keys == s.watch.Keys
  {
    hide ForestOk, AllRooted, Complete;
  }

  lemma PendingQueue(f1: Forest, s: Sys, q: seq<Event>)
    requires Pending(f1, s)
    ensures Pending(f1, s.(queue := q))
  {
    hide InStep, AllRooted;
  }

  /** To a free name: the directory is found again by the walk. */
  lemma SplitFree(f1: Forest, s: Sys, d: Inode, l: Link, pd: string, qd: string, from: Event, to: Event, t: Sys, n: nat, s': Sys)
    requires Pending(f1, s) && AllRooted(f1.tree) && s.fs == Relink(f1, d, l) && ForestOk(s.fs) && Acyclic(s.fs.tree, d)
    requires Loc(f1, d, pd) && Loc(s.fs, d, qd) && d !in f1.roots && s.fs.roots != map[]
    requires from.wd >= 0 && from.wd in s.mon.cache && pd == Child(s.mon.cache[from.wd], from.name)
    requires to.wd in s.mon.cache && qd == Child(s.mon.cache[to.wd], to.name) && !AtOrBelow(pd, s.mon.cache[to.wd])
    requires from.mask == IN_MOVED_FROM + IN_ISDIR && to.mask == IN_MOVED_TO + IN_ISDIR
    requires Step(s.(queue := [from]), t) && Drains(t.(queue := [to] + t.queue), n, s')
    ensures Caught(s, s')
  {
    hide Loc, AllRooted, ForestOk, Acyclic, Step, Drains, AtOrBelow, Vanishes, Appears, Pending, ZapWatches, Synced, Away;
    PendingFacts(f1, s);
    AwayBetween(f1, s.fs, d, l, pd, qd);
    var ign := HalfZaps(s, pd, from, t);
    HalfAway(f1, s, d, pd, t, ign);
    PendingQueue(Away(f1, d), t, [to] + t.queue);
    assert to == Event(to.wd, to.mask, to.cookie, to.name);
    AppearRound(Away(f1, d), t.(queue := [to] + t.queue), d, qd, to.wd, to.mask, to.cookie, to.name, ign, n, s');
  }

  /** Over another directory: its pathname is still cached, so that the directory is not found again. */
  lemma SplitOver(s: Sys, d: Inode, wd: int, pd: string, qd: string, from: Event, to: Event, v: int, t: Sys, n: nat, s': Sys)
    requires !s.exited && WatchesOk(s.watch) && Monitored(s.fs, d) && wd in s.watch && s.watch[wd] == d
    requires wd in s.mon.cache && s.mon.cache[wd] == pd
    requires from.wd >= 0 && from.wd in s.mon.cache && pd == Child(s.mon.cache[from.wd], from.name)
    requires to.wd >= 0 && to.wd in s.mon.cache && qd == Child(s.mon.cache[to.wd], to.name) && !AtOrBelow(pd, s.mon.cache[to.wd])
    requires v >= 0 && v in s.mon.cache && s.mon.cache[v] == qd && !AtOrBelow(pd, qd) && !IsRoot(s.mon, qd)
    requires forall u :: u in s.mon.cache && AtOrBelow(pd, s.mon.cache[u]) ==> u in s.watch
    requires from.mask == IN_MOVED_FROM + IN_ISDIR && to.mask == IN_MOVED_TO + IN_ISDIR
    requires Step(s.(queue := [from]), t) && Drains(t.(queue := [to] + Tail(Some(v)) + t.queue), n, s')
    ensures Lost(s', d) && s'.fs == s.fs && s'.queue == [] && !s'.exited
  {
    hide Monitored, Step, Drains;
    var ign := HalfZaps(s, pd, from, t);
    assert AtOrBelow(pd, pd);
    assert !Watched(t.watch, d);
    LostOver(t.(queue := [to] + Tail(Some(v)) + t.queue), d, to, v, ign, n, s');
  }

  /** After a rename within the monitored trees whose events are handled one by one, the cache is in step if
      and only if no directory was replaced; otherwise the moved directory is monitored and not watched. */
  lemma SplitTheorem(s: Sys, op: Op, t: Sys, n: nat, s': Sys)
    requires MoveReady(s, op) && op.d !in s.fs.roots && Monitored(s.fs, op.d) && DestLive(s, op)
    requires var s1 := Perform(s, op);
             |s1.queue| >= 1 && Step(s1.(queue := s1.queue[..1]), t) && Drains(t.(queue := s1.queue[1..] + t.queue), n, s')
    ensures !s'.exited && s'.fs == NewForest(s.fs, op) && s'.queue == []
    ensures Synced(s') <==> op.over.None?
    ensures op.over.Some? ==> Lost(s', op.d)
  {
    hide Loc, AllRooted, Complete, Below, Drains, RootsAgree, ForestOk, Acyclic, Accurate, Monitored, Watched, SelfOk, Step;
    var s1, fv, d := Perform(s, op), Cleared(s.fs, op.over), op.d;
    MoveClears(s, op);
    MoveRelinks(s, op);
    MoveSource(s, op);
    MoveDest(s, op);
    MoveSelfReport(s, op);
    var l := s.fs.tree[d];
    MoveWatch(s, op, l.parent);
    MoveWatch(s, op, op.to.parent);
    MoveWatch(s, op, d);
    var pd := Child(s.mon.cache[WdOf(s.watch, l.parent)], l.name);
    var qd := Child(s.mon.cache[WdOf(s.watch, op.to.parent)], op.to.name);
    var from := Event(WdOf(s.watch, l.parent), IN_MOVED_FROM + IN_ISDIR, op.cookie, l.name);
    var to := Event(WdOf(s.watch, op.to.parent), IN_MOVED_TO + IN_ISDIR, op.cookie, op.to.name);
    SplitParent(s, op, pd, s.mon.cache[to.wd]);
    if op.over.None? {
      assert s1.queue == [from, to] && s1.queue[..1] == [from] && s1.queue[1..] == [to];
      SplitFree(fv, s1, d, op.to, pd, qd, from, to, t, n, s');
    } else {
      MoveVictim(s, op);
      MoveLocs(s, op, d);
      MoveApart(s, op, pd, qd);
      SyncedWatches(s);
      ZappedLeft(s.watch, s.mon.cache, op.over.value, pd);
      LocUnique(s.fs, d, pd, s.mon.cache[WdOf(s.watch, d)]);
      var v := WdOf(s.watch, op.over.value);
      assert s1.queue == [from] + ([to] + Tail(Some(v)));
      assert s1.queue[..1] == [from] && s1.queue[1..] == [to] + Tail(Some(v));
      SplitOver(s1, d, WdOf(s.watch, d), pd, qd, from, to, v, t, n, s');
      LostNotSynced(s', d);
    }
  }

  /** The directory that receives the moved one is not zapped. */
  lemma SplitParent(s: Sys, op: Op, pd: string, pp: string)
    requires MoveReady(s, op) && op.to.Under? && Loc(Cleared(s.fs, op.over), op.d, pd) && Loc(s.fs, op.to.parent, pp)
    requires op.over.Some? ==> op.to.parent != op.over.value
    ensures !AtOrBelow(pd, pp)
  {
    hide Loc, AllRooted, Complete, RootsAgree, Accurate, AtOrBelow;
    MoveLocs(s, op, op.to.parent);
    MoveRelinks(s, op);
    LocOrder(Cleared(s.fs, op.over), op.d, pd, op.to.parent, pp);
  }

  lemma SyncedWatches(s: Sys)
    requires Synced(s)
    ensures WatchesOk(s.watch) && s.mon.cache.Keys == s.watch.Keys && ForestOk(s.fs)
  {
    hide AllRooted, Complete, RootsAgree, SelfOk, ForestOk, Loc;
  }

  /** Every watch to be zapped is still there. */
  lemma ZappedLeft(watch: Watches, cache: Cache, x: Inode, pd: string)
    requires WatchesOk(watch) && cache.Keys == watch.Keys && Watched(watch, x) && !AtOrBelow(pd, cache[WdOf(watch, x)])
    ensures forall u :: u in cache && AtOrBelow(pd, cache[u]) ==> u in Unwatch(watch, x)
  {
    hide AtOrBelow;
    assert forall u :: u in cache ==> u in watch;
  }
}
