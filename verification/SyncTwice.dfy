/** Two renames before the first is handled, so that their events are queued together: one takes a directory out
    of the monitored trees, the next brings one in.  Only the cookies tell this from a rename within the trees. */
module SyncTwice {
  import opened Paths
  import opened DirTree
  import opened Monitor
  import opened Sync
  import opened SyncRun
  import opened SyncTheorem
  import opened SyncRecover

  ghost predicate MovesOut(s: Sys, op: Op) {
    MoveReady(s, op) && op.d !in s.fs.roots && Monitored(s.fs, op.d) && !DestLive(s, op)
  }

  /** After `out`, the rename `back` brings a directory that is not monitored to a free name; the directory may be
      the same one, or one above or below it. */
  ghost predicate MovesBack(s: Sys, out: Op, back: Op)
    requires MovesOut(s, out)
  {
    var f1 := NewForest(s.fs, out);
    && back.Move? && Enabled(f1, back) && back.over.None? && back.d !in f1.roots && !Monitored(f1, back.d)
    && back.to.Under? && Monitored(f1, back.to.parent)
  }

  /** `from` is the event of the first rename and `pd` the pathname that left. */
  ghost predicate OutAs(s: Sys, out: Op, from: Event, pd: string)
    requires MovesOut(s, out)
  {
    var s1 := Perform(s, out);
    && from.mask == IN_MOVED_FROM + IN_ISDIR && from.cookie == out.cookie && from.wd >= 0
    && from.wd in s.mon.cache && pd == Child(s.mon.cache[from.wd], from.name)
    && s1 == Sys(NewForest(s.fs, out), s.watch, s.selfWds, s.mon, [from], false)
    && s1.fs.roots == s.fs.roots && s1.fs.roots != map[] && AllRooted(s1.fs.tree)
    && Vanishes(Cleared(s.fs, out.over), s1.fs, out.d, pd)
    && InStep(Cleared(s.fs, out.over), s.watch, s.selfWds, s.mon)
  }

  lemma OutFacts(s: Sys, out: Op) returns (from: Event, pd: string)
    requires MovesOut(s, out)
    ensures OutAs(s, out, from, pd)
  {
    hide Loc, AllRooted, Complete, Below, RootsAgree, ForestOk, Acyclic, Accurate, Monitored, Watched, SelfOk;
    MoveClears(s, out);
    MoveRelinks(s, out);
    MoveSource(s, out);
    MoveDest(s, out);
    MoveSelfReport(s, out);
    DeadDest(s, out);
    var l := s.fs.tree[out.d];
    MoveWatch(s, out, l.parent);
    from := Event(WdOf(s.watch, l.parent), IN_MOVED_FROM + IN_ISDIR, out.cookie, l.name);
    pd := Child(s.mon.cache[from.wd], from.name);
    assert s.mon.(cache := s.mon.cache) == s.mon;
  }

  /** What lies at or below `pd` has been forgotten. */
  function Zapped(s: Sys, fs: Forest, pd: string, queue: seq<Event>): Sys {
    var watch := ZapWatches(s.watch, s.mon.cache, pd);
    Sys(fs, watch, s.selfWds * watch.Keys, s.mon.(cache := ZapCached(s.mon.cache, pd)), queue, false)
  }

  /** With the first rename alone, that brings the cache into step. */
  lemma OutSynced(s: Sys, out: Op, from: Event, pd: string)
    requires MovesOut(s, out) && OutAs(s, out, from, pd)
    ensures Synced(Zapped(s, NewForest(s.fs, out), pd, []))
  {
    var f0, f1 := Cleared(s.fs, out.over), NewForest(s.fs, out);
    assert RootsAgree(f1.roots, s.mon.roots);
    hide InStep, Vanishes, AllRooted, RootsAgree, MovesOut, ZapWatches, ZapCached;
    VanishInStep(f0, f1, out.d, pd, s.watch, s.selfWds, s.mon, s.mon.roots);
    assert s.mon.(cache := ZapCached(s.mon.cache, pd)) == Mon(ZapCached(s.mon.cache, pd), s.mon.roots);
  }

  /** The first event is not paired with what follows it. */
  lemma OutStep(s: Sys, from: Event, pd: string, rest: seq<Event>, t: Sys) returns (ign: seq<Event>)
    requires !s.exited && s.queue == [from] + rest && rest != [] && Step(s, t)
    requires from.mask == IN_MOVED_FROM + IN_ISDIR && from.wd >= 0 && from.wd in s.mon.cache && pd == Child(s.mon.cache[from.wd], from.name)
    requires !Has(rest[0].mask, IN_MOVED_TO) || rest[0].cookie != from.cookie
    requires forall wd :: wd in s.mon.cache && AtOrBelow(pd, s.mon.cache[wd]) ==> wd in s.watch
    ensures AllIgnored(ign) && t == Zapped(s, s.fs, pd, rest + ign)
  {
    hide Step, Decide, ZapWatches, ZapCached, AtOrBelow, Has;
    DecideFrom(s.mon, from.wd, from.cookie, from.name, Next(s.queue), false);
    ign := StepZap(s, t, pd);
    assert s.queue[1..] == rest;
  }

  lemma WdKept(w1: Watches, w2: Watches, x: Inode)
    requires WatchesOk(w1) && (forall wd :: wd in w2 ==> wd in w1 && w1[wd] == w2[wd]) && Watched(w2, x)
    ensures Watched(w1, x) && WdOf(w1, x) == WdOf(w2, x)
  {
  }

  /** Only root directories report that they moved. */
  lemma NoSelfReport(fs: Forest, watch: Watches, selfWds: set<int>, mon: Mon, d: Inode)
    requires InStep(fs, watch, selfWds, mon) && d !in fs.roots
    ensures OnMoved(watch, selfWds, d) == [] && selfWds * watch.Keys == selfWds
  {
    hide ForestOk, Accurate, Complete, RootsAgree;
    SelfKept(fs.roots, watch, selfWds);
  }

  /** A watch that is left belongs to a directory that is still monitored. */
  lemma LeftWatched(b: Sys, s: Sys, x: Inode)
    requires Synced(b) && WatchesOk(s.watch) && (forall wd :: wd in b.watch ==> wd in s.watch && s.watch[wd] == b.watch[wd])
    ensures Monitored(b.fs, x) ==> Watched(b.watch, x) && Watched(s.watch, x) && WdOf(s.watch, x) == WdOf(b.watch, x)
    ensures Watched(s.watch, x) && !Monitored(b.fs, x) ==> WdOf(s.watch, x) >= 0 && WdOf(s.watch, x) !in b.mon.cache
  {
    hide Loc, AllRooted, RootsAgree, ForestOk, SelfOk;
    WatchedIn(b, x);
    if Monitored(b.fs, x) {
      WdKept(s.watch, b.watch, x);
    }
  }

  /** `to` is the "moved to" of the second rename; a "moved from" before it is reported when the directory that
      held it left with the first rename and is still watched. */
  predicate SecondAs(cache: Cache, half: seq<Event>, to: Event) {
    && to.mask == IN_MOVED_TO + IN_ISDIR && to.wd in cache
    && (half == [] || (|half| == 1 && half[0].mask == IN_MOVED_FROM + IN_ISDIR && half[0].wd >= 0 && half[0].wd !in cache))
  }

  /** The state after both renames. */
  ghost predicate BackAs(s: Sys, out: Op, back: Op, from: Event, pd: string, half: seq<Event>, to: Event)
    requires MovesOut(s, out) && MovesBack(s, out, back)
  {
    var f1 := NewForest(s.fs, out);
    var f2 := NewForest(f1, back);
    var cache := ZapCached(s.mon.cache, pd);
    && Perform(Perform(s, out), back) == Sys(f2, s.watch, s.selfWds, s.mon, [from] + half + [to], false)
    && to.cookie == back.cookie && SecondAs(cache, half, to)
    && Appears(f1, f2, back.d, Child(cache[to.wd], to.name)) && AllRooted(f2.tree) && f2.roots == f1.roots
  }

  lemma BackFacts(s: Sys, out: Op, back: Op, from: Event, pd: string) returns (half: seq<Event>, to: Event)
    requires MovesOut(s, out) && OutAs(s, out, from, pd) && MovesBack(s, out, back)
    ensures BackAs(s, out, back, from, pd, half, to)
  {
    hide Loc, AllRooted, Complete, Below, RootsAgree, ForestOk, Acyclic, Accurate, Monitored, Watched, SelfOk, Vanishes, ZapCached,
      InStep, Synced;
    var s1 := Perform(s, out);
    var b := Zapped(s, s1.fs, pd, []);
    OutSynced(s, out, from, pd);
    NoSelfReport(Cleared(s.fs, out.over), s.watch, s.selfWds, s.mon, back.d);
    StepWatches(Cleared(s.fs, out.over), s.watch, s.selfWds, s.mon);
    MoveRelinks(b, back);
    MoveDest(b, back);
    MoveWatch(b, back, back.to.parent);
    LeftWatched(b, s, back.to.parent);
    to := Event(WdOf(s.watch, back.to.parent), IN_MOVED_TO + IN_ISDIR, back.cookie, back.to.name);
    half := OnLink(s.watch, s1.fs.tree[back.d], IN_MOVED_FROM + IN_ISDIR, back.cookie);
    MoveSource(b, back);
    if s1.fs.tree[back.d].Under? {
      LeftWatched(b, s, s1.fs.tree[back.d].parent);
      WatchedIn(b, s1.fs.tree[back.d].parent);
    }
    assert [from] + (half + [to]) == [from] + half + [to];
  }

  lemma StepWatches(fs: Forest, watch: Watches, selfWds: set<int>, mon: Mon)
    requires InStep(fs, watch, selfWds, mon)
    ensures WatchesOk(watch) && mon.cache.Keys == watch.Keys && RootsAgree(fs.roots, mon.roots)
  {
    hide Loc, Complete, RootsAgree, ForestOk, SelfOk;
  }

  lemma HalfAstray(s: Sys, ev: Event)
    requires s.queue != [] && s.queue[0] == ev && ev.mask == IN_MOVED_FROM + IN_ISDIR && ev.wd >= 0 && ev.wd !in s.mon.cache
    ensures Astray(s)
  {
  }

  lemma CachedLeft(s: Sys, pd: string)
    requires s.mon.cache.Keys == s.watch.Keys
    ensures forall wd :: wd in s.mon.cache && AtOrBelow(pd, s.mon.cache[wd]) ==> wd in s.watch
  {
    hide AtOrBelow;
    assert forall wd :: wd in s.mon.cache ==> wd in s.watch.Keys;
  }

  /** The events are handled one by one. */
  lemma HandledApart(f1: Forest, s: Sys, d: Inode, from: Event, pd: string, half: seq<Event>, to: Event, n: nat, s': Sys)
    requires from.mask == IN_MOVED_FROM + IN_ISDIR && from.wd >= 0 && from.wd in s.mon.cache && pd == Child(s.mon.cache[from.wd], from.name)
    requires SecondAs(ZapCached(s.mon.cache, pd), half, to) && to.cookie != from.cookie
    requires Appears(f1, s.fs, d, Child(ZapCached(s.mon.cache, pd)[to.wd], to.name))
    requires s.mon.cache.Keys == s.watch.Keys && s.fs.roots == f1.roots && f1.roots != map[]
    requires ForestOk(s.fs) && AllRooted(s.fs.tree) && Synced(Zapped(s, f1, pd, []))
    requires !s.exited && s.queue == [from] + half + [to] && Drains(s, n, s')
    ensures Caught(s, s')
  {
    hide Drains, Step, Astray, AllRooted, Pending, ZapWatches, ZapCached, ForestOk, RootsAgree, Synced, Appears, AtOrBelow;
    CachedLeft(s, pd);
    var t := DrainStep(s, n, s');
    assert [from] + half + [to] == [from] + (half + [to]);
    var ign := OutStep(s, from, pd, half + [to], t);
    ZappedPending(s, f1, pd, t);
    if half == [] {
      assert half + [to] + ign == [to] + ign;
      assert to == Event(to.wd, to.mask, to.cookie, to.name);
      AppearRound(f1, t, d, Child(t.mon.cache[to.wd], to.name), to.wd, to.mask, to.cookie, to.name, ign, n - 1, s');
    } else {
      assert (half + [to] + ign)[0] == half[0];
      HalfAstray(t, half[0]);
      var u := DrainStep(t, n - 1, s');
      RecoverTheorem(t, u);
      DrainEnd(u, n - 2, s');
    }
  }

  /** A rename out of the monitored trees and one into them, both made before either is handled: since their
      cookies differ they are not taken for one rename, and the cache is in step afterwards. */
  lemma TwiceTheorem(s: Sys, out: Op, back: Op, n: nat, s': Sys)
    requires MovesOut(s, out) && MovesBack(s, out, back) && back.cookie != out.cookie
    requires Drains(Perform(Perform(s, out), back), n, s')
    ensures Caught(Perform(Perform(s, out), back), s')
  {
    hide Drains, AllRooted, InStep, ZapWatches, ZapCached, ForestOk, RootsAgree, Synced, Loc, Changed, Acyclic, Monitored, NewForest, Cleared;
    var from, pd := OutFacts(s, out);
    var half, to := BackFacts(s, out, back, from, pd);
    OutSynced(s, out, from, pd);
    StepWatches(Cleared(s.fs, out.over), s.watch, s.selfWds, s.mon);
    HandledApart(NewForest(s.fs, out), Perform(Perform(s, out), back), back.d, from, pd, half, to, n, s');
  }

  lemma ZappedPending(s: Sys, f1: Forest, pd: string, t: Sys)
    requires Synced(Zapped(s, f1, pd, [])) && t == Zapped(s, t.fs, pd, t.queue) && AllRooted(t.fs.tree)
    ensures Pending(f1, t) && RootsAgree(f1.roots, t.mon.roots)
  {
    hide AllRooted, RootsAgree, ForestOk, Accurate, Complete, SelfOk;
  }
}
