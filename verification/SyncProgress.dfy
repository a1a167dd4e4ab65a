/** Rebuilding the cache puts it in step from any state, and the kernel always has an answer: every
    queue of events can be handled to its end. */
module SyncProgress {
  import opened Basics
  import opened Paths
  import opened DirTree
  import opened Monitor
  import opened Sync
  import opened SyncRun
  import opened SyncMeasure

  // ----- rebuilding -----

  lemma {:induction false} BuildContents(roots: seq<Option<string>>, walks: seq<Walk>, n: nat)
    requires n <= |roots| == |walks|
    ensures forall wd :: wd in BuildCache(roots, walks, n) ==>
              exists j :: 0 <= j < n && roots[j].Some? && Visit(BuildCache(roots, walks, n)[wd], wd) in walks[j]
    ensures forall j, v :: 0 <= j < n && roots[j].Some? && v in walks[j] && v.wd != -1 ==> v.wd in BuildCache(roots, walks, n)
  {
    if n > 0 {
      BuildContents(roots, walks, n - 1);
      var c := BuildCache(roots, walks, n - 1);
      if roots[n - 1].Some? {
        AddWalkContents(c, walks[n - 1]);
      }
    }
  }

  /** `reinitialize()`: whatever the cache held before, walking the listed roots puts it in step. */
  lemma RebuildInStep(fs: Forest, roots: seq<Option<string>>, walks: seq<Walk>, watch: Watches, selfWds: set<int>)
    requires ForestOk(fs) && RootsAgree(fs.roots, roots) && |walks| == |roots|
    requires BuildsAnew(fs, roots, walks, watch, selfWds)
    ensures InStep(fs, watch, selfWds, Mon(BuildCache(roots, walks, |roots|), roots))
  {
    var c := BuildCache(roots, walks, |roots|);
    BuildContents(roots, walks, |roots|);
    assert Accurate(fs, watch, c) by {
      RebuildAccurate(fs, roots, walks, watch, selfWds);
    }
    assert Complete(fs, watch) by {
      RebuildComplete(fs, roots, walks, watch, selfWds);
    }
    assert SelfOk(fs.roots, watch, selfWds) by {
      RebuildSelf(fs, roots, walks, watch, selfWds);
    }
  }

  lemma RebuildAccurate(fs: Forest, roots: seq<Option<string>>, walks: seq<Walk>, watch: Watches, selfWds: set<int>)
    requires |walks| == |roots| && BuildsAnew(fs, roots, walks, watch, selfWds)
    ensures Accurate(fs, watch, BuildCache(roots, walks, |roots|))
  {
    hide Loc;
    var c := BuildCache(roots, walks, |roots|);
    BuildContents(roots, walks, |roots|);
    forall wd | wd in c
      ensures wd in watch && Loc(fs, watch[wd], c[wd])
    {
      var j :| 0 <= j < |roots| && roots[j].Some? && Visit(c[wd], wd) in walks[j];
    }
    forall wd | wd in watch
      ensures wd in c
    {
      var j, v :| 0 <= j < |roots| && roots[j].Some? && v in walks[j] && v.wd == wd;
    }
  }

  lemma RebuildComplete(fs: Forest, roots: seq<Option<string>>, walks: seq<Walk>, watch: Watches, selfWds: set<int>)
    requires |walks| == |roots| && BuildsAnew(fs, roots, walks, watch, selfWds) && RootsAgree(fs.roots, roots)
    ensures Complete(fs, watch)
  {
    forall x, p | Loc(fs, x, p)
      ensures Watched(watch, x)
    {
      var r, names :| LocVia(fs, r, names, x, p);
      var j :| 0 <= j < |roots| && roots[j] == Some(fs.roots[r]);
      RewriteRender(fs.roots[r], "", names);
    }
  }

  lemma RebuildSelf(fs: Forest, roots: seq<Option<string>>, walks: seq<Walk>, watch: Watches, selfWds: set<int>)
    requires |walks| == |roots| && BuildsAnew(fs, roots, walks, watch, selfWds) && RootsAgree(fs.roots, roots) && ForestOk(fs)
    ensures SelfOk(fs.roots, watch, selfWds)
  {
    hide Loc, ForestOk;
    forall wd | wd in selfWds
      ensures wd in watch && watch[wd] in fs.roots
    {
      var j, v :| 0 <= j < |roots| && roots[j].Some? && v in walks[j] && v.wd == wd && Some(v.path) in roots;
      ListedRoot(fs, roots, watch[wd], v.path);
    }
    forall wd | wd in watch && watch[wd] in fs.roots
      ensures wd in selfWds
    {
      var j, v :| 0 <= j < |roots| && roots[j].Some? && v in walks[j] && v.wd == wd;
      LocRoot(fs, watch[wd]);
      LocUnique(fs, watch[wd], v.path, fs.roots[watch[wd]]);
    }
  }

  // ----- the kernel can answer -----

  lemma {:induction false} FreshWd(used: set<int>) returns (wd: int)
    ensures wd >= 0 && forall u :: u in used ==> u < wd
  {
    wd := 0;
    if u :| u in used {
      var rest := FreshWd(used - {u});
      wd := if u < rest then rest else u + 1;
      assert forall v :: v in used ==> v == u || v in used - {u};
    }
  }

  /** All but the demand that every directory at or below `p` is reached. */
  ghost predicate PartWalk(fs: Forest, watch: Watches, p: string, w: Walk, watch': Watches) {
    && WatchesOk(watch')
    && (forall wd :: wd in watch ==> wd in watch' && watch'[wd] == watch[wd])
    && (forall wd :: wd in watch' ==> wd in watch || exists v :: v in w && v.wd == wd)
    && (forall v :: v in w ==> v.wd in watch' && AtOrBelow(p, v.path) && Loc(fs, watch'[v.wd], v.path))
  }

  lemma ExtendWalk(fs: Forest, watch: Watches, p: string, w: Walk, watch': Watches, x: Inode, q: string) returns (wd: int)
    requires PartWalk(fs, watch, p, w, watch') && !Watched(watch', x) && Loc(fs, x, q) && AtOrBelow(p, q)
    ensures PartWalk(fs, watch, p, w + [Visit(q, wd)], watch'[wd := x])
    ensures wd !in watch'
  {
    hide Loc, AtOrBelow;
    wd := FreshWd(watch'.Keys);
    var w2, watch2 := w + [Visit(q, wd)], watch'[wd := x];
    assert forall u :: u in watch' ==> watch'[u] != x;
    assert Visit(q, wd) in w2;
    forall v | v in w2
      ensures v.wd in watch2 && AtOrBelow(p, v.path) && Loc(fs, watch2[v.wd], v.path)
    {
      assert v in w || v == Visit(q, wd);
    }
    forall u | u in watch2
      ensures u in watch || exists v :: v in w2 && v.wd == u
    {
      if u in watch' && u !in watch {
        var v :| v in w && v.wd == u;
        assert v in w2;
      }
    }
  }

  lemma WalkExists(fs: Forest, watch: Watches, p: string) returns (w: Walk, watch': Watches)
    requires RootsOk(fs) && WatchesOk(watch)
    ensures IsWalk(fs, watch, p, w, watch')
  {
    hide Loc, RootsOk, PartWalk, Watched;
    w, watch' := [], watch;
    PartWalkStart(fs, watch, p);
    var rest := fs.tree.Keys;
    while rest != {}
      invariant PartWalk(fs, watch, p, w, watch')
      invariant forall x, q :: x in fs.tree && x !in rest && Loc(fs, x, q) && AtOrBelow(p, q) ==> Watched(watch', x)
      decreases rest
    {
      var x :| x in rest;
      rest := rest - {x};
      if q :| Loc(fs, x, q) && AtOrBelow(p, q) && !Watched(watch', x) {
        var wd := ExtendWalk(fs, watch, p, w, watch', x, q);
        StillWatched(watch', wd, x);
        w, watch' := w + [Visit(q, wd)], watch'[wd := x];
      }
    }
    PartWalkEnd(fs, watch, p, w, watch');
  }

  lemma StillWatched(watch: Watches, wd: int, x: Inode)
    requires wd !in watch
    ensures forall y :: Watched(watch, y) || y == x ==> Watched(watch[wd := x], y)
  {
    var watch' := watch[wd := x];
    assert watch'[wd] == x;
    forall y | Watched(watch, y)
      ensures Watched(watch', y)
    {
      var u :| u in watch && watch[u] == y;
      assert watch'[u] == y;
    }
  }

  lemma PartWalkStart(fs: Forest, watch: Watches, p: string)
    requires WatchesOk(watch)
    ensures PartWalk(fs, watch, p, [], watch)
  {
  }

  lemma PartWalkEnd(fs: Forest, watch: Watches, p: string, w: Walk, watch': Watches)
    requires RootsOk(fs) && PartWalk(fs, watch, p, w, watch')
    requires forall x, q :: x in fs.tree && Loc(fs, x, q) && AtOrBelow(p, q) ==> Watched(watch', x)
    ensures IsWalk(fs, watch, p, w, watch')
  {
    forall x, q | Loc(fs, x, q) && AtOrBelow(p, q)
      ensures exists wd :: wd in watch' && watch'[wd] == x
    {
      LocInTree(fs, x, q);
      assert Watched(watch', x);
    }
  }

  /** The walks of the first `n` listed roots, one after the other. */
  ghost predicate Built(fs: Forest, roots: seq<Option<string>>, walks: seq<Walk>, n: nat, watch: Watches)
    requires n <= |roots| == |walks|
  {
    && WatchesOk(watch)
    && (forall wd :: wd in watch ==> exists j, v :: 0 <= j < n && roots[j].Some? && v in walks[j] && v.wd == wd)
    && (forall j, v :: 0 <= j < n && roots[j].Some? && v in walks[j] ==>
          v.wd in watch && AtOrBelow(roots[j].value, v.path) && Loc(fs, watch[v.wd], v.path))
    && (forall j, x, q :: 0 <= j < n && roots[j].Some? && Loc(fs, x, q) && AtOrBelow(roots[j].value, q) ==> Watched(watch, x))
  }

  lemma {:induction false} BuiltExists(fs: Forest, roots: seq<Option<string>>) returns (walks: seq<Walk>, watch: Watches)
    requires RootsOk(fs)
    ensures |walks| == |roots| && Built(fs, roots, walks, |roots|, watch)
    decreases |roots|
  {
    if roots == [] {
      walks, watch := [], map[];
    } else {
      var n := |roots| - 1;
      var ws, w0 := BuiltExists(fs, roots[..n]);
      if roots[n].Some? {
        var w, w1 := WalkExists(fs, w0, roots[n].value);
        walks, watch := ws + [w], w1;
        BuiltMore(fs, roots, ws, w0, w, w1);
      } else {
        walks, watch := ws + [[]], w0;
        BuiltSkip(fs, roots, ws, w0);
      }
    }
  }

  lemma BuiltSkip(fs: Forest, roots: seq<Option<string>>, ws: seq<Walk>, w0: Watches)
    requires |roots| == |ws| + 1 && roots[|ws|].None? && Built(fs, roots[..|ws|], ws, |ws|, w0)
    ensures Built(fs, roots, ws + [[]], |roots|, w0)
  {
    hide Loc, AtOrBelow;
    forall wd | wd in w0
      ensures exists j, v :: 0 <= j < |roots| && roots[j].Some? && v in (ws + [[]])[j] && v.wd == wd
    {
      var j, v :| 0 <= j < |ws| && roots[..|ws|][j].Some? && v in ws[j] && v.wd == wd;
      assert v in (ws + [[]])[j];
    }
  }

  lemma BuiltMore(fs: Forest, roots: seq<Option<string>>, ws: seq<Walk>, w0: Watches, w: Walk, w1: Watches)
    requires |roots| == |ws| + 1 && roots[|ws|].Some? && Built(fs, roots[..|ws|], ws, |ws|, w0)
    requires IsWalk(fs, w0, roots[|ws|].value, w, w1)
    ensures Built(fs, roots, ws + [w], |roots|, w1)
  {
    hide Loc, AtOrBelow;
    var n := |ws|;
    var walks: seq<Walk> := ws + [w];
    forall wd | wd in w1
      ensures exists j, v :: 0 <= j < |roots| && roots[j].Some? && v in walks[j] && v.wd == wd
    {
      if wd in w0 {
        var j, v :| 0 <= j < n && roots[..n][j].Some? && v in ws[j] && v.wd == wd;
        assert v in walks[j];
      } else {
        var v :| v in w && v.wd == wd;
        assert v in walks[n];
      }
    }
    forall j, v | 0 <= j < |roots| && roots[j].Some? && v in walks[j]
      ensures v.wd in w1 && AtOrBelow(roots[j].value, v.path) && Loc(fs, w1[v.wd], v.path)
    {
      if j < n {
        assert roots[..n][j] == roots[j] && v in ws[j];
      }
    }
    forall j, x, q | 0 <= j < |roots| && roots[j].Some? && Loc(fs, x, q) && AtOrBelow(roots[j].value, q)
      ensures Watched(w1, x)
    {
      if j < n {
        assert roots[..n][j] == roots[j];
        var wd :| wd in w0 && w0[wd] == x;
        assert w1[wd] == x;
      }
    }
  }

  lemma SelfAfterExists(selfWds: set<int>, mon: Mon, w: Walk) returns (selfWds': set<int>)
    ensures SelfAfter(selfWds, mon, w, selfWds')
  {
    selfWds' := (set wd | wd in selfWds && !exists v :: v in w && v.wd == wd)
              + (set v | v in w && IsRoot(mon, v.path) :: v.wd);
  }

  lemma AnewExists(fs: Forest, roots: seq<Option<string>>) returns (walks: seq<Walk>, watch: Watches, selfWds: set<int>)
    requires RootsOk(fs)
    ensures |walks| == |roots| && BuildsAnew(fs, roots, walks, watch, selfWds)
  {
    hide Loc, AtOrBelow, RootsOk;
    walks, watch := BuiltExists(fs, roots);
    selfWds := set j, v | 0 <= j < |roots| && roots[j].Some? && v in walks[j] && Some(v.path) in roots :: v.wd;
  }

  lemma {:induction false} IgnoredExists(gone: set<int>) returns (ign: seq<Event>)
    requires forall wd :: wd in gone ==> wd >= 0
    ensures Ignored(ign, gone)
  {
    if gone == {} {
      ign := [];
    } else {
      var wd := Pick(gone);
      var rest := IgnoredExists(gone - {wd});
      ign := rest + [Event(wd, IN_IGNORED, 0, "")];
    }
  }

  lemma CanStepWatch(s: Sys, p: string, walks: seq<Walk>) returns (t: Sys)
    requires Acts(s, Watch(p)) && RootsOk(s.fs) && WatchesOk(s.watch) && |walks| == |s.mon.roots|
    ensures Step(s, t)
  {
    hide Decide, Loc, RootsOk, AtOrBelow;
    var w, watch := WalkExists(s.fs, s.watch, p);
    var selfWds := SelfAfterExists(s.selfWds, s.mon, w);
    var ans := Answer(w, s.mon.cache.Keys - s.watch.Keys, walks);
    t := Sys(s.fs, watch, selfWds, s.mon.(cache := AddWalk(s.mon.cache, w)), s.queue[1..], false);
    assert s.queue[1..] == s.queue[1..] + [];
    assert StepWith(s, ans, [], t);
  }

  lemma CanStepDone(s: Sys, a: Action, ans: Answer, k: nat, mon: Mon) returns (t: Sys)
    requires !s.exited && s.queue != [] && KernelEvent(s.queue[0]) && WatchesOk(s.watch)
    requires TruthfulRm(s, ans) && |ans.rebuild| == |s.mon.roots| && k <= |s.queue| && !a.Watch?
    requires a == Decide(s.mon, s.queue[0], Next(s.queue), false)
    requires Handle(s.mon, s.queue[0], Next(s.queue), false, ans) == Result(mon, Done(k))
    ensures Step(s, t)
  {
    hide Decide, Handle, KernelEvent, AtOrBelow, TruthfulRm;
    if a.Zap? || a.ZapRoot? {
      var watch := ZapWatches(s.watch, s.mon.cache, a.path);
      var ign := IgnoredExists(s.watch.Keys - watch.Keys);
      hide Ignored;
      t := Sys(s.fs, watch, s.selfWds * watch.Keys, mon, s.queue[k..] + ign, false);
      assert StepWith(s, ans, ign, t);
    } else {
      t := Sys(s.fs, s.watch, s.selfWds, mon, s.queue[k..], false);
      assert s.queue[k..] == s.queue[k..] + [];
      assert StepWith(s, ans, [], t);
    }
  }

  /** The kernel can answer the calls made for any event, so that the handler is never stuck. */
  lemma CanStep(s: Sys) returns (t: Sys)
    requires !s.exited && s.queue != [] && KernelEvent(s.queue[0]) && RootsOk(s.fs) && WatchesOk(s.watch)
    ensures Step(s, t)
  {
    hide Decide, Loc, RootsOk, AtOrBelow, BuildCache, BuildsAnew, IsWalk, SelfAfter, AddWalk, ZapFails;
    var a := Decide(s.mon, s.queue[0], Next(s.queue), false);
    var roots := if a.ZapRoot? then Strike(s.mon.roots, a.path) else s.mon.roots;
    var walks, anew, selfAnew := AnewExists(s.fs, roots);
    if a.Watch? {
      t := CanStepWatch(s, a.path, walks);
      return;
    }
    var ans := Answer([], s.mon.cache.Keys - s.watch.Keys, walks);
    var r := Handle(s.mon, s.queue[0], Next(s.queue), false, ans);
    DecideNotDeferred(s);
    match r.outcome
    case Exited =>
      t := s.(mon := r.mon, exited := true);
      assert StepWith(s, ans, [], t);
    case Rebuilt =>
      t := Sys(s.fs, anew, selfAnew, r.mon, [], false);
      assert StepWith(s, ans, [], t);
    case Done(k) =>
      t := CanStepDone(s, a, ans, k, r.mon);
  }

  lemma DecideNotDeferred(s: Sys)
    requires s.queue != [] && KernelEvent(s.queue[0])
    ensures var a := Decide(s.mon, s.queue[0], Next(s.queue), false);
            !a.Defer? && (a.Rename? ==> |s.queue| >= 2)
  {
  }

  ghost predicate KernelQueue(q: seq<Event>) {
    forall i :: 0 <= i < |q| ==> KernelEvent(q[i])
  }

  lemma StepQueue(s: Sys, t: Sys)
    requires Step(s, t) && KernelQueue(s.queue)
    ensures t.exited || KernelQueue(t.queue)
  {
    hide Decide, Handle, BuildsAnew, IsWalk, SelfAfter, TruthfulRm;
    var ans, ign :| StepWith(s, ans, ign, t);
  }

  /** Any events, from any state of the cache: every run of the handler ends, within the bound, and it can
      go on until all events are handled or the program has ended. */
  lemma DrainTheorem(s: Sys, n: nat, t: Sys)
    requires RootsOk(s.fs) && WatchesOk(s.watch) && KernelQueue(s.queue) && Runs(s, n, t)
    ensures n <= Measure(s)
    ensures t.exited || t.queue == [] || exists u :: Step(t, u)
  {
    hide Step, RootsOk, WatchesOk, Measure, KernelQueue;
    RunsEnd(s, n, t);
    RunsKeep(s, n, t);
    if !t.exited && t.queue != [] {
      assert KernelEvent(t.queue[0]) by { QueueHead(t.queue); }
      var u := CanStep(t);
    }
  }

  lemma QueueHead(q: seq<Event>)
    requires KernelQueue(q) && q != []
    ensures KernelEvent(q[0])
  {
  }

  lemma {:induction false} RunsKeep(s: Sys, n: nat, t: Sys)
    requires RootsOk(s.fs) && WatchesOk(s.watch) && KernelQueue(s.queue) && Runs(s, n, t)
    ensures t.exited || (RootsOk(t.fs) && WatchesOk(t.watch) && KernelQueue(t.queue))
    decreases n
  {
    hide Step, RootsOk, WatchesOk, Measure, KernelQueue;
    if n > 0 {
      var u :| Step(s, u) && Runs(u, n - 1, t);
      StepLess(s, u);
      StepQueue(s, u);
      if u.exited {
        ExitedStays(u, n - 1, t);
      } else {
        RunsKeep(u, n - 1, t);
      }
    }
  }

  /** In particular there is a run that handles them all. */
  lemma {:induction false} EveryQueueDrains(s: Sys) returns (n: nat, s': Sys)
    requires RootsOk(s.fs) && WatchesOk(s.watch) && KernelQueue(s.queue)
    ensures Drains(s, n, s')
    decreases Measure(s)
  {
    hide Step, RootsOk, WatchesOk, KernelQueue, Measure;
    if s.exited || s.queue == [] {
      n, s' := 0, s;
    } else {
      QueueHead(s.queue);
      var t := CanStep(s);
      StepLess(s, t);
      StepQueue(s, t);
      if t.exited {
        n, s' := 1, t;
        assert Drains(t, 0, t);
      } else {
        var k;
        k, s' := EveryQueueDrains(t);
        n := k + 1;
      }
    }
  }
}
