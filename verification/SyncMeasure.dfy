/** Handling events comes to an end, whatever the events, the answers of the kernel and the cache. */
module SyncMeasure {
  import opened Basics
  import opened Paths
  import opened DirTree
  import opened Monitor
  import opened Sync
  import opened SyncRun

  /** An event that a watch is gone counts 1, any other `k`. */
  function Weight(q: seq<Event>, k: nat): nat {
    if q == [] then 0 else (if q[0].mask == IN_IGNORED then 1 else k) + Weight(q[1..], k)
  }

  /** A walk adds at most as many watches as there are directories, and each watch removed adds one event. */
  function Measure(s: Sys): nat {
    if s.exited then 0 else Weight(s.queue, |s.fs.tree| + 1) + |s.watch|
  }

  lemma {:induction false} WeightAppend(a: seq<Event>, b: seq<Event>, k: nat)
    ensures Weight(a + b, k) == Weight(a, k) + Weight(b, k)
  {
    if a == [] {
      assert a + b == b;
    } else {
      assert (a + b)[1..] == a[1..] + b;
      WeightAppend(a[1..], b, k);
    }
  }

  lemma {:induction false} WeightIgnored(q: seq<Event>, k: nat)
    requires AllIgnored(q)
    ensures Weight(q, k) == |q|
  {
    if q != [] {
      WeightIgnored(q[1..], k);
    }
  }

  lemma WeightDrop(q: seq<Event>, n: nat, k: nat)
    requires 1 <= n <= |q|
    ensures Weight(q[n..], k) + (if q[0].mask == IN_IGNORED then 1 else k) <= Weight(q, k)
  {
    assert q == q[..n] + q[n..] && q[..n][0] == q[0];
    WeightAppend(q[..n], q[n..], k);
  }

  // ----- counting watches -----

  lemma Pick<T>(s: set<T>) returns (x: T)
    requires s != {}
    ensures x in s
  {
    x :| x in s;
  }

  lemma {:induction false} InjectiveKeys(m: Watches, keys: set<int>, dirs: set<Inode>)
    requires keys <= m.Keys
    requires forall w1, w2 :: w1 in keys && w2 in keys && m[w1] == m[w2] ==> w1 == w2
    requires forall wd :: wd in keys ==> m[wd] in dirs
    ensures |keys| <= |dirs|
    decreases |keys|
  {
    if keys != {} {
      var wd := Pick(keys);
      InjectiveKeys(m, keys - {wd}, dirs - {m[wd]});
    }
  }

  lemma InjectiveSize(m: Watches, dirs: set<Inode>)
    requires forall w1, w2 :: w1 in m && w2 in m && m[w1] == m[w2] ==> w1 == w2
    requires forall wd :: wd in m ==> m[wd] in dirs
    ensures |m| <= |dirs|
  {
    InjectiveKeys(m, m.Keys, dirs);
  }

  lemma WalkSize(fs: Forest, watch: Watches, p: string, w: Walk, watch': Watches)
    requires RootsOk(fs) && IsWalk(fs, watch, p, w, watch')
    ensures |watch'| <= |watch| + |fs.tree|
  {
    hide Loc, RootsOk, AtOrBelow;
    var new' := watch' - watch.Keys;
    forall wd | wd in watch.Keys
      ensures wd in watch'.Keys
    {
      assert wd in watch;
    }
    forall wd | wd in new'
      ensures new'[wd] in fs.tree.Keys
    {
      var v :| v in w && v.wd == wd;
      LocInTree(fs, watch'[v.wd], v.path);
    }
    assert forall wd :: wd in new' ==> wd in watch' && new'[wd] == watch'[wd];
    assert forall w1, w2 :: w1 in new' && w2 in new' && new'[w1] == new'[w2] ==> w1 == w2;
    hide IsWalk;
    InjectiveSize(new', fs.tree.Keys);
    SplitSize(watch', watch.Keys);
  }

  lemma SplitSize(m: Watches, keys: set<int>)
    requires keys <= m.Keys
    ensures |m| == |keys| + |m - keys|
  {
    var rest := (m - keys).Keys;
    assert rest == m.Keys - keys;
    assert m.Keys == keys + rest && keys * rest == {};
  }

  lemma AnewSize(fs: Forest, roots: seq<Option<string>>, walks: seq<Walk>, watch: Watches, selfWds: set<int>)
    requires RootsOk(fs) && |walks| == |roots| && BuildsAnew(fs, roots, walks, watch, selfWds)
    ensures |watch| <= |fs.tree| && WatchesOk(watch)
  {
    hide Loc, RootsOk, AtOrBelow;
    forall wd | wd in watch
      ensures watch[wd] in fs.tree.Keys
    {
      var j, v :| 0 <= j < |roots| && roots[j].Some? && v in walks[j] && v.wd == wd;
      LocInTree(fs, watch[v.wd], v.path);
    }
    InjectiveSize(watch, fs.tree.Keys);
  }

  lemma RemovedSize(watch: Watches, watch': Watches, ign: seq<Event>)
    requires watch'.Keys <= watch.Keys && Ignored(ign, watch.Keys - watch'.Keys)
    ensures |watch'| + |ign| == |watch|
  {
    SplitSize(watch, watch'.Keys);
    assert (watch - watch'.Keys).Keys == watch.Keys - watch'.Keys;
  }

  // ----- one step -----

  lemma IgnoredHead(s: Sys)
    requires s.queue != [] && KernelEvent(s.queue[0]) && s.queue[0].mask == IN_IGNORED
    ensures Decide(s.mon, s.queue[0], Next(s.queue), false) == Skip
  {
  }

  ghost predicate Less(s: Sys, t: Sys) {
    Measure(t) < Measure(s) && (!t.exited ==> t.fs == s.fs && WatchesOk(t.watch))
  }

  lemma StepDone(s: Sys, ans: Answer, ign: seq<Event>, t: Sys)
    requires !s.exited && s.queue != [] && KernelEvent(s.queue[0]) && |ans.rebuild| == |s.mon.roots|
    requires StepWith(s, ans, ign, t) && RootsOk(s.fs) && WatchesOk(s.watch)
    requires Handle(s.mon, s.queue[0], Next(s.queue), false, ans).outcome.Done?
    ensures Less(s, t)
  {
    hide Handle, Decide, RootsOk, Weight, WatchesOk, Replies, StepWith, KernelEvent;
    var a := Decide(s.mon, s.queue[0], Next(s.queue), false);
    var n, k := Handle(s.mon, s.queue[0], Next(s.queue), false, ans).outcome.events, |s.fs.tree| + 1;
    StepParts(s, ans, ign, t);
    HandledSome(s, ans);
    if s.queue[0].mask == IN_IGNORED {
      IgnoredHead(s);
    }
    WeightDrop(s.queue, n, k);
    WeightAppend(s.queue[n..], ign, k);
    DoneWatches(s, a, ans, ign, t);
  }

  lemma StepParts(s: Sys, ans: Answer, ign: seq<Event>, t: Sys)
    requires !s.exited && s.queue != [] && KernelEvent(s.queue[0]) && |ans.rebuild| == |s.mon.roots|
    requires StepWith(s, ans, ign, t)
    requires Handle(s.mon, s.queue[0], Next(s.queue), false, ans).outcome.Done?
    ensures var n := Handle(s.mon, s.queue[0], Next(s.queue), false, ans).outcome.events;
            && n <= |s.queue| && t.queue == s.queue[n..] + ign && t.fs == s.fs && !t.exited
            && Replies(s, Decide(s.mon, s.queue[0], Next(s.queue), false), ans, ign, t)
  {
    hide Handle, Decide, Replies;
  }

  lemma HandledSome(s: Sys, ans: Answer)
    requires s.queue != [] && KernelEvent(s.queue[0]) && |ans.rebuild| == |s.mon.roots|
    ensures var o := Handle(s.mon, s.queue[0], Next(s.queue), false, ans).outcome; o.Done? ==> o.events >= 1
  {
    hide Decide, ZapFails, NoRoots, Strike, BuildCache;
  }

  /** What the actions that go on do to the watches. */
  lemma DoneWatches(s: Sys, a: Action, ans: Answer, ign: seq<Event>, t: Sys)
    requires Replies(s, a, ans, ign, t) && RootsOk(s.fs) && WatchesOk(s.watch)
    ensures WatchesOk(t.watch)
    ensures a.Skip? ==> t.watch == s.watch && Weight(ign, |s.fs.tree| + 1) == 0
    ensures Weight(ign, |s.fs.tree| + 1) + |t.watch| <= |s.watch| + |s.fs.tree|
  {
    if a.Watch? {
      hide RootsOk;
      WalkSize(s.fs, s.watch, a.path, ans.walk, t.watch);
    } else if a.Zap? || a.ZapRoot? {
      hide RootsOk;
      RemovedSize(s.watch, t.watch, ign);
      WeightIgnored(ign, |s.fs.tree| + 1);
    }
  }

  lemma StepLess(s: Sys, t: Sys)
    requires Step(s, t) && RootsOk(s.fs) && WatchesOk(s.watch)
    ensures Less(s, t)
  {
    hide RootsOk, WatchesOk, BuildsAnew, Replies, Handle, Decide;
    var ans, ign :| StepWith(s, ans, ign, t);
    var r := Handle(s.mon, s.queue[0], Next(s.queue), false, ans);
    if r.outcome.Done? {
      StepDone(s, ans, ign, t);
    } else {
      NotIgnored(s, ans);
      if r.outcome == Rebuilt {
        AnewSize(s.fs, r.mon.roots, ans.rebuild, t.watch, t.selfWds);
      }
    }
  }

  lemma NotIgnored(s: Sys, ans: Answer)
    requires s.queue != [] && KernelEvent(s.queue[0]) && |ans.rebuild| == |s.mon.roots|
    requires !Handle(s.mon, s.queue[0], Next(s.queue), false, ans).outcome.Done?
    ensures s.queue[0].mask != IN_IGNORED && Weight(s.queue, |s.fs.tree| + 1) > |s.fs.tree|
  {
    if s.queue[0].mask == IN_IGNORED {
      IgnoredHead(s);
    }
  }

  // ----- whole runs -----

  /** `n` steps lead from `s` to `t`. */
  ghost predicate Runs(s: Sys, n: nat, t: Sys)
    decreases n
  {
    if n == 0 then t == s else exists u :: Step(s, u) && Runs(u, n - 1, t)
  }

  /** Every sequence of steps ends, after at most so many: one for each pending event that a watch is gone,
      one more than there are directories for each other event, and one for each watch. */
  lemma {:induction false} RunsEnd(s: Sys, n: nat, t: Sys)
    requires Runs(s, n, t) && RootsOk(s.fs) && WatchesOk(s.watch)
    ensures n + Measure(t) <= Measure(s)
    decreases n
  {
    hide Step, RootsOk, WatchesOk, Measure;
    if n > 0 {
      var u :| Step(s, u) && Runs(u, n - 1, t);
      StepLess(s, u);
      if u.exited {
        ExitedStays(u, n - 1, t);
      } else {
        RunsEnd(u, n - 1, t);
      }
    }
  }

  lemma ExitedStays(s: Sys, n: nat, t: Sys)
    requires s.exited && Runs(s, n, t)
    ensures n == 0 && t == s
  {
  }
}
