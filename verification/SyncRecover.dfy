/** Events that show the cache to be wrong, and events of a file system that is unmounted. */
module SyncRecover {
  import opened Basics
  import opened Paths
  import opened DirTree
  import opened Monitor
  import opened Sync
  import opened SyncRun
  import opened SyncProgress

  /** The event at the head of the queue shows that the cache is not in step: events were lost, it names a
      watch that is not cached, its second half does, or a watch that should go is not there. */
  ghost predicate Astray(s: Sys) {
    && s.queue != []
    && var ev, c := s.queue[0], s.mon.cache;
       || ev.mask == IN_Q_OVERFLOW
       || (ev.wd != -1 && !Has(ev.mask, IN_IGNORED) && ev.wd !in c)
       || (&& ev.mask == IN_MOVED_FROM + IN_ISDIR && ev.wd in c
           && if |s.queue| > 1 && Has(s.queue[1].mask, IN_MOVED_TO) && s.queue[1].cookie == ev.cookie then s.queue[1].wd !in c
              else exists wd :: wd in c && AtOrBelow(Child(c[ev.wd], ev.name), c[wd]) && wd !in s.watch)
  }

  lemma OverflowRebuilds(m: Mon, ev: Event, next: Option<Event>)
    requires ev.mask == IN_Q_OVERFLOW && KernelEvent(ev)
    ensures Decide(m, ev, next, false) == Action.Rebuild
  {
  }

  lemma StepRebuilds(s: Sys, t: Sys) returns (walks: seq<Walk>)
    requires Step(s, t) && Astray(s)
    ensures |walks| == |s.mon.roots| && BuildsAnew(s.fs, s.mon.roots, walks, t.watch, t.selfWds)
    ensures t == Sys(s.fs, t.watch, t.selfWds, Mon(BuildCache(s.mon.roots, walks, |s.mon.roots|), s.mon.roots), [], false)
  {
    var ev, c := s.queue[0], s.mon.cache;
    var ans, ign :| StepWith(s, ans, ign, t);
    walks := ans.rebuild;
    if ev.mask == IN_Q_OVERFLOW {
      OverflowRebuilds(s.mon, ev, Next(s.queue));
    } else if ev.mask == IN_MOVED_FROM + IN_ISDIR && ev.wd in c {
      DecideFrom(s.mon, ev.wd, ev.cookie, ev.name, Next(s.queue), false);
      assert ev == Event(ev.wd, ev.mask, ev.cookie, ev.name);
    }
    hide BuildsAnew, BuildCache, AtOrBelow, Has;
  }

  /** Whatever the cache and the watches were, handling such an event builds both anew and brings them into
      step with the directory trees; the events still queued are dropped. */
  lemma RecoverTheorem(s: Sys, t: Sys)
    requires Step(s, t) && Astray(s)
    requires ForestOk(s.fs) && AllRooted(s.fs.tree) && s.fs.roots != map[] && RootsAgree(s.fs.roots, s.mon.roots)
    ensures Synced(t) && t.fs == s.fs && t.queue == []
  {
    hide Step, Astray, ForestOk, AllRooted, RootsAgree, InStep, BuildsAnew, BuildCache;
    var walks := StepRebuilds(s, t);
    RebuildInStep(s.fs, s.mon.roots, walks, t.watch, t.selfWds);
  }

  // ----- unmounting -----

  /** The kernel reports each watch it drops. */
  function Unmounts(wds: seq<int>): seq<Event> {
    if wds == [] then []
    else [Event(wds[0], IN_UNMOUNT, 0, ""), Event(wds[0], IN_IGNORED, 0, "")] + Unmounts(wds[1..])
  }

  lemma DecideUnmount(m: Mon, wd: int, next: Option<Event>)
    requires wd >= 0 && wd in m.cache
    ensures var ev := Event(wd, IN_UNMOUNT, 0, "");
            KernelEvent(ev) && Decide(m, ev, next, false) == Drop(wd) && !StrikesRoot(m, ev)
  {
  }

  /** When a file system is unmounted exactly the entries of its directories leave the cache, in whatever
      order they are reported; even a root directory on it stays listed. */
  lemma {:induction false} UnmountTheorem(s: Sys, wds: seq<int>, n: nat, s': Sys)
    requires !s.exited && s.queue == Unmounts(wds) && Drains(s, n, s')
    requires forall i :: 0 <= i < |wds| ==> wds[i] >= 0 && wds[i] in s.mon.cache
    requires forall i, j :: 0 <= i < j < |wds| ==> wds[i] != wds[j]
    ensures s' == s.(mon := s.mon.(cache := s.mon.cache - set wd | wd in wds), queue := [])
    decreases |wds|
  {
    hide Drains, Step, Decide;
    if wds == [] {
      DrainEnd(s, n, s');
      assert s.mon.cache - {} == s.mon.cache;
    } else {
      DecideUnmount(s.mon, wds[0], Next(s.queue));
      var t := DrainStep(s, n, s');
      StepDrop(s, t, wds[0]);
      IgnoredSkips(t);
      var u := DrainStep(t, n - 1, s');
      StepSkip(t, u);
      UnmountTheorem(u, wds[1..], n - 2, s');
      assert s.mon.cache - {wds[0]} - (set wd | wd in wds[1..]) == s.mon.cache - set wd | wd in wds;
    }
  }
}
