/** The cache of watched directories as `inotify_dtree.c` keeps it: a growable array of slots that is
    searched linearly and overwritten in place, and the list of root pathnames. */
module WatchCache {
  import opened Basics
  import opened Paths
  import opened Monitor

  /** A slot with watch descriptor -1 is unused. */
  datatype Slot = Slot(wd: int, path: string)

  const EMPTY := Slot(-1, "")
  const ALLOC_INCR := 200

  // ----- what a slot array stands for -----

  ghost predicate SlotsOk(slots: seq<Slot>) {
    && (forall j :: 0 <= j < |slots| ==> slots[j].wd >= 0 || slots[j] == EMPTY)
    && (forall i, j :: 0 <= i < j < |slots| && slots[i].wd >= 0 ==> slots[i].wd != slots[j].wd)
  }

  ghost predicate UsedAt(slots: seq<Slot>, wd: int, j: int) {
    0 <= j < |slots| && slots[j].wd == wd && wd >= 0
  }

  ghost function Wds(slots: seq<Slot>): set<int> {
    set j | 0 <= j < |slots| && slots[j].wd >= 0 :: slots[j].wd
  }

  ghost function PathOf(slots: seq<Slot>, wd: int): string
    requires wd in Wds(slots)
  {
    var k :| 0 <= k < |slots| && slots[k].wd >= 0 && slots[k].wd == wd;
    slots[k].path
  }

  ghost function View(slots: seq<Slot>): Cache {
    map wd | wd in Wds(slots) :: PathOf(slots, wd)
  }

  lemma ViewAt(slots: seq<Slot>, j: int)
    requires SlotsOk(slots) && 0 <= j < |slots| && slots[j].wd >= 0
    ensures slots[j].wd in View(slots) && View(slots)[slots[j].wd] == slots[j].path
  {
    assert slots[j].wd in Wds(slots);
  }

  lemma ViewKey(slots: seq<Slot>, wd: int) returns (j: int)
    requires wd in View(slots)
    ensures UsedAt(slots, wd, j)
  {
    j :| 0 <= j < |slots| && slots[j].wd >= 0 && slots[j].wd == wd;
  }

  /** A map is the view when every used slot is in it and it has no other keys. */
  lemma ViewIs(slots: seq<Slot>, m: Cache)
    requires SlotsOk(slots)
    requires forall j :: 0 <= j < |slots| && slots[j].wd >= 0 ==> slots[j].wd in m && m[slots[j].wd] == slots[j].path
    requires forall wd :: wd in m ==> exists j :: UsedAt(slots, wd, j)
    ensures View(slots) == m
  {
    forall wd | wd in View(slots)
      ensures wd in m && m[wd] == View(slots)[wd]
    {
      var j := ViewKey(slots, wd);
      ViewAt(slots, j);
    }
    forall wd | wd in m
      ensures wd in View(slots)
    {
      var j :| UsedAt(slots, wd, j);
      ViewAt(slots, j);
    }
  }

  lemma ViewClear(slots: seq<Slot>, j: int)
    requires SlotsOk(slots) && 0 <= j < |slots| && slots[j].wd >= 0
    ensures SlotsOk(slots[j := EMPTY]) && View(slots[j := EMPTY]) == View(slots) - {slots[j].wd}
  {
    hide View;
    var s', m := slots[j := EMPTY], View(slots) - {slots[j].wd};
    forall i | 0 <= i < |s'| && s'[i].wd >= 0
      ensures s'[i].wd in m && m[s'[i].wd] == s'[i].path
    {
      ViewAt(slots, i);
    }
    forall wd | wd in m
      ensures exists i :: UsedAt(s', wd, i)
    {
      var i := ViewKey(slots, wd);
      assert UsedAt(s', wd, i);
    }
    ViewIs(s', m);
  }

  /** Writing a used slot: either an empty one with a new descriptor, or one that keeps its own. */
  lemma ViewSet(slots: seq<Slot>, j: int, wd: int, path: string)
    requires SlotsOk(slots) && 0 <= j < |slots| && wd >= 0
    requires slots[j].wd == wd || (slots[j] == EMPTY && wd !in View(slots))
    ensures SlotsOk(slots[j := Slot(wd, path)]) && View(slots[j := Slot(wd, path)]) == View(slots)[wd := path]
  {
    var s', m := slots[j := Slot(wd, path)], View(slots)[wd := path];
    forall i | 0 <= i < |slots| && slots[i].wd >= 0
      ensures slots[i].wd in View(slots) && View(slots)[slots[i].wd] == slots[i].path
    {
      ViewAt(slots, i);
    }
    hide View;
    assert SlotsOk(s');
    forall u | u in m
      ensures exists i :: UsedAt(s', u, i)
    {
      if u == wd {
        assert UsedAt(s', wd, j);
      } else {
        var i := ViewKey(slots, u);
        assert UsedAt(s', u, i);
      }
    }
    ViewIs(s', m);
  }

  lemma ViewGrow(slots: seq<Slot>, more: seq<Slot>)
    requires SlotsOk(slots) && forall j :: 0 <= j < |more| ==> more[j] == EMPTY
    ensures SlotsOk(slots + more) && View(slots + more) == View(slots)
  {
    hide View;
    var s' := slots + more;
    forall i | 0 <= i < |s'| && s'[i].wd >= 0
      ensures s'[i].wd in View(slots) && View(slots)[s'[i].wd] == s'[i].path
    {
      ViewAt(slots, i);
    }
    forall u | u in View(slots)
      ensures exists i :: UsedAt(s', u, i)
    {
      var i := ViewKey(slots, u);
      assert UsedAt(s', u, i);
    }
    ViewIs(s', View(slots));
  }

  lemma ViewEmpty()
    ensures SlotsOk([]) && View([]) == map[]
  {
  }

  lemma NoWd(slots: seq<Slot>, wd: int)
    requires forall j :: 0 <= j < |slots| ==> slots[j].wd != wd
    ensures wd !in View(slots)
  {
  }

  lemma NoPath(slots: seq<Slot>, path: string)
    requires SlotsOk(slots) && forall j :: 0 <= j < |slots| && slots[j].wd >= 0 ==> slots[j].path != path
    ensures !PathCached(View(slots), path)
  {
    hide View;
    forall wd | wd in View(slots)
      ensures View(slots)[wd] != path
    {
      var k := ViewKey(slots, wd);
      ViewAt(slots, k);
    }
  }

  // ----- root accounting -----

  /** How many roots have been struck from the list. */
  function Nulled(roots: seq<Option<string>>): nat {
    if roots == [] then 0 else (if roots[|roots| - 1].None? then 1 else 0) + Nulled(roots[..|roots| - 1])
  }

  lemma {:induction false} NulledBound(roots: seq<Option<string>>)
    ensures Nulled(roots) <= |roots|
    ensures Nulled(roots) == |roots| <==> NoRoots(roots)
  {
    if roots != [] {
      var n := |roots| - 1;
      NulledBound(roots[..n]);
      assert roots == roots[..n] + [roots[n]];
    }
  }

  lemma {:induction false} NulledUpdate(roots: seq<Option<string>>, k: nat)
    requires k < |roots| && roots[k].Some?
    ensures Nulled(roots[k := None]) == Nulled(roots) + 1
    decreases |roots|
  {
    var n := |roots| - 1;
    if k == n {
      assert roots[k := None][..n] == roots[..n];
    } else {
      assert roots[k := None][..n] == roots[..n][k := None];
      NulledUpdate(roots[..n], k);
    }
  }

  /** Striking is nulling the first match. */
  lemma {:induction false} StrikeAt(roots: seq<Option<string>>, path: string, k: nat)
    requires k < |roots| && roots[k] == Some(path) && forall i :: 0 <= i < k ==> roots[i] != Some(path)
    ensures Strike(roots, path) == roots[k := None]
  {
    if k > 0 {
      StrikeAt(roots[1..], path, k - 1);
    }
  }

  class Watcher {
    var wlCache: array<Slot>
    var rootDirPaths: array<Option<string>>
    var ignoreRootDirs: nat

    /** No two used slots share a descriptor, and `ignoreRootDirs` counts the roots struck. */
    ghost predicate Valid()
      reads this, wlCache, rootDirPaths
    {
      && wlCache as object != rootDirPaths as object
      && SlotsOk(wlCache[..]) && ignoreRootDirs == Nulled(rootDirPaths[..])
    }

    ghost function Abs(): Mon
      reads this, wlCache, rootDirPaths
    {
      Mon(View(wlCache[..]), rootDirPaths[..])
    }

    // ----- the slot array -----

    method FindWatch(wd: int) returns (slot: int)
      requires Valid() && wd >= 0
      ensures slot == -1 || 0 <= slot < wlCache.Length
      ensures slot >= 0 ==> wlCache[slot].wd == wd && wd in Abs().cache && Abs().cache[wd] == wlCache[slot].path
      ensures slot == -1 ==> wd !in Abs().cache
    {
      var j := 0;
      while j < wlCache.Length
        invariant 0 <= j <= wlCache.Length
        invariant forall i :: 0 <= i < j ==> wlCache[i].wd != wd
      {
        if wlCache[j].wd == wd {
          ViewAt(wlCache[..], j);
          return j;
        }
        j := j + 1;
      }
      NoWd(wlCache[..], wd);
      return -1;
    }

    method MarkCacheSlotEmpty(slot: nat)
      requires Valid() && slot < wlCache.Length && wlCache[slot].wd >= 0
      modifies wlCache
      ensures Valid() && wlCache[..] == old(wlCache[..])[slot := EMPTY]
      ensures Abs() == old(Abs()).(cache := old(Abs().cache) - {old(wlCache[slot].wd)})
    {
      ViewClear(wlCache[..], slot);
      wlCache[slot] := EMPTY;
      assert wlCache[..] == old(wlCache[..])[slot := EMPTY];
    }

    /** A free slot; the array grows by `ALLOC_INCR` slots when it is full, keeping all entries. */
    method FindEmptyCacheSlot() returns (slot: nat)
      requires Valid()
      modifies this`wlCache
      ensures Valid() && Abs() == old(Abs())
      ensures slot < wlCache.Length && wlCache[slot] == EMPTY
      ensures wlCache == old(wlCache) || (fresh(wlCache) && wlCache.Length == old(wlCache.Length) + ALLOC_INCR)
      ensures wlCache[..old(wlCache.Length)] == old(wlCache[..])
    {
      var j := 0;
      while j < wlCache.Length
        invariant 0 <= j <= wlCache.Length
      {
        if wlCache[j].wd == -1 {
          return j;
        }
        j := j + 1;
      }
      var size := wlCache.Length;
      var grown := new Slot[size + ALLOC_INCR](i requires 0 <= i < size + ALLOC_INCR reads this, wlCache =>
        if i < wlCache.Length then wlCache[i] else EMPTY);
      assert grown[..] == wlCache[..] + grown[size..];
      ViewGrow(wlCache[..], grown[size..]);
      wlCache := grown;
      return size;
    }

    method AddWatchToCache(wd: int, pathname: string) returns (slot: nat)
      requires Valid() && wd >= 0 && wd !in Abs().cache
      modifies this`wlCache, wlCache
      ensures Valid() && Abs() == old(Abs()).(cache := old(Abs().cache)[wd := pathname])
      ensures slot < wlCache.Length && wlCache[slot] == Slot(wd, pathname)
      ensures wlCache == old(wlCache) || fresh(wlCache)
    {
      slot := FindEmptyCacheSlot();
      ghost var before := wlCache[..];
      ViewSet(before, slot, wd, pathname);
      wlCache[slot] := Slot(wd, pathname);
      assert wlCache[..] == before[slot := Slot(wd, pathname)];
    }

    method PathnameToCacheSlot(pathname: string) returns (slot: int)
      requires Valid()
      ensures slot == -1 || 0 <= slot < wlCache.Length
      ensures slot >= 0 ==> wlCache[slot].wd >= 0 && wlCache[slot].path == pathname
      ensures slot >= 0 <==> PathCached(Abs().cache, pathname)
    {
      var j := 0;
      while j < wlCache.Length
        invariant 0 <= j <= wlCache.Length
        invariant forall i :: 0 <= i < j && wlCache[i].wd >= 0 ==> wlCache[i].path != pathname
      {
        if wlCache[j].wd >= 0 && wlCache[j].path == pathname {
          ViewAt(wlCache[..], j);
          return j;
        }
        j := j + 1;
      }
      NoPath(wlCache[..], pathname);
      return -1;
    }

    // ----- walks -----

    /** `traverseTree` on one directory met by the walk; `v.wd` is what `inotify_add_watch` returned. */
    method TraverseTree(v: Visit) returns (added: nat)
      requires Valid() && v.wd >= -1
      modifies this`wlCache, wlCache
      ensures Valid() && Abs() == old(Abs()).(cache := AddVisit(old(Abs().cache), v))
      ensures added == |Abs().cache| - |old(Abs().cache)|
      ensures wlCache == old(wlCache) || fresh(wlCache)
    {
      if v.wd == -1 {
        return 0;
      }
      var slot := FindWatch(v.wd);
      if slot >= 0 {
        return 0;
      }
      slot := AddWatchToCache(v.wd, v.path);
      return 1;
    }

    /** `watchDir`: the whole walk; the result is the number of cache entries added. */
    method WatchDir(walk: Walk) returns (dirCnt: nat)
      requires Valid() && forall i :: 0 <= i < |walk| ==> walk[i].wd >= -1
      modifies this`wlCache, wlCache
      ensures Valid() && Abs() == old(Abs()).(cache := AddWalk(old(Abs().cache), walk))
      ensures dirCnt == |Abs().cache| - |old(Abs().cache)|
      ensures wlCache == old(wlCache) || fresh(wlCache)
    {
      hide View, Nulled, SlotsOk, AddVisit;
      dirCnt := 0;
      var i := 0;
      assert walk[..0] == [];
      while i < |walk|
        invariant 0 <= i <= |walk|
        invariant Valid() && Abs() == old(Abs()).(cache := AddWalk(old(Abs().cache), walk[..i]))
        invariant dirCnt == |Abs().cache| - |old(Abs().cache)|
        invariant wlCache == old(wlCache) || fresh(wlCache)
      {
        var added := TraverseTree(walk[i]);
        assert walk[..i + 1][..i] == walk[..i];
        dirCnt := dirCnt + added;
        i := i + 1;
      }
      assert walk[..i] == walk;
    }

    /** `reinitialize`: the cache is dropped and built again from the walks of the listed roots. */
    method Reinitialize(walks: seq<Walk>)
      requires Valid() && |walks| == rootDirPaths.Length
      requires forall j, i :: 0 <= j < |walks| && 0 <= i < |walks[j]| ==> walks[j][i].wd >= -1
      modifies this`wlCache, wlCache
      ensures Valid() && Abs() == Reinitialized(old(Abs()), walks)
      ensures fresh(wlCache)
    {
      hide View, Nulled, SlotsOk, AddWalk;
      wlCache := new Slot[0];
      ViewEmpty();
      assert wlCache[..] == [];
      var j := 0;
      while j < rootDirPaths.Length
        invariant 0 <= j <= rootDirPaths.Length
        invariant Valid() && fresh(wlCache)
        invariant Abs() == old(Abs()).(cache := BuildCache(old(rootDirPaths[..]), walks, j))
      {
        if rootDirPaths[j].Some? {
          var n := WatchDir(walks[j]);
        }
        j := j + 1;
      }
    }

    // ----- renaming and zapping -----

    /** `rewriteCachedPaths`: the slots of the renamed directory and of all below it, in one pass. */
    method RewriteCachedPaths(oldPathPrefix: string, oldName: string, newPathPrefix: string, newName: string)
      requires Valid()
      modifies wlCache
      ensures Valid()
      ensures Abs() == old(Abs()).(cache := RenameCached(old(Abs().cache), Child(oldPathPrefix, oldName), Child(newPathPrefix, newName)))
      ensures forall j :: 0 <= j < wlCache.Length ==> wlCache[j].wd == old(wlCache[j].wd)
    {
      var fullPath, newPrefix := Child(oldPathPrefix, oldName), Child(newPathPrefix, newName);
      var j := 0;
      while j < wlCache.Length
        invariant 0 <= j <= wlCache.Length
        invariant forall i :: 0 <= i < j ==>
                    wlCache[i] == Slot(old(wlCache[i].wd), Rewrite(fullPath, newPrefix, old(wlCache[i].path)))
        invariant forall i :: j <= i < wlCache.Length ==> wlCache[i] == old(wlCache[i])
      {
        if AtOrBelow(fullPath, wlCache[j].path) {
          var newPath := newPrefix + wlCache[j].path[|fullPath|..];
          wlCache[j] := Slot(wlCache[j].wd, newPath);
        }
        j := j + 1;
      }
      ViewRenamed(old(wlCache[..]), wlCache[..], fullPath, newPrefix);
    }

    /** `zapSubtree`: removes the watch and the slot of every entry at or below `path`, and returns
        their number; it gives up with -1 as soon as a watch cannot be removed. */
    method ZapSubtree(path: string, rmFails: set<int>) returns (cnt: int)
      requires Valid()
      modifies wlCache
      ensures Valid() && Abs().roots == old(Abs().roots)
      ensures cnt >= -1
      ensures cnt == -1 <==> ZapFails(old(Abs().cache), path, rmFails)
      ensures cnt >= 0 ==>
                && Abs() == old(Abs()).(cache := ZapCached(old(Abs().cache), path))
                && cnt == |old(Abs().cache)| - |Abs().cache|
    {
      hide View, Nulled, ZapFails;
      cnt := 0;
      var j := 0;
      while j < wlCache.Length
        invariant 0 <= j <= wlCache.Length && Valid() && Abs().roots == old(Abs().roots)
        invariant forall i :: 0 <= i < wlCache.Length ==>
                    wlCache[i] == if i < j && Doomed(old(wlCache[i]), path) then EMPTY else old(wlCache[i])
        invariant forall i :: 0 <= i < j && Doomed(old(wlCache[i]), path) ==> old(wlCache[i].wd) !in rmFails
        invariant cnt == |old(Abs().cache)| - |Abs().cache| && cnt >= 0
      {
        if Doomed(wlCache[j], path) {
          if wlCache[j].wd in rmFails {
            ZapFailsAt(old(wlCache[..]), j, path, rmFails);
            return -1;
          }
          ViewAt(wlCache[..], j);
          MarkCacheSlotEmpty(j);
          cnt := cnt + 1;
        }
        j := j + 1;
      }
      ViewZapped(old(wlCache[..]), wlCache[..], path);
      ZapSucceeds(old(wlCache[..]), path, rmFails);
    }

    // ----- root pathnames -----

    method FindRootDirPath(path: string) returns (k: int)
      ensures k == -1 || 0 <= k < rootDirPaths.Length
      ensures k >= 0 ==> rootDirPaths[k] == Some(path) && forall i :: 0 <= i < k ==> rootDirPaths[i] != Some(path)
      ensures k >= 0 <==> Some(path) in rootDirPaths[..]
    {
      k := 0;
      while k < rootDirPaths.Length
        invariant 0 <= k <= rootDirPaths.Length
        invariant forall i :: 0 <= i < k ==> rootDirPaths[i] != Some(path)
      {
        if rootDirPaths[k] == Some(path) {
          assert rootDirPaths[..][k] == Some(path);
          return k;
        }
        k := k + 1;
      }
      return -1;
    }

    /** `zapRootDirPath`: strikes a root; `last` says that none is left, which ends the program. */
    method ZapRootDirPath(path: string) returns (last: bool)
      requires Valid() && IsRoot(Abs(), path)
      modifies this`ignoreRootDirs, rootDirPaths
      ensures Valid() && Abs() == old(Abs()).(roots := Strike(old(Abs().roots), path))
      ensures last <==> NoRoots(Abs().roots)
      ensures ignoreRootDirs == old(ignoreRootDirs) + 1
    {
      var k := FindRootDirPath(path);
      StrikeAt(rootDirPaths[..], path, k);
      NulledUpdate(rootDirPaths[..], k);
      rootDirPaths[k] := None;
      assert rootDirPaths[..] == old(rootDirPaths[..])[k := None];
      ignoreRootDirs := ignoreRootDirs + 1;
      NulledBound(rootDirPaths[..]);
      last := ignoreRootDirs == rootDirPaths.Length;
    }

    // ----- one event -----

    /** Zapping a subtree, with the rebuild that follows when a watch cannot be removed. */
    method ZapOrRebuild(path: string, ans: Answer) returns (outcome: Outcome)
      requires Valid() && AnswerOk(ans, rootDirPaths.Length)
      modifies this`wlCache, wlCache
      ensures Valid() && Result(Abs(), outcome) == ZapResult(old(Abs()), path, ans)
      ensures wlCache == old(wlCache) || fresh(wlCache)
    {
      hide View, Nulled, ZapFails, SlotsOk, ZapCached;
      var cnt := ZapSubtree(path, ans.rmFails);
      if cnt == -1 {
        Reinitialize(ans.rebuild);
        return Rebuilt;
      }
      return Done(1);
    }

    /** A deleted directory. */
    method DeleteSelf(ev: Event, slot: nat) returns (outcome: Outcome)
      requires Valid() && slot < wlCache.Length && wlCache[slot].wd == ev.wd >= 0 && Has(ev.mask, IN_DELETE_SELF)
      requires ev.wd in Abs().cache && Abs().cache[ev.wd] == wlCache[slot].path
      modifies this`ignoreRootDirs, wlCache, rootDirPaths
      ensures Valid() && Result(Abs(), outcome) == DropResult(old(Abs()), ev)
    {
      hide View, Nulled, SlotsOk, Strike, NoRoots;
      var isRoot := FindRootDirPath(wlCache[slot].path);
      if isRoot >= 0 {
        var last := ZapRootDirPath(wlCache[slot].path);
        if last {
          return Exited;
        }
      }
      MarkCacheSlotEmpty(slot);
      return Done(1);
    }

    /** A root directory that moved. */
    method MoveSelf(path: string, ans: Answer) returns (outcome: Outcome)
      requires Valid() && IsRoot(Abs(), path) && AnswerOk(ans, rootDirPaths.Length)
      modifies this`wlCache, this`ignoreRootDirs, wlCache, rootDirPaths
      ensures Valid()
      ensures var m := old(Abs()).(roots := Strike(old(Abs().roots), path));
              Result(Abs(), outcome) == if NoRoots(m.roots) then Result(m, Exited) else ZapResult(m, path, ans)
      ensures wlCache == old(wlCache) || fresh(wlCache)
    {
      hide View, Nulled, SlotsOk, Strike, NoRoots, ZapResult;
      var last := ZapRootDirPath(path);
      if last {
        return Exited;
      }
      outcome := ZapOrRebuild(path, ans);
    }

    /** A directory moved away; `slot` is that of the directory that held it. */
    method MovedFrom(ev: Event, slot: nat, next: Option<Event>, firstTry: bool, ans: Answer) returns (outcome: Outcome)
      requires Valid() && slot < wlCache.Length && wlCache[slot].wd == ev.wd >= 0 && AnswerOk(ans, rootDirPaths.Length)
      requires ev.wd in Abs().cache && Abs().cache[ev.wd] == wlCache[slot].path
      requires MovedOn(ev, next) ==> next.value.wd >= 0
      modifies this`wlCache, wlCache
      ensures Valid() && Result(Abs(), outcome) == FromResult(old(Abs()), ev, next, firstTry, ans)
      ensures wlCache == old(wlCache) || fresh(wlCache)
    {
      hide View, Nulled, ZapResult, SlotsOk, BuildCache, RenameCached, Has;
      if next.Some? && Has(next.value.mask, IN_MOVED_TO) && next.value.cookie == ev.cookie {
        var nextEvCacheSlot := FindWatch(next.value.wd);
        if nextEvCacheSlot == -1 {
          Reinitialize(ans.rebuild);
          return Rebuilt;
        }
        RewriteCachedPaths(wlCache[slot].path, ev.name, wlCache[nextEvCacheSlot].path, next.value.name);
        return Done(2);
      } else if next.Some? || !firstTry {
        outcome := ZapOrRebuild(Child(wlCache[slot].path, ev.name), ans);
      } else {
        return Deferred;
      }
    }

    /** The branches of `processNextInotifyEvent` on a decoded event; `next` is the event after it in
        the buffer. */
    method HandleEvent(ev: Event, next: Option<Event>, firstTry: bool, ans: Answer) returns (outcome: Outcome)
      requires Valid() && KernelEvent(ev) && (next.Some? ==> KernelEvent(next.value)) && AnswerOk(ans, rootDirPaths.Length)
      modifies this`wlCache, this`ignoreRootDirs, wlCache, rootDirPaths
      ensures Valid() && Result(Abs(), outcome) == Handle(old(Abs()), ev, next, firstTry, ans)
      ensures wlCache == old(wlCache) || fresh(wlCache)
    {
      hide View, Nulled, PathCached, ZapResult, DropResult, AddWalk, SlotsOk, NoRoots, Strike, BuildCache, RenameCached, Has, FromResult, Handle, Decide;
      HandleCases(Abs(), ev, next, firstTry, ans);
      NoSlot(ev);
      if next.Some? {
        NoSlot(next.value);
      }
      var evCacheSlot := -1;
      if ev.wd != -1 && !Has(ev.mask, IN_IGNORED) {
        evCacheSlot := FindWatch(ev.wd);
        if evCacheSlot == -1 {
          Reinitialize(ans.rebuild);
          return Rebuilt;
        }
      }
      if Has(ev.mask, IN_ISDIR) && (Has(ev.mask, IN_CREATE) || Has(ev.mask, IN_MOVED_TO)) {
        var cached := PathnameToCacheSlot(Child(wlCache[evCacheSlot].path, ev.name));
        if cached == -1 {
          var n := WatchDir(ans.walk);
        }
      } else if Has(ev.mask, IN_DELETE_SELF) {
        outcome := DeleteSelf(ev, evCacheSlot);
        return;
      } else if Has(ev.mask, IN_MOVED_FROM) && Has(ev.mask, IN_ISDIR) {
        outcome := MovedFrom(ev, evCacheSlot, next, firstTry, ans);
        return;
      } else if Has(ev.mask, IN_Q_OVERFLOW) {
        Reinitialize(ans.rebuild);
        return Rebuilt;
      } else if Has(ev.mask, IN_UNMOUNT) {
        MarkCacheSlotEmpty(evCacheSlot);
      } else if Has(ev.mask, IN_MOVE_SELF) {
        var isRoot := FindRootDirPath(wlCache[evCacheSlot].path);
        if isRoot >= 0 {
          outcome := MoveSelf(wlCache[evCacheSlot].path, ans);
          return;
        }
      }
      return Done(1);
    }
  }

  /** The result of the "moved from" branch. */
  function FromResult(m: Mon, ev: Event, next: Option<Event>, firstTry: bool, ans: Answer): Result
    requires ev.wd in m.cache && |ans.rebuild| == |m.roots|
  {
    var path := Child(m.cache[ev.wd], ev.name);
    if MovedOn(ev, next) then
      if next.value.wd !in m.cache then Result(Reinitialized(m, ans.rebuild), Rebuilt)
      else Result(m.(cache := RenameCached(m.cache, path, Child(m.cache[next.value.wd], next.value.name))), Done(2))
    else if next.Some? || !firstTry then ZapResult(m, path, ans)
    else Result(m, Deferred)
  }

  /** The cases of `Handle`, in the order in which the program tests them. */
  lemma HandleCases(m: Mon, ev: Event, next: Option<Event>, firstTry: bool, ans: Answer)
    requires KernelEvent(ev) && |ans.rebuild| == |m.roots|
    ensures var h := Handle(m, ev, next, firstTry, ans);
            if ev.wd != -1 && !Has(ev.mask, IN_IGNORED) && ev.wd !in m.cache then
              h == Result(Reinitialized(m, ans.rebuild), Rebuilt)
            else if Has(ev.mask, IN_ISDIR) && (Has(ev.mask, IN_CREATE) || Has(ev.mask, IN_MOVED_TO)) then
              h == Result(if PathCached(m.cache, Child(m.cache[ev.wd], ev.name)) then m
                          else m.(cache := AddWalk(m.cache, ans.walk)), Done(1))
            else if Has(ev.mask, IN_DELETE_SELF) then h == DropResult(m, ev)
            else if Has(ev.mask, IN_MOVED_FROM) && Has(ev.mask, IN_ISDIR) then h == FromResult(m, ev, next, firstTry, ans)
            else if Has(ev.mask, IN_Q_OVERFLOW) then h == Result(Reinitialized(m, ans.rebuild), Rebuilt)
            else if Has(ev.mask, IN_UNMOUNT) then h == Result(m.(cache := m.cache - {ev.wd}), Done(1))
            else if Has(ev.mask, IN_MOVE_SELF) && IsRoot(m, m.cache[ev.wd]) then
              var m' := m.(roots := Strike(m.roots, m.cache[ev.wd]));
              h == if NoRoots(m'.roots) then Result(m', Exited) else ZapResult(m', m.cache[ev.wd], ans)
            else h == Result(m, Done(1))
  {
    hide Has, ZapResult, RenameCached, BuildCache, AddWalk, Strike, NoRoots, PathCached, KernelEvent;
  }

  /** Events that name no watch take none of the branches that use a slot. */
  lemma NoSlot(ev: Event)
    requires KernelEvent(ev)
    ensures ev.wd < 0 || Has(ev.mask, IN_IGNORED) ==>
              && !Has(ev.mask, IN_ISDIR) && !Has(ev.mask, IN_DELETE_SELF) && !Has(ev.mask, IN_UNMOUNT)
              && !Has(ev.mask, IN_MOVE_SELF) && !Has(ev.mask, IN_MOVED_TO)
    ensures ev.wd < 0 ==> ev.wd == -1
  {
  }

  /** What the kernel can answer: descriptors, or -1 for a directory that is gone. */
  predicate AnswerOk(ans: Answer, roots: nat) {
    && |ans.rebuild| == roots
    && (forall i :: 0 <= i < |ans.walk| ==> ans.walk[i].wd >= -1)
    && (forall j, i :: 0 <= j < |ans.rebuild| && 0 <= i < |ans.rebuild[j]| ==> ans.rebuild[j][i].wd >= -1)
  }

  predicate Doomed(slot: Slot, path: string) {
    slot.wd >= 0 && AtOrBelow(path, slot.path)
  }

  lemma ZapFailsAt(slots: seq<Slot>, j: nat, path: string, rmFails: set<int>)
    requires SlotsOk(slots) && j < |slots| && Doomed(slots[j], path) && slots[j].wd in rmFails
    ensures ZapFails(View(slots), path, rmFails)
  {
    ViewAt(slots, j);
  }

  lemma ZapSucceeds(slots: seq<Slot>, path: string, rmFails: set<int>)
    requires SlotsOk(slots) && forall i :: 0 <= i < |slots| && Doomed(slots[i], path) ==> slots[i].wd !in rmFails
    ensures !ZapFails(View(slots), path, rmFails)
  {
    hide View;
    if wd :| wd in View(slots) && AtOrBelow(path, View(slots)[wd]) && wd in rmFails {
      var k := ViewKey(slots, wd);
      ViewAt(slots, k);
    }
  }

  lemma ViewZapped(s1: seq<Slot>, s2: seq<Slot>, path: string)
    requires SlotsOk(s1) && |s1| == |s2|
    requires forall i :: 0 <= i < |s1| ==> s2[i] == if Doomed(s1[i], path) then EMPTY else s1[i]
    ensures SlotsOk(s2) && View(s2) == ZapCached(View(s1), path)
  {
    hide View;
    var m := ZapCached(View(s1), path);
    forall i | 0 <= i < |s2| && s2[i].wd >= 0
      ensures s2[i].wd in m && m[s2[i].wd] == s2[i].path
    {
      ViewAt(s1, i);
    }
    forall wd | wd in m
      ensures exists i :: UsedAt(s2, wd, i)
    {
      var i := ViewKey(s1, wd);
      ViewAt(s1, i);
      assert UsedAt(s2, wd, i);
    }
    ViewIs(s2, m);
  }

  lemma ViewRenamed(s1: seq<Slot>, s2: seq<Slot>, src: string, dst: string)
    requires SlotsOk(s1) && |s1| == |s2| && src != ""
    requires forall i :: 0 <= i < |s1| ==> s2[i] == Slot(s1[i].wd, Rewrite(src, dst, s1[i].path))
    ensures SlotsOk(s2) && View(s2) == RenameCached(View(s1), src, dst)
  {
    hide View;
    var m := RenameCached(View(s1), src, dst);
    forall i | 0 <= i < |s2| && s2[i].wd >= 0
      ensures s2[i].wd in m && m[s2[i].wd] == s2[i].path
    {
      ViewAt(s1, i);
    }
    forall wd | wd in m
      ensures exists i :: UsedAt(s2, wd, i)
    {
      var i := ViewKey(s1, wd);
      assert UsedAt(s2, wd, i);
    }
    ViewIs(s2, m);
  }
}
