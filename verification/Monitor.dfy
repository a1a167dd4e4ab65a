/** What the event handler of `inotify_dtree.c` does to the cache and to the list of monitored
    roots, as functions of its state, the event and the answers of the kernel.  The class
    `WatchCache.Watcher` computes these functions on the slot array; the modules `Sync` and `Create`
    prove what they achieve. */
module Monitor {
  import opened Basics
  import opened Paths

  const IN_MOVED_FROM := 0x40
  const IN_MOVED_TO := 0x80
  const IN_CREATE := 0x100
  const IN_DELETE_SELF := 0x400
  const IN_MOVE_SELF := 0x800
  const IN_UNMOUNT := 0x2000
  const IN_Q_OVERFLOW := 0x4000
  const IN_IGNORED := 0x8000
  const IN_ISDIR := 0x4000_0000

  datatype Event = Event(wd: int, mask: nat, cookie: nat, name: string)

  predicate Has(mask: nat, flag: nat)
    requires flag > 0
  {
    (mask / flag) % 2 == 1
  }

  /** The kernel reports no watch only with a queue overflow, and "ignored" with no other flag. */
  predicate KernelEvent(ev: Event) {
    && (ev.wd < 0 ==> ev.wd == -1 && ev.mask == IN_Q_OVERFLOW)
    && (Has(ev.mask, IN_IGNORED) ==> ev.mask == IN_IGNORED)
  }

  type Cache = map<int, string>

  /** `cache` is the used slots of `wlCache`, `roots` is `rootDirPaths` with `None` for `NULL`. */
  datatype Mon = Mon(cache: Cache, roots: seq<Option<string>>)

  /** A directory met by `nftw()` and the result of `inotify_add_watch()` on it (-1 for `ENOENT`). */
  datatype Visit = Visit(path: string, wd: int)

  type Walk = seq<Visit>

  /** The kernel's side of one step: the walk of a new subtree, the watches whose removal fails, and
      the walk of each root should the cache be rebuilt. */
  datatype Answer = Answer(walk: Walk, rmFails: set<int>, rebuild: seq<Walk>)

  datatype Action =
    | Skip
    | Watch(path: string)
    | Drop(wd: int)
    | Rename(src: string, dst: string)
    | Zap(path: string)
    | ZapRoot(path: string)
    | Defer
    | Rebuild

  datatype Outcome = Done(events: nat) | Deferred | Rebuilt | Exited

  predicate IsRoot(m: Mon, path: string) {
    Some(path) in m.roots
  }

  predicate PathCached(c: Cache, path: string) {
    exists wd :: wd in c && c[wd] == path
  }

  predicate MovedOn(ev: Event, next: Option<Event>) {
    next.Some? && Has(next.value.mask, IN_MOVED_TO) && next.value.cookie == ev.cookie
  }

  /** The branch taken for event `ev`; `next` is the event that follows it in the buffer. */
  function Decide(m: Mon, ev: Event, next: Option<Event>, firstTry: bool): Action
    requires KernelEvent(ev)
  {
    if ev.wd != -1 && !Has(ev.mask, IN_IGNORED) && ev.wd !in m.cache then Rebuild
    else if Has(ev.mask, IN_ISDIR) && (Has(ev.mask, IN_CREATE) || Has(ev.mask, IN_MOVED_TO)) then
      var path := Child(m.cache[ev.wd], ev.name);
      if PathCached(m.cache, path) then Skip else Watch(path)
    else if Has(ev.mask, IN_DELETE_SELF) then Drop(ev.wd)
    else if Has(ev.mask, IN_MOVED_FROM) && Has(ev.mask, IN_ISDIR) then
      var path := Child(m.cache[ev.wd], ev.name);
      if MovedOn(ev, next) then
        if next.value.wd !in m.cache then Rebuild
        else Rename(path, Child(m.cache[next.value.wd], next.value.name))
      else if next.Some? || !firstTry then Zap(path)
      else Defer
    else if Has(ev.mask, IN_Q_OVERFLOW) then Rebuild
    else if Has(ev.mask, IN_UNMOUNT) then Drop(ev.wd)
    else if Has(ev.mask, IN_MOVE_SELF) && IsRoot(m, m.cache[ev.wd]) then ZapRoot(m.cache[ev.wd])
    else Skip
  }

  /** Does dropping the watch of a deleted directory also strike it from the roots?  (An unmounted
      root stays listed.) */
  predicate StrikesRoot(m: Mon, ev: Event) {
    Has(ev.mask, IN_DELETE_SELF) && ev.wd in m.cache && IsRoot(m, m.cache[ev.wd])
  }

  function AddVisit(c: Cache, v: Visit): Cache {
    if v.wd == -1 || v.wd in c then c else c[v.wd := v.path]
  }

  function AddWalk(c: Cache, w: Walk): Cache {
    if w == [] then c else AddVisit(AddWalk(c, w[..|w| - 1]), w[|w| - 1])
  }

  function RenameCached(c: Cache, src: string, dst: string): Cache {
    map wd | wd in c :: Rewrite(src, dst, c[wd])
  }

  function ZapCached(c: Cache, path: string): Cache {
    map wd | wd in c && !AtOrBelow(path, c[wd]) :: c[wd]
  }

  predicate ZapFails(c: Cache, path: string, rmFails: set<int>) {
    exists wd :: wd in c && AtOrBelow(path, c[wd]) && wd in rmFails
  }

  /** `zapRootDirPath`: the first root equal to `path` is replaced by `NULL`. */
  function Strike(roots: seq<Option<string>>, path: string): (r: seq<Option<string>>)
    ensures |r| == |roots|
  {
    if roots == [] then []
    else if roots[0] == Some(path) then [None] + roots[1..]
    else [roots[0]] + Strike(roots[1..], path)
  }

  predicate NoRoots(roots: seq<Option<string>>) {
    forall i :: 0 <= i < |roots| ==> roots[i].None?
  }

  /** The cache built from scratch by walking the live roots among `roots[..n]`. */
  function BuildCache(roots: seq<Option<string>>, walks: seq<Walk>, n: nat): Cache
    requires n <= |roots| == |walks|
  {
    if n == 0 then map[]
    else
      var c := BuildCache(roots, walks, n - 1);
      if roots[n - 1].Some? then AddWalk(c, walks[n - 1]) else c
  }

  function Reinitialized(m: Mon, walks: seq<Walk>): Mon
    requires |walks| == |m.roots|
  {
    m.(cache := BuildCache(m.roots, walks, |m.roots|))
  }

  datatype Result = Result(mon: Mon, outcome: Outcome)

  /** The new state and the outcome of handling `ev`. */
  function Handle(m: Mon, ev: Event, next: Option<Event>, firstTry: bool, ans: Answer): (r: Result)
    requires KernelEvent(ev) && |ans.rebuild| == |m.roots|
    ensures |r.mon.roots| == |m.roots|
  {
    match Decide(m, ev, next, firstTry)
    case Skip => Result(m, Done(1))
    case Watch(path) => Result(m.(cache := AddWalk(m.cache, ans.walk)), Done(1))
    case Rename(src, dst) => Result(m.(cache := RenameCached(m.cache, src, dst)), Done(2))
    case Defer => Result(m, Deferred)
    case Rebuild => Result(Reinitialized(m, ans.rebuild), Rebuilt)
    case Zap(path) => ZapResult(m, path, ans)
    case Drop(wd) => DropResult(m, ev)
    case ZapRoot(path) =>
      var m' := m.(roots := Strike(m.roots, path));
      if NoRoots(m'.roots) then Result(m', Exited) else ZapResult(m', path, ans)
  }

  function ZapResult(m: Mon, path: string, ans: Answer): Result
    requires |ans.rebuild| == |m.roots|
  {
    if ZapFails(m.cache, path, ans.rmFails) then Result(Reinitialized(m, ans.rebuild), Rebuilt)
    else Result(m.(cache := ZapCached(m.cache, path)), Done(1))
  }

  function DropResult(m: Mon, ev: Event): Result {
    var m' := if StrikesRoot(m, ev) then m.(roots := Strike(m.roots, m.cache[ev.wd])) else m;
    if StrikesRoot(m, ev) && NoRoots(m'.roots) then Result(m', Exited)
    else Result(m'.(cache := m.cache - {ev.wd}), Done(1))
  }

  /** A "moved from" whose successor is no "moved to" with the same cookie: the directory has left the
      monitored trees, and exactly it and what lies below is forgotten, unless a watch cannot be removed. */
  lemma FromAlone(m: Mon, ev: Event, next: Event, firstTry: bool, ans: Answer)
    requires ev.mask == IN_MOVED_FROM + IN_ISDIR && ev.wd >= 0 && ev.wd in m.cache && |ans.rebuild| == |m.roots|
    requires !Has(next.mask, IN_MOVED_TO) || next.cookie != ev.cookie
    requires forall wd :: wd in ans.rmFails ==> wd !in m.cache
    ensures KernelEvent(ev)
    ensures Handle(m, ev, Some(next), firstTry, ans) ==
            Result(m.(cache := ZapCached(m.cache, Child(m.cache[ev.wd], ev.name))), Done(1))
  {
    assert Has(ev.mask, IN_MOVED_FROM) && Has(ev.mask, IN_ISDIR);
    hide AtOrBelow, BuildCache, ZapCached;
  }

  // ----- renaming a subtree in the cache -----

  /** No cached pathname that stays is at or below the new name. */
  ghost predicate Vacant(c: Cache, src: string, dst: string) {
    forall wd :: wd in c ==> AtOrBelow(src, c[wd]) || !AtOrBelow(dst, c[wd])
  }

  ghost predicate DistinctPaths(c: Cache) {
    forall v, w :: v in c && w in c && c[v] == c[w] ==> v == w
  }

  /** Every watch is kept; leading components `src` become `dst` and all other pathnames stay. */
  lemma RenameComponents(c: Cache, src: string, dst: string)
    ensures RenameCached(c, src, dst).Keys == c.Keys
    ensures forall wd :: wd in c ==>
              var cs := Split(c[wd]);
              Split(RenameCached(c, src, dst)[wd]) ==
              if Split(src) <= cs then Split(dst) + cs[|Split(src)|..] else cs
  {
    hide Split, Rewrite;
    forall wd | wd in c
      ensures var cs := Split(c[wd]);
              Split(RenameCached(c, src, dst)[wd]) ==
              if Split(src) <= cs then Split(dst) + cs[|Split(src)|..] else cs
    {
      RewriteIsComponentwise(src, dst, c[wd]);
    }
  }

  /** Renaming back restores the cache exactly when the new name was vacant. */
  lemma RenameBack(c: Cache, src: string, dst: string)
    ensures RenameCached(RenameCached(c, src, dst), dst, src) == c <==> Vacant(c, src, dst)
  {
    hide Rewrite, AtOrBelow;
    var d := RenameCached(RenameCached(c, src, dst), dst, src);
    assert d.Keys == c.Keys;
    forall wd | wd in c
      ensures d[wd] == c[wd] <==> AtOrBelow(src, c[wd]) || !AtOrBelow(dst, c[wd])
    {
      assert d[wd] == Rewrite(dst, src, Rewrite(src, dst, c[wd]));
      RewriteBack(src, dst, c[wd]);
    }
    if Vacant(c, src, dst) {
      assert forall wd :: wd in d ==> d[wd] == c[wd];
    }
  }

  /** No entry that stays at or below the new name has a counterpart, with the same tail, below the old one. */
  ghost predicate Clashless(c: Cache, src: string, dst: string) {
    forall w :: w in c && !AtOrBelow(src, c[w]) && AtOrBelow(dst, c[w]) ==> !PathCached(c, src + c[w][|dst|..])
  }

  lemma ClashlessKeeps(c: Cache, src: string, dst: string, v: int, w: int)
    requires DistinctPaths(c) && Clashless(c, src, dst) && v in c && w in c
    requires Rewrite(src, dst, c[v]) == Rewrite(src, dst, c[w])
    ensures v == w
  {
    hide Rewrite;
    if AtOrBelow(src, c[v]) && !AtOrBelow(src, c[w]) {
      RewriteMeets(src, dst, c[v], c[w]);
    } else if AtOrBelow(src, c[w]) && !AtOrBelow(src, c[v]) {
      RewriteMeets(src, dst, c[w], c[v]);
    } else {
      RewriteTogether(src, dst, c[v], c[w]);
    }
  }

  lemma VacantClashless(c: Cache, src: string, dst: string)
    requires Vacant(c, src, dst)
    ensures Clashless(c, src, dst)
  {
    hide AtOrBelow, PathCached;
  }

  /** Renaming keeps distinct cached pathnames distinct exactly when there is no such counterpart, in
      particular when the new name is vacant. */
  lemma RenameDistinct(c: Cache, src: string, dst: string)
    requires DistinctPaths(c)
    ensures DistinctPaths(RenameCached(c, src, dst)) <==> Clashless(c, src, dst)
    ensures Vacant(c, src, dst) ==> DistinctPaths(RenameCached(c, src, dst))
  {
    if Vacant(c, src, dst) {
      VacantClashless(c, src, dst);
    }
    var d := RenameCached(c, src, dst);
    if Clashless(c, src, dst) {
      hide Rewrite, AtOrBelow, Clashless;
      forall v, w | v in d && w in d && d[v] == d[w]
        ensures v == w
      {
        ClashlessKeeps(c, src, dst, v, w);
      }
    } else {
      hide Rewrite;
      var w :| w in c && !AtOrBelow(src, c[w]) && AtOrBelow(dst, c[w]) && PathCached(c, src + c[w][|dst|..]);
      var v :| v in c && c[v] == src + c[w][|dst|..];
      TailBelow(src, dst, c[w]);
      RewriteMeets(src, dst, c[v], c[w]);
      assert d[v] == d[w] && v != w;
    }
  }

  lemma TailBelow(src: string, dst: string, q: string)
    requires AtOrBelow(dst, q)
    ensures AtOrBelow(src, src + q[|dst|..])
  {
  }

  /** To a name that was not vacant, two watches can end with one pathname. */
  lemma RenameClash()
    ensures exists c: Cache, src, dst :: DistinctPaths(c) && !DistinctPaths(RenameCached(c, src, dst))
  {
    var c: Cache := map[1 := "r/a", 2 := "r/b"];
    assert DistinctPaths(c);
    var d := RenameCached(c, "r/a", "r/b");
    assert d[1] == "r/b" + "" == "r/b" == d[2];
  }
}
