/** Runs of the file system and the monitor: each operation on directories is followed by the
    handling of the events it causes.  The main theorem says for every operation whether the cache
    is in step afterwards. */
module SyncRun {
  import opened Basics
  import opened Paths
  import opened DirTree
  import opened Monitor
  import opened Sync

  datatype Sys = Sys(fs: Forest, watch: Watches, selfWds: set<int>, mon: Mon, queue: seq<Event>, exited: bool)

  /** The monitor runs, some root is left, and the cache mirrors the monitored trees. */
  ghost predicate Synced(s: Sys) {
    !s.exited && AllRooted(s.fs.tree) && s.fs.roots != map[] && InStep(s.fs, s.watch, s.selfWds, s.mon)
  }

  // ----- operations on directories -----

  /** `Move` is `rename()`; `over` is the empty directory it replaces, if any.  A move to `Top` leads
      to a place outside everything that is monitored. */
  datatype Op =
    | Mkdir(x: Inode, at: Link)
    | Rmdir(x: Inode)
    | Move(d: Inode, to: Link, over: Option<Inode>, cookie: nat)

  ghost predicate Lone(tree: Tree, d: Inode) {
    forall y :: y in tree && tree[y].Under? ==> tree[y].parent != d
  }

  ghost predicate Place(tree: Tree, l: Link) {
    l.Under? ==> l.parent in tree && SlashFree(l.name)
  }

  ghost predicate Free(tree: Tree, l: Link) {
    l.Under? ==> forall y :: y in tree ==> tree[y] != l
  }

  ghost predicate Enabled(fs: Forest, op: Op) {
    match op
    case Mkdir(x, at) => x !in fs.tree && at.Under? && Place(fs.tree, at) && Free(fs.tree, at)
    case Rmdir(x) => x in fs.tree && Lone(fs.tree, x)
    case Move(d, to, over, _) =>
      && d in fs.tree && Place(fs.tree, to)
      && (to.Under? ==> !Below(fs.tree, d, to.parent))
      && match over
         case None => Free(fs.tree, to)
         case Some(v) => to.Under? && v in fs.tree && v != d && fs.tree[v] == to && Lone(fs.tree, v)
  }

  function Without(fs: Forest, x: Inode): Forest {
    Forest(fs.tree - {x}, fs.roots - {x})
  }

  function Relink(fs: Forest, d: Inode, l: Link): Forest {
    Forest(fs.tree[d := l], fs.roots - {d})
  }

  function Cleared(fs: Forest, over: Option<Inode>): Forest {
    if over.Some? then Without(fs, over.value) else fs
  }

  function NewForest(fs: Forest, op: Op): Forest {
    match op
    case Mkdir(x, at) => Relink(fs, x, at)
    case Rmdir(x) => Without(fs, x)
    case Move(d, to, over, _) => Relink(Cleared(fs, over), d, to)
  }

  // ----- what the kernel reports -----

  ghost function WdOf(watch: Watches, x: Inode): int
    requires Watched(watch, x)
  {
    var wd :| wd in watch && watch[wd] == x; wd
  }

  ghost function On(watch: Watches, x: Inode, mask: nat, cookie: nat, name: string): seq<Event> {
    if Watched(watch, x) then [Event(WdOf(watch, x), mask, cookie, name)] else []
  }

  ghost function OnLink(watch: Watches, l: Link, mask: nat, cookie: nat): seq<Event> {
    if l.Under? then On(watch, l.parent, mask, cookie, l.name) else []
  }

  ghost function OnGone(watch: Watches, x: Inode): seq<Event> {
    On(watch, x, IN_DELETE_SELF, 0, "") + On(watch, x, IN_IGNORED, 0, "")
  }

  ghost function OnMoved(watch: Watches, selfWds: set<int>, d: Inode): seq<Event> {
    if Watched(watch, d) && WdOf(watch, d) in selfWds then [Event(WdOf(watch, d), IN_MOVE_SELF, 0, "")] else []
  }

  ghost function Reports(s: Sys, op: Op): seq<Event>
    requires Enabled(s.fs, op)
  {
    match op
    case Mkdir(x, at) => OnLink(s.watch, at, IN_CREATE + IN_ISDIR, 0)
    case Rmdir(x) => OnGone(s.watch, x)
    case Move(d, to, over, cookie) =>
      OnLink(s.watch, s.fs.tree[d], IN_MOVED_FROM + IN_ISDIR, cookie)
      + OnLink(s.watch, to, IN_MOVED_TO + IN_ISDIR, cookie)
      + OnMoved(s.watch, s.selfWds, d)
      + if over.Some? then OnGone(s.watch, over.value) else []
  }

  /** A deleted directory loses its watch. */
  function Unwatch(watch: Watches, x: Inode): Watches {
    map wd | wd in watch && watch[wd] != x :: watch[wd]
  }

  function NewWatches(watch: Watches, op: Op): Watches {
    match op
    case Mkdir(_, _) => watch
    case Rmdir(x) => Unwatch(watch, x)
    case Move(_, _, over, _) => if over.Some? then Unwatch(watch, over.value) else watch
  }

  ghost function Perform(s: Sys, op: Op): Sys
    requires Enabled(s.fs, op)
  {
    var watch := NewWatches(s.watch, op);
    Sys(NewForest(s.fs, op), watch, s.selfWds * watch.Keys, s.mon, s.queue + Reports(s, op), s.exited)
  }

  // ----- one step of the monitor -----

  ghost predicate AllIgnored(q: seq<Event>) {
    forall i :: 0 <= i < |q| ==> q[i].mask == IN_IGNORED && q[i].wd >= 0
  }

  function Next(q: seq<Event>): Option<Event> {
    if |q| > 1 then Some(q[1]) else None
  }

  /** The kernel side of the calls made by action `a`. */
  ghost predicate Replies(s: Sys, a: Action, ans: Answer, ign: seq<Event>, s': Sys) {
    match a
    case Watch(p) =>
      && IsWalk(s.fs, s.watch, p, ans.walk, s'.watch) && SelfAfter(s.selfWds, s.mon, ans.walk, s'.selfWds)
      && ign == []
    case Zap(p) => RemovesWatches(s, p, ign, s')
    case ZapRoot(p) => RemovesWatches(s, p, ign, s')
    case _ => s'.watch == s.watch && s'.selfWds == s.selfWds && ign == []
  }

  ghost predicate RemovesWatches(s: Sys, p: string, ign: seq<Event>, s': Sys) {
    && s'.watch == ZapWatches(s.watch, s.mon.cache, p)
    && s'.selfWds == s.selfWds * s'.watch.Keys
    && Ignored(ign, s.watch.Keys - s'.watch.Keys)
  }

  /** One event says so for each watch removed, in any order. */
  ghost predicate Ignored(ign: seq<Event>, gone: set<int>) {
    && AllIgnored(ign) && |ign| == |gone|
    && (forall i :: 0 <= i < |ign| ==> ign[i].wd in gone)
    && (forall i, j :: 0 <= i < j < |ign| ==> ign[i].wd != ign[j].wd)
  }

  /** Removing a watch fails exactly when the kernel does not have it. */
  ghost predicate TruthfulRm(s: Sys, ans: Answer) {
    forall wd :: wd in s.mon.cache ==> (wd in ans.rmFails <==> wd !in s.watch)
  }

  ghost predicate StepWith(s: Sys, ans: Answer, ign: seq<Event>, s': Sys)
    requires s.queue != [] && KernelEvent(s.queue[0])
  {
    && TruthfulRm(s, ans) && |ans.rebuild| == |s.mon.roots|
    && var r := Handle(s.mon, s.queue[0], Next(s.queue), false, ans);
    && s'.fs == s.fs && s'.mon == r.mon && s'.exited == r.outcome.Exited?
    && match r.outcome
       case Done(n) =>
         && n <= |s.queue| && s'.queue == s.queue[n..] + ign
         && Replies(s, Decide(s.mon, s.queue[0], Next(s.queue), false), ans, ign, s')
       case Rebuilt => s'.queue == [] && BuildsAnew(s.fs, r.mon.roots, ans.rebuild, s'.watch, s'.selfWds)
       case Exited => true
       case Deferred => false
  }

  /** The walks of all listed roots, on a fresh inotify instance. */
  ghost predicate BuildsAnew(fs: Forest, roots: seq<Option<string>>, walks: seq<Walk>, watch: Watches, selfWds: set<int>)
    requires |walks| == |roots|
  {
    && WatchesOk(watch)
    && (forall wd :: wd in watch ==> exists j, v :: 0 <= j < |roots| && roots[j].Some? && v in walks[j] && v.wd == wd)
    && (forall j, v :: 0 <= j < |roots| && roots[j].Some? && v in walks[j] ==>
          v.wd in watch && AtOrBelow(roots[j].value, v.path) && Loc(fs, watch[v.wd], v.path))
    && (forall j, x, q :: 0 <= j < |roots| && roots[j].Some? && Loc(fs, x, q) && AtOrBelow(roots[j].value, q) ==>
          Watched(watch, x))
    && (forall wd :: wd in selfWds <==>
          exists j, v :: 0 <= j < |roots| && roots[j].Some? && v in walks[j] && v.wd == wd && Some(v.path) in roots)
  }

  ghost predicate Step(s: Sys, s': Sys) {
    && !s.exited && s.queue != [] && KernelEvent(s.queue[0])
    && exists ans, ign :: StepWith(s, ans, ign, s')
  }

  /** `n` steps lead from `s` to `s'`, where the queue is empty or the monitor has ended. */
  ghost predicate Drains(s: Sys, n: nat, s': Sys)
    decreases n
  {
    if n == 0 then s' == s && (s.exited || s.queue == [])
    else exists t :: Step(s, t) && Drains(t, n - 1, s')
  }

  // ----- operations keep the forest sound -----

  lemma RelinkOk(fs: Forest, d: Inode, l: Link)
    requires ForestOk(fs) && AllRooted(fs.tree) && Place(fs.tree, l) && Free(fs.tree, l)
    requires l.Under? ==> !Below(fs.tree, d, l.parent)
    ensures var f := Relink(fs, d, l);
            ForestOk(f) && AllRooted(f.tree) && Changed(fs, f, d) && Acyclic(fs.tree, d) && Acyclic(f.tree, d)
  {
    assert l.Under? ==> l.parent in fs.tree;
    hide AllRooted, At, Below, ForestOk, Changed, Place, Free, Acyclic;
    RelinkForest(fs, d, l);
    RelinkRooted(fs.tree, d, l);
    RootedAcyclic(fs.tree, d);
    RootedAcyclic(fs.tree[d := l], d);
  }

  lemma RelinkForest(fs: Forest, d: Inode, l: Link)
    requires ForestOk(fs) && Place(fs.tree, l) && Free(fs.tree, l)
    ensures ForestOk(Relink(fs, d, l)) && Changed(fs, Relink(fs, d, l), d)
  {
    hide SlashFree, Apart;
  }

  lemma {:induction false} LoneAt(tree: Tree, d: Inode, rel: seq<string>, x: Inode)
    requires Lone(tree, d) && At(tree, d, rel, x)
    ensures x == d
    decreases |rel|
  {
    if rel != [] {
      LoneAt(tree, d, rel[..|rel| - 1], tree[x].parent);
    }
  }

  lemma LoneBelow(tree: Tree, d: Inode, x: Inode)
    requires Lone(tree, d) && Below(tree, d, x)
    ensures x == d
  {
    var rel :| At(tree, d, rel, x);
    LoneAt(tree, d, rel, x);
  }

  lemma WithoutRooted(fs: Forest, x: Inode)
    requires AllRooted(fs.tree) && Lone(fs.tree, x)
    ensures AllRooted(fs.tree - {x})
  {
    forall y | y in fs.tree - {x}
      ensures Rooted(fs.tree - {x}, y)
    {
      if Below(fs.tree, x, y) {
        LoneBelow(fs.tree, x, y);
      }
      RootedKeep(fs.tree, fs.tree - {x}, x, y);
    }
  }

  lemma GoneNotMonitored(fs: Forest, x: Inode)
    ensures !Monitored(Without(fs, x), x)
  {
  }

  lemma WithoutOk(fs: Forest, x: Inode)
    requires ForestOk(fs) && AllRooted(fs.tree) && Lone(fs.tree, x)
    ensures var f := Without(fs, x);
            ForestOk(f) && AllRooted(f.tree) && Changed(fs, f, x) && Acyclic(fs.tree, x) && Acyclic(f.tree, x)
  {
    hide AllRooted, At;
    WithoutRooted(fs, x);
    RootedAcyclic(fs.tree, x);
    RootedAcyclic(fs.tree - {x}, x);
  }

  // ----- monitored directories -----

  lemma RelinkMonitored(fs: Forest, d: Inode, l: Link)
    requires ForestOk(fs) && ForestOk(Relink(fs, d, l)) && Changed(fs, Relink(fs, d, l), d)
    requires Acyclic(fs.tree, d) && Acyclic(Relink(fs, d, l).tree, d)
    requires l.Under? ==> !Below(fs.tree, d, l.parent)
    ensures Monitored(Relink(fs, d, l), d) <==> l.Under? && Monitored(fs, l.parent)
    ensures forall p :: l.Under? && Loc(fs, l.parent, p) ==> Loc(Relink(fs, d, l), d, Child(p, l.name))
  {
    hide ForestOk, Loc, Acyclic;
    var f := Relink(fs, d, l);
    if l.Under? {
      forall p | Loc(fs, l.parent, p)
        ensures Loc(f, d, Child(p, l.name))
      {
        LocSame(fs, f, d, l.parent, p);
        LocChild(f, l.parent, p, d);
      }
    }
    if p :| Loc(f, d, p) {
      var py := LocParent(f, d, p);
      LocSame(fs, f, d, l.parent, py);
    }
  }

  lemma ChildMonitored(fs: Forest, d: Inode)
    requires ForestOk(fs) && d in fs.tree && d !in fs.roots
    ensures Monitored(fs, d) <==> fs.tree[d].Under? && Monitored(fs, fs.tree[d].parent)
    ensures forall p :: fs.tree[d].Under? && Loc(fs, fs.tree[d].parent, p) ==> Loc(fs, d, Child(p, fs.tree[d].name))
  {
    hide ForestOk, Loc;
    if fs.tree[d].Under? {
      forall p | Loc(fs, fs.tree[d].parent, p)
        ensures Loc(fs, d, Child(p, fs.tree[d].name))
      {
        LocChild(fs, fs.tree[d].parent, p, d);
      }
    }
    if p :| Loc(fs, d, p) {
      var py := LocParent(fs, d, p);
    }
  }

  lemma WatchedMonitored(fs: Forest, watch: Watches, cache: Cache, x: Inode)
    requires Accurate(fs, watch, cache) && Complete(fs, watch)
    ensures Watched(watch, x) <==> Monitored(fs, x)
    ensures Watched(watch, x) ==> WdOf(watch, x) in cache && Loc(fs, x, cache[WdOf(watch, x)])
  {
    hide Loc;
  }

  // ----- the branch taken for each kind of event -----

  lemma DecideNew(m: Mon, wd: int, mask: nat, cookie: nat, name: string, next: Option<Event>, firstTry: bool)
    requires mask == IN_CREATE + IN_ISDIR || mask == IN_MOVED_TO + IN_ISDIR
    requires wd >= 0 && wd in m.cache
    ensures var ev := Event(wd, mask, cookie, name);
            var path := Child(m.cache[wd], name);
            KernelEvent(ev) && Decide(m, ev, next, firstTry) == if PathCached(m.cache, path) then Skip else Watch(path)
  {
  }

  lemma DecideFrom(m: Mon, wd: int, cookie: nat, name: string, next: Option<Event>, firstTry: bool)
    requires wd >= 0 && wd in m.cache
    ensures var ev := Event(wd, IN_MOVED_FROM + IN_ISDIR, cookie, name);
            var path := Child(m.cache[wd], name);
            && KernelEvent(ev)
            && Decide(m, ev, next, firstTry) ==
               if MovedOn(ev, next) then
                 (if next.value.wd !in m.cache then Action.Rebuild
                  else Rename(path, Child(m.cache[next.value.wd], next.value.name)))
               else if next.Some? || !firstTry then Zap(path) else Defer
  {
  }

  lemma DecideOther(m: Mon, wd: int, next: Option<Event>, firstTry: bool)
    requires wd >= 0
    ensures KernelEvent(Event(wd, IN_IGNORED, 0, "")) && Decide(m, Event(wd, IN_IGNORED, 0, ""), next, firstTry) == Skip
    ensures wd in m.cache ==>
              var gone, moved := Event(wd, IN_DELETE_SELF, 0, ""), Event(wd, IN_MOVE_SELF, 0, "");
              && KernelEvent(gone) && Decide(m, gone, next, firstTry) == Drop(wd)
              && KernelEvent(moved) && Decide(m, moved, next, firstTry) ==
                                       if IsRoot(m, m.cache[wd]) then ZapRoot(m.cache[wd]) else Skip
    ensures StrikesRoot(m, Event(wd, IN_DELETE_SELF, 0, "")) <==> wd in m.cache && IsRoot(m, m.cache[wd])
  {
  }

  // ----- the step made by each action -----

  ghost predicate Acts(s: Sys, a: Action) {
    && !s.exited && s.queue != [] && KernelEvent(s.queue[0])
    && Decide(s.mon, s.queue[0], Next(s.queue), false) == a
  }

  lemma StepSkip(s: Sys, t: Sys)
    requires Step(s, t) && Acts(s, Skip)
    ensures t == s.(queue := s.queue[1..])
  {
    hide Decide;
    var ans, ign :| StepWith(s, ans, ign, t);
  }

  lemma StepWatch(s: Sys, t: Sys, p: string) returns (w: Walk)
    requires Step(s, t) && Acts(s, Watch(p))
    ensures IsWalk(s.fs, s.watch, p, w, t.watch) && SelfAfter(s.selfWds, s.mon, w, t.selfWds)
    ensures t == Sys(s.fs, t.watch, t.selfWds, s.mon.(cache := AddWalk(s.mon.cache, w)), s.queue[1..], false)
  {
    hide Decide, IsWalk, SelfAfter;
    var ans, ign :| StepWith(s, ans, ign, t);
    w := ans.walk;
  }

  lemma StepRename(s: Sys, t: Sys, src: string, dst: string)
    requires Step(s, t) && Acts(s, Rename(src, dst))
    ensures |s.queue| >= 2
    ensures t == s.(mon := s.mon.(cache := RenameCached(s.mon.cache, src, dst)), queue := s.queue[2..])
  {
    hide Decide;
    var ans, ign :| StepWith(s, ans, ign, t);
  }

  lemma StepZap(s: Sys, t: Sys, p: string) returns (ign: seq<Event>)
    requires Step(s, t) && Acts(s, Zap(p))
    requires forall wd :: wd in s.mon.cache && AtOrBelow(p, s.mon.cache[wd]) ==> wd in s.watch
    ensures AllIgnored(ign)
    ensures var watch := ZapWatches(s.watch, s.mon.cache, p);
            t == Sys(s.fs, watch, s.selfWds * watch.Keys, s.mon.(cache := ZapCached(s.mon.cache, p)),
                     s.queue[1..] + ign, false)
  {
    hide Decide;
    var ans;
    ans, ign :| StepWith(s, ans, ign, t);
    assert !ZapFails(s.mon.cache, p, ans.rmFails);
  }

  lemma StepDrop(s: Sys, t: Sys, wd: int)
    requires Step(s, t) && Acts(s, Drop(wd)) && wd in s.mon.cache && s.queue[0].wd == wd
    ensures !StrikesRoot(s.mon, s.queue[0]) ==>
              t == s.(mon := s.mon.(cache := s.mon.cache - {wd}), queue := s.queue[1..])
    ensures StrikesRoot(s.mon, s.queue[0]) ==>
              var roots := Strike(s.mon.roots, s.mon.cache[wd]);
              if NoRoots(roots) then t.exited
              else t == s.(mon := Mon(s.mon.cache - {wd}, roots), queue := s.queue[1..])
  {
    hide Decide;
    var ans, ign :| StepWith(s, ans, ign, t);
  }

  lemma StepZapRoot(s: Sys, t: Sys, p: string) returns (ign: seq<Event>)
    requires Step(s, t) && Acts(s, ZapRoot(p))
    requires forall wd :: wd in s.mon.cache && AtOrBelow(p, s.mon.cache[wd]) ==> wd in s.watch
    ensures NoRoots(Strike(s.mon.roots, p)) ==> t.exited
    ensures AllIgnored(ign)
    ensures !NoRoots(Strike(s.mon.roots, p)) ==>
              var watch := ZapWatches(s.watch, s.mon.cache, p);
              t == Sys(s.fs, watch, s.selfWds * watch.Keys, Mon(ZapCached(s.mon.cache, p), Strike(s.mon.roots, p)),
                       s.queue[1..] + ign, false)
  {
    hide Decide;
    var ans, g :| StepWith(s, ans, g, t);
    assert !ZapFails(s.mon.cache, p, ans.rmFails);
    ign := if NoRoots(Strike(s.mon.roots, p)) then [] else g;
  }

  // ----- draining the queue -----

  lemma DrainStep(s: Sys, n: nat, s': Sys) returns (t: Sys)
    requires Drains(s, n, s') && !s.exited && s.queue != []
    ensures n > 0 && Step(s, t) && Drains(t, n - 1, s')
  {
    hide Step;
    t :| Step(s, t) && Drains(t, n - 1, s');
  }

  lemma {:induction false} DrainIgnored(s: Sys, n: nat, s': Sys)
    requires Drains(s, n, s') && !s.exited && AllIgnored(s.queue)
    ensures s' == s.(queue := [])
    decreases n
  {
    hide Step, Acts, Drains;
    if s.queue == [] {
      DrainEnd(s, n, s');
    } else {
      var t := DrainStep(s, n, s');
      IgnoredSkips(s);
      StepSkip(s, t);
      DrainIgnored(t, n - 1, s');
    }
  }

  lemma IgnoredSkips(s: Sys)
    requires !s.exited && s.queue != [] && s.queue[0].mask == IN_IGNORED && s.queue[0].wd >= 0
    ensures Acts(s, Skip)
  {
  }

  lemma {:induction false} DrainEnd(s: Sys, n: nat, s': Sys)
    requires Drains(s, n, s') && (s.exited || s.queue == [])
    ensures s' == s
  {
  }
}
