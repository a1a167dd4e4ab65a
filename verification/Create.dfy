/** Directories created while the monitor is at work: every `mkdir()` may fall between any two steps
    of the event handler and of the tree walks it makes. */
module Create {
  import opened Paths
  import opened DirTree
  import opened Monitor
  import opened Sync
  import opened SyncRun
  import opened SyncTheorem

  /** What is left of the current `nftw()` walk.  `Enter` is a directory found but not yet visited;
      `List` is a directory already watched whose entries are being read: those in `must` existed when
      its watch was placed, so they will be found; later ones may or may not be. */
  datatype Item =
    | Enter(x: Inode, path: string)
    | List(x: Inode, path: string, must: set<Inode>)

  datatype State = State(fs: Forest, watch: Watches, mon: Mon, queue: seq<Event>, walk: seq<Item>)

  function Entries(tree: Tree, x: Inode): set<Inode> {
    set y | y in tree && tree[y].Under? && tree[y].parent == x
  }

  // ----- steps -----

  /** `mkdir()` anywhere; the parent reports it when it is watched. */
  ghost predicate Makes(s: State, x: Inode, at: Link, s': State) {
    && Enabled(s.fs, Mkdir(x, at))
    && s' == s.(fs := NewForest(s.fs, Mkdir(x, at)), queue := s.queue + OnLink(s.watch, at, IN_CREATE + IN_ISDIR, 0))
  }

  /** The handler takes the next event and, for a new directory, starts a walk at its pathname. */
  ghost predicate Takes(s: State, s': State) {
    && s.walk == [] && s.queue != [] && KernelEvent(s.queue[0])
    && match Decide(s.mon, s.queue[0], Next(s.queue), true)
       case Skip => s' == s.(queue := s.queue[1..])
       case Watch(p) =>
         && s'.queue == s.queue[1..] && s'.fs == s.fs && s'.watch == s.watch && s'.mon == s.mon
         && (if exists x :: Loc(s.fs, x, p) then exists x :: Loc(s.fs, x, p) && s'.walk == [Enter(x, p)]
             else s'.walk == [])
       case _ => Leaves(s, s')
  }

  /** Any of the other branches of the handler: the theorem below shows that none is ever taken. */
  ghost predicate Leaves(s: State, s': State) {
    s'.fs == s.fs
  }

  /** `traverseTree`: watch the directory, cache it unless its watch is cached already. */
  ghost predicate Visits(s: State, wd: int, s': State) {
    && s.walk != [] && s.walk[0].Enter?
    && var x := s.walk[0].x;
    && wd >= 0
    && (if Watched(s.watch, x) then wd in s.watch && s.watch[wd] == x && s'.watch == s.watch
        else wd !in s.watch && s'.watch == s.watch[wd := x])
    && s' == s.(watch := s'.watch, mon := s.mon.(cache := AddVisit(s.mon.cache, Visit(s.walk[0].path, wd))),
                walk := [List(x, s.walk[0].path, Entries(s.fs.tree, x))] + s.walk[1..])
  }

  /** The walk reads an entry of the directory it is in and descends into it. */
  ghost predicate Finds(s: State, y: Inode, s': State) {
    && s.walk != [] && s.walk[0].List?
    && var it := s.walk[0];
    && y in Entries(s.fs.tree, it.x)
    && s' == s.(walk := [Enter(y, Child(it.path, s.fs.tree[y].name)), it.(must := it.must - {y})] + s.walk[1..])
  }

  /** The walk has read all entries that it had to find. */
  ghost predicate Finishes(s: State, s': State) {
    s.walk != [] && s.walk[0].List? && s.walk[0].must == {} && s' == s.(walk := s.walk[1..])
  }

  ghost predicate Step(s: State, s': State) {
    || (exists x, at :: Makes(s, x, at, s'))
    || Takes(s, s')
    || (exists wd :: Visits(s, wd, s'))
    || (exists y :: Finds(s, y, s'))
    || Finishes(s, s')
  }

  /** Start-up: nothing is watched and the walk of the root directories lies ahead. */
  ghost predicate Init(s: State) {
    && ForestOk(s.fs) && AllRooted(s.fs.tree)
    && s.watch == map[] && s.mon.cache == map[] && s.queue == []
    && (forall r :: r in s.fs.roots ==> Enter(r, s.fs.roots[r]) in s.walk)
    && (forall it :: it in s.walk ==> it.Enter? && Loc(s.fs, it.x, it.path))
  }

  // ----- the invariant -----

  /** A report on the directory holding `x` that an entry of its name was created is pending. */
  ghost predicate Reported(s: State, x: Inode)
    requires x in s.fs.tree && s.fs.tree[x].Under?
  {
    exists i :: 0 <= i < |s.queue| && Announces(s, s.queue[i], x)
  }

  ghost predicate Announces(s: State, ev: Event, x: Inode)
    requires x in s.fs.tree && s.fs.tree[x].Under?
  {
    ev.wd in s.watch && s.watch[ev.wd] == s.fs.tree[x].parent && ev.name == s.fs.tree[x].name
  }

  ghost predicate InWalk(s: State, x: Inode) {
    exists it :: it in s.walk && it.Enter? && it.x == x
  }

  ghost predicate InListing(s: State, x: Inode)
    requires x in s.fs.tree && s.fs.tree[x].Under?
  {
    exists it :: it in s.walk && it.List? && it.x == s.fs.tree[x].parent && x in it.must
  }

  /** An unwatched directory is still to come: it is part of the walk, or the directory above it is
      not watched either, or its creation is reported and the report is pending. */
  ghost predicate Due(s: State, x: Inode) {
    || InWalk(s, x)
    || (x in s.fs.tree && s.fs.tree[x].Under?
        && (!Watched(s.watch, s.fs.tree[x].parent) || Reported(s, x) || InListing(s, x)))
  }

  ghost predicate Covered(s: State) {
    forall x, p :: Loc(s.fs, x, p) && !Watched(s.watch, x) ==> Due(s, x)
  }

  ghost predicate EventOk(s: State, ev: Event) {
    && ev.mask == IN_CREATE + IN_ISDIR && ev.wd in s.watch
    && exists x :: x in s.fs.tree && s.fs.tree[x] == Under(s.watch[ev.wd], ev.name)
  }

  ghost predicate QueueOk(s: State) {
    forall i :: 0 <= i < |s.queue| ==> EventOk(s, s.queue[i])
  }

  ghost predicate ItemOk(s: State, it: Item) {
    && Loc(s.fs, it.x, it.path)
    && (it.List? ==> Watched(s.watch, it.x) && it.must <= Entries(s.fs.tree, it.x))
  }

  ghost predicate WalkOk(s: State) {
    forall it :: it in s.walk ==> ItemOk(s, it)
  }

  ghost predicate Inv(s: State) {
    && ForestOk(s.fs) && AllRooted(s.fs.tree) && WatchesOk(s.watch)
    && Accurate(s.fs, s.watch, s.mon.cache)
    && QueueOk(s) && WalkOk(s) && Covered(s)
  }

  lemma InitInv(s: State)
    requires Init(s)
    ensures Inv(s)
  {
    hide AllRooted, ForestOk;
    forall x, p | Loc(s.fs, x, p) && !Watched(s.watch, x)
      ensures Due(s, x)
    {
      if x in s.fs.roots {
        assert InWalk(s, x);
      } else {
        var r, names :| LocVia(s.fs, r, names, x, p);
      }
    }
  }

  // ----- a directory is created -----

  ghost predicate Grows(f1: Forest, f2: Forest, x: Inode, at: Link) {
    && x !in f1.tree && at.Under? && f2 == Relink(f1, x, at) && f2.roots == f1.roots
    && ForestOk(f1) && ForestOk(f2) && Changed(f1, f2, x) && Acyclic(f2.tree, x)
  }

  lemma MakesGrows(s: State, x: Inode, at: Link, s': State)
    requires Makes(s, x, at, s') && ForestOk(s.fs) && AllRooted(s.fs.tree)
    ensures Grows(s.fs, s'.fs, x, at) && AllRooted(s'.fs.tree)
  {
    hide AllRooted, At;
    if Below(s.fs.tree, x, at.parent) {
      LoneBelow(s.fs.tree, x, at.parent);
    }
    RelinkOk(s.fs, x, at);
  }

  /** Directories that existed keep their pathnames. */
  lemma GrowLoc(f1: Forest, f2: Forest, x: Inode, at: Link, y: Inode, p: string)
    requires Grows(f1, f2, x, at) && y != x
    ensures Loc(f1, y, p) <==> Loc(f2, y, p)
  {
    hide Loc, Acyclic;
    if Below(f1.tree, x, y) {
      LoneBelow(f1.tree, x, y);
    }
    hide ForestOk;
    LocSame(f1, f2, x, y, p);
  }

  lemma GrowKeeps(f1: Forest, f2: Forest, x: Inode, at: Link, y: Inode, p: string)
    requires Grows(f1, f2, x, at) && Loc(f1, y, p)
    ensures y != x && Loc(f2, y, p)
  {
    LocInTree(f1, y, p);
    hide ForestOk, Loc, Acyclic;
    GrowLoc(f1, f2, x, at, y, p);
  }

  lemma MakesQueue(s: State, x: Inode, at: Link, s': State)
    requires Makes(s, x, at, s') && QueueOk(s)
    ensures QueueOk(s')
  {
    hide Loc;
    forall i | 0 <= i < |s'.queue|
      ensures EventOk(s', s'.queue[i])
    {
      if i < |s.queue| {
        assert EventOk(s, s.queue[i]);
        var y :| y in s.fs.tree && s.fs.tree[y] == Under(s.watch[s.queue[i].wd], s.queue[i].name);
        assert s'.fs.tree[y] == s.fs.tree[y];
      } else {
        assert s'.fs.tree[x] == at;
      }
    }
  }

  lemma MakesCovered(s: State, x: Inode, at: Link, s': State)
    requires Makes(s, x, at, s') && Grows(s.fs, s'.fs, x, at) && Covered(s)
    ensures Covered(s')
  {
    hide Loc, ForestOk, Acyclic;
    forall y, p | Loc(s'.fs, y, p) && !Watched(s'.watch, y)
      ensures Due(s', y)
    {
      if y == x {
        if Watched(s.watch, at.parent) {
          assert Announces(s', s'.queue[|s.queue|], x);
        }
      } else {
        GrowLoc(s.fs, s'.fs, x, at, y, p);
        DueStays(s, s', y);
      }
    }
  }

  /** Longer queues and larger trees keep what is due. */
  lemma DueStays(s: State, s': State, y: Inode)
    requires Due(s, y) && s'.watch == s.watch && s'.walk == s.walk && s.queue <= s'.queue
    requires y in s.fs.tree ==> y in s'.fs.tree && s'.fs.tree[y] == s.fs.tree[y]
    ensures Due(s', y)
  {
    if !InWalk(s, y) && Reported(s, y) {
      var i :| 0 <= i < |s.queue| && Announces(s, s.queue[i], y);
      assert Announces(s', s'.queue[i], y);
    }
  }

  lemma MakesInv(s: State, x: Inode, at: Link, s': State)
    requires Inv(s) && Makes(s, x, at, s')
    ensures Inv(s')
  {
    hide Loc, ForestOk, AllRooted, Acyclic, Covered, QueueOk, Enabled;
    MakesGrows(s, x, at, s');
    forall wd | wd in s.watch
      ensures Loc(s'.fs, s.watch[wd], s.mon.cache[wd])
    {
      GrowKeeps(s.fs, s'.fs, x, at, s.watch[wd], s.mon.cache[wd]);
    }
    forall it | it in s.walk
      ensures ItemOk(s', it)
    {
      assert ItemOk(s, it);
      GrowKeeps(s.fs, s'.fs, x, at, it.x, it.path);
    }
    MakesQueue(s, x, at, s');
    MakesCovered(s, x, at, s');
  }

  // ----- an event is taken -----

  /** The head of the queue names a directory; its pathname is the one the handler computes. */
  lemma HeadNamed(s: State) returns (x: Inode)
    requires Inv(s) && s.queue != []
    ensures s.queue[0].wd in s.mon.cache && s.queue[0].wd >= 0 && s.queue[0].mask == IN_CREATE + IN_ISDIR
    ensures x in s.fs.tree && s.fs.tree[x] == Under(s.watch[s.queue[0].wd], s.queue[0].name)
    ensures Loc(s.fs, x, Child(s.mon.cache[s.queue[0].wd], s.queue[0].name))
  {
    hide Loc, ForestOk, AllRooted, Covered, WalkOk;
    assert EventOk(s, s.queue[0]);
    x :| x in s.fs.tree && s.fs.tree[x] == Under(s.watch[s.queue[0].wd], s.queue[0].name);
    LocChild(s.fs, s.watch[s.queue[0].wd], s.mon.cache[s.queue[0].wd], x);
  }

  /** Only `x` was announced by the event taken, so all others stay due. */
  lemma TakesDue(s: State, s': State, x: Inode, y: Inode)
    requires s.queue != [] && s.walk == [] && Due(s, y) && SiblingsOk(s.fs.tree)
    requires s'.fs == s.fs && s'.watch == s.watch && s'.queue == s.queue[1..]
    requires s.queue[0].wd in s.watch && x in s.fs.tree && s.fs.tree[x] == Under(s.watch[s.queue[0].wd], s.queue[0].name)
    requires y != x
    ensures Due(s', y)
  {
    if Watched(s.watch, s.fs.tree[y].parent) {
      var i :| 0 <= i < |s.queue| && Announces(s, s.queue[i], y);
      assert i > 0;
      assert Announces(s', s'.queue[i - 1], y);
    }
  }

  lemma TakesInv(s: State, s': State)
    requires Inv(s) && Takes(s, s')
    ensures Inv(s')
  {
    hide Loc, AllRooted, LinksOk, RootsOk, Decide, Due;
    var x := HeadNamed(s);
    var ev := s.queue[0];
    var p := Child(s.mon.cache[ev.wd], ev.name);
    DecideNew(s.mon, ev.wd, ev.mask, ev.cookie, ev.name, Next(s.queue), true);
    assert ev == Event(ev.wd, ev.mask, ev.cookie, ev.name);
    if PathCached(s.mon.cache, p) {
      var wd :| wd in s.mon.cache && s.mon.cache[wd] == p;
      LocInjective(s.fs, x, s.watch[wd], p);
    } else {
      var x' :| Loc(s.fs, x', p) && s'.walk == [Enter(x', p)];
      LocInjective(s.fs, x, x', p);
      assert InWalk(s', x) by { assert s'.walk[0] in s'.walk; }
      InWalkDue(s', x);
    }
    forall y, q | Loc(s'.fs, y, q) && !Watched(s'.watch, y)
      ensures Due(s', y)
    {
      if y != x {
        TakesDue(s, s', x, y);
      }
    }
    TakesQueue(s, s');
  }

  lemma InWalkDue(s: State, x: Inode)
    requires InWalk(s, x)
    ensures Due(s, x)
  {
  }

  lemma TakesQueue(s: State, s': State)
    requires QueueOk(s) && s.queue != [] && s'.queue == s.queue[1..] && s'.fs == s.fs && s'.watch == s.watch
    ensures QueueOk(s')
  {
    forall i | 0 <= i < |s'.queue|
      ensures EventOk(s', s'.queue[i])
    {
      assert EventOk(s, s.queue[i + 1]);
    }
  }

  // ----- a directory is visited -----

  lemma VisitsWatches(s: State, wd: int, s': State)
    requires Inv(s) && Visits(s, wd, s')
    ensures WatchesOk(s'.watch) && Accurate(s'.fs, s'.watch, s'.mon.cache)
    ensures forall y :: Watched(s'.watch, y) <==> Watched(s.watch, y) || y == s.walk[0].x
    ensures forall u :: u in s.watch ==> u in s'.watch && s'.watch[u] == s.watch[u]
  {
    hide Loc, AllRooted, ForestOk, Covered, QueueOk;
    var x := s.walk[0].x;
    assert ItemOk(s, s.walk[0]);
    assert s'.watch[wd] == x;
    forall y | Watched(s.watch, y)
      ensures Watched(s'.watch, y)
    {
      var u :| u in s.watch && s.watch[u] == y;
      assert s'.watch[u] == y;
    }
    if !Watched(s.watch, x) {
      assert forall u :: u in s.watch ==> s.watch[u] != x;
      assert s'.mon.cache == s.mon.cache[wd := s.walk[0].path];
    }
  }

  lemma VisitsDue(s: State, wd: int, s': State, y: Inode)
    requires Visits(s, wd, s') && Due(s, y) && y != s.walk[0].x
    requires forall z :: Watched(s'.watch, z) <==> Watched(s.watch, z) || z == s.walk[0].x
    requires forall u :: u in s.watch ==> u in s'.watch && s'.watch[u] == s.watch[u]
    ensures Due(s', y)
  {
    hide Watched;
    var x := s.walk[0].x;
    if InWalk(s, y) {
      var it :| it in s.walk && it.Enter? && it.x == y;
      assert it in s.walk[1..];
      assert it in s'.walk;
    } else if s.fs.tree[y].parent == x {
      assert s'.walk[0] in s'.walk;
      assert InListing(s', y);
    } else if Reported(s, y) {
      var i :| 0 <= i < |s.queue| && Announces(s, s.queue[i], y);
      assert Announces(s', s'.queue[i], y);
    } else if InListing(s, y) {
      var it :| it in s.walk && it.List? && it.x == s.fs.tree[y].parent && y in it.must;
      assert it in s.walk[1..];
      assert it in s'.walk;
    }
  }

  lemma VisitsInv(s: State, wd: int, s': State)
    requires Inv(s) && Visits(s, wd, s')
    ensures Inv(s')
  {
    hide Loc, AllRooted, ForestOk, Due, Watched;
    VisitsWatches(s, wd, s');
    forall y, p | Loc(s'.fs, y, p) && !Watched(s'.watch, y)
      ensures Due(s', y)
    {
      VisitsDue(s, wd, s', y);
    }
    forall it | it in s'.walk
      ensures ItemOk(s', it)
    {
      if it != s'.walk[0] {
        assert it in s.walk;
        assert ItemOk(s, it);
      } else {
        assert ItemOk(s, s.walk[0]);
      }
    }
    forall i | 0 <= i < |s'.queue|
      ensures EventOk(s', s'.queue[i])
    {
      assert EventOk(s, s.queue[i]);
    }
  }

  // ----- entries are read -----

  lemma FindsInv(s: State, y: Inode, s': State)
    requires Inv(s) && Finds(s, y, s')
    ensures Inv(s')
  {
    hide Loc, AllRooted, ForestOk, Watched;
    var it := s.walk[0];
    assert ItemOk(s, it);
    LocChild(s.fs, it.x, it.path, y);
    forall u | u in s'.walk
      ensures ItemOk(s', u)
    {
      assert u == s'.walk[0] || u == s'.walk[1] || u in s.walk[1..];
      assert u in s.walk[1..] ==> ItemOk(s, u);
    }
    forall x, p | Loc(s'.fs, x, p) && !Watched(s'.watch, x)
      ensures Due(s', x)
    {
      FindsDue(s, y, s', x);
    }
    forall i | 0 <= i < |s'.queue|
      ensures EventOk(s', s'.queue[i])
    {
      assert EventOk(s, s.queue[i]);
    }
  }

  lemma FindsDue(s: State, y: Inode, s': State, x: Inode)
    requires Finds(s, y, s') && Due(s, x)
    ensures Due(s', x)
  {
    hide Watched;
    assert s'.walk[0] in s'.walk && s'.walk[1] in s'.walk;
    assert forall it :: it in s.walk[1..] ==> it in s'.walk;
    if InWalk(s, x) {
      var it :| it in s.walk && it.Enter? && it.x == x;
      assert it in s.walk[1..];
    } else if Reported(s, x) {
      var i :| 0 <= i < |s.queue| && Announces(s, s.queue[i], x);
      assert Announces(s', s'.queue[i], x);
    } else if InListing(s, x) {
      var it :| it in s.walk && it.List? && it.x == s.fs.tree[x].parent && x in it.must;
      if it == s.walk[0] {
        assert x == y || x in s'.walk[1].must;
      } else {
        assert it in s.walk[1..];
      }
    }
  }

  lemma FinishesInv(s: State, s': State)
    requires Inv(s) && Finishes(s, s')
    ensures Inv(s')
  {
    hide Loc, AllRooted, ForestOk, Watched;
    assert forall it :: it in s.walk && it != s.walk[0] ==> it in s'.walk;
    forall u | u in s'.walk
      ensures ItemOk(s', u)
    {
      assert ItemOk(s, u);
    }
    forall x, p | Loc(s'.fs, x, p) && !Watched(s'.watch, x)
      ensures Due(s', x)
    {
      FinishesDue(s, s', x);
    }
    forall i | 0 <= i < |s'.queue|
      ensures EventOk(s', s'.queue[i])
    {
      assert EventOk(s, s.queue[i]);
    }
  }

  lemma FinishesDue(s: State, s': State, x: Inode)
    requires Finishes(s, s') && Due(s, x)
    ensures Due(s', x)
  {
    hide Watched;
    assert forall it :: it in s.walk && it != s.walk[0] ==> it in s'.walk;
    if !InWalk(s, x) && Reported(s, x) {
      var i :| 0 <= i < |s.queue| && Announces(s, s.queue[i], x);
      assert Announces(s', s'.queue[i], x);
    }
  }

  // ----- every run -----

  lemma StepInv(s: State, s': State)
    requires Inv(s) && Step(s, s')
    ensures Inv(s')
  {
    hide Inv, Makes, Takes, Visits, Finds, Finishes;
    if x, at :| Makes(s, x, at, s') {
      MakesInv(s, x, at, s');
    } else if Takes(s, s') {
      TakesInv(s, s');
    } else if wd :| Visits(s, wd, s') {
      VisitsInv(s, wd, s');
    } else if y :| Finds(s, y, s') {
      FindsInv(s, y, s');
    } else {
      FinishesInv(s, s');
    }
  }

  ghost predicate IsRun(run: seq<State>) {
    && run != [] && Init(run[0])
    && forall i :: 0 <= i < |run| - 1 ==> Step(run[i], run[i + 1])
  }

  lemma {:induction false} RunInv(run: seq<State>, i: nat)
    requires IsRun(run) && i < |run|
    ensures Inv(run[i])
  {
    if i == 0 {
      InitInv(run[0]);
    } else {
      RunInv(run, i - 1);
      StepInv(run[i - 1], run[i]);
    }
  }

  /** The handler only ever skips an event or starts a walk; it never rebuilds the cache. */
  lemma RunBranches(run: seq<State>, i: nat)
    requires IsRun(run) && i < |run| && run[i].queue != []
    ensures KernelEvent(run[i].queue[0])
    ensures var a := Decide(run[i].mon, run[i].queue[0], Next(run[i].queue), true); a.Skip? || a.Watch?
  {
    hide Inv, IsRun, Decide;
    var s := run[i];
    RunInv(run, i);
    var x := HeadNamed(s);
    DecideNew(s.mon, s.queue[0].wd, s.queue[0].mask, s.queue[0].cookie, s.queue[0].name, Next(s.queue), true);
    assert s.queue[0] == Event(s.queue[0].wd, s.queue[0].mask, s.queue[0].cookie, s.queue[0].name);
  }

  /** `a` is unwatched, the directory holding it is watched, and a report of its creation is pending. */
  ghost predicate TopmostReported(s: State, a: Inode) {
    && !Watched(s.watch, a) && a in s.fs.tree && s.fs.tree[a].Under?
    && Watched(s.watch, s.fs.tree[a].parent) && Reported(s, a)
  }

  lemma {:induction false} TopmostFrom(s: State, r: Inode, names: seq<string>, x: Inode, p: string) returns (a: Inode)
    requires Inv(s) && s.walk == [] && LocVia(s.fs, r, names, x, p) && !Watched(s.watch, x)
    ensures Below(s.fs.tree, a, x) && TopmostReported(s, a)
    decreases |names|
  {
    hide AllRooted, Watched, QueueOk;
    assert Loc(s.fs, x, p);
    assert Due(s, x);
    var y := s.fs.tree[x].parent;
    if Watched(s.watch, y) {
      a := x;
      BelowSelf(s.fs.tree, x);
    } else {
      assert names != [];
      var init := names[..|names| - 1];
      a := TopmostFrom(s, r, init, y, Render(s.fs.roots[r], init));
      ChildBelow(s.fs.tree, y, x);
      BelowTrans(s.fs.tree, a, y, x);
    }
  }

  /** In every state of every run, between two events: of each monitored directory that is not yet
      watched, the topmost unwatched ancestor has its creation reported and the report is pending. */
  lemma RunTopmost(run: seq<State>, i: nat, x: Inode, p: string)
    requires IsRun(run) && i < |run| && run[i].walk == []
    requires Loc(run[i].fs, x, p) && !Watched(run[i].watch, x)
    ensures exists a :: Below(run[i].fs.tree, a, x) && TopmostReported(run[i], a)
  {
    hide Inv, Watched, Below, TopmostReported, IsRun;
    RunInv(run, i);
    var r, names :| LocVia(run[i].fs, r, names, x, p);
    var a := TopmostFrom(run[i], r, names, x, p);
  }

  /** No two cache entries have the same pathname, nor the same directory. */
  ghost predicate CachedOnce(s: State) {
    forall u, v :: u in s.mon.cache && v in s.mon.cache && u != v ==>
      s.mon.cache[u] != s.mon.cache[v] && u in s.watch && v in s.watch && s.watch[u] != s.watch[v]
  }

  /** In every state of every run the cached pathnames are right and no directory is cached twice;
      once the walk is over and the queue is empty, every monitored directory is cached. */
  lemma RunTheorem(run: seq<State>, i: nat)
    requires IsRun(run) && i < |run|
    ensures Accurate(run[i].fs, run[i].watch, run[i].mon.cache) && CachedOnce(run[i])
    ensures run[i].walk == [] && run[i].queue == [] ==> Complete(run[i].fs, run[i].watch)
  {
    hide Loc, AllRooted, ForestOk, IsRun, Covered, QueueOk, WalkOk, Watched, Below, TopmostReported;
    var s := run[i];
    RunInv(run, i);
    forall u, v | u in s.mon.cache && v in s.mon.cache && u != v
      ensures s.mon.cache[u] != s.mon.cache[v]
    {
      if s.mon.cache[u] == s.mon.cache[v] {
        LocInjective(s.fs, s.watch[u], s.watch[v], s.mon.cache[u]);
      }
    }
    if s.walk == [] && s.queue == [] {
      QuietComplete(s);
    }
  }

  lemma QuietComplete(s: State)
    requires Inv(s) && s.walk == [] && s.queue == []
    ensures Complete(s.fs, s.watch)
  {
    hide Inv, Watched, TopmostReported;
    forall x, p | Loc(s.fs, x, p)
      ensures Watched(s.watch, x)
    {
      if !Watched(s.watch, x) {
        var r, names :| LocVia(s.fs, r, names, x, p);
        var a := TopmostFrom(s, r, names, x, p);
        NothingReported(s, a);
      }
    }
  }

  lemma NothingReported(s: State, a: Inode)
    requires s.queue == []
    ensures !TopmostReported(s, a)
  {
  }
}
