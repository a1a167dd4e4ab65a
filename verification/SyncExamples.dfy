/** Every operation can be followed up, and two operations after which the cache is out of step. */
module SyncExamples {
  import opened Basics
  import opened Paths
  import opened DirTree
  import opened Monitor
  import opened Sync
  import opened SyncRun
  import opened SyncTheorem
  import opened SyncProgress

  lemma OnKernel(watch: Watches, x: Inode, mask: nat, cookie: nat, name: string)
    requires WatchesOk(watch) && (Has(mask, IN_IGNORED) ==> mask == IN_IGNORED)
    ensures forall ev :: ev in On(watch, x, mask, cookie, name) ==> KernelEvent(ev)
  {
  }

  lemma ReportsKernel(s: Sys, op: Op)
    requires Enabled(s.fs, op) && WatchesOk(s.watch)
    ensures forall ev :: ev in Reports(s, op) ==> KernelEvent(ev)
  {
    hide Enabled;
    forall x, cookie, name
      ensures forall ev :: ev in On(s.watch, x, IN_CREATE + IN_ISDIR, cookie, name) ==> KernelEvent(ev)
      ensures forall ev :: ev in On(s.watch, x, IN_MOVED_FROM + IN_ISDIR, cookie, name) ==> KernelEvent(ev)
      ensures forall ev :: ev in On(s.watch, x, IN_MOVED_TO + IN_ISDIR, cookie, name) ==> KernelEvent(ev)
      ensures forall ev :: ev in On(s.watch, x, IN_DELETE_SELF, cookie, name) ==> KernelEvent(ev)
      ensures forall ev :: ev in On(s.watch, x, IN_IGNORED, cookie, name) ==> KernelEvent(ev)
    {
      OnKernel(s.watch, x, IN_CREATE + IN_ISDIR, cookie, name);
      OnKernel(s.watch, x, IN_MOVED_FROM + IN_ISDIR, cookie, name);
      OnKernel(s.watch, x, IN_MOVED_TO + IN_ISDIR, cookie, name);
      OnKernel(s.watch, x, IN_DELETE_SELF, cookie, name);
      OnKernel(s.watch, x, IN_IGNORED, cookie, name);
    }
    hide On;
  }

  lemma NewRootsOk(fs: Forest, op: Op)
    requires RootsOk(fs) && Enabled(fs, op)
    ensures RootsOk(NewForest(fs, op))
  {
  }

  /** After every operation there is a way to handle all its events. */
  lemma RoundExists(s: Sys, op: Op) returns (n: nat, s': Sys)
    requires Synced(s) && s.queue == [] && Enabled(s.fs, op)
    ensures Drains(Perform(s, op), n, s')
  {
    hide Loc, AllRooted, Complete, Accurate, SelfOk, RootsAgree, RootsOk, Enabled, Reports, Drains, KernelEvent;
    NewRootsOk(s.fs, op);
    ReportsKernel(s, op);
    var t := Perform(s, op);
    assert t.queue == Reports(s, op);
    n, s' := EveryQueueDrains(t);
  }

  // ----- a root "r" that holds "a", a root "q", and a directory outside -----

  function Tree0(): Tree {
    map[0 := Top, 1 := Under(0, "a"), 2 := Top, 3 := Top]
  }

  function Sys0(): Sys {
    Sys(Forest(Tree0(), map[0 := "r", 3 := "q"]), map[7 := 0, 8 := 1, 9 := 3], {7, 9},
        Mon(map[7 := "r", 8 := "r/a", 9 := "q"], [Some("r"), Some("q")]), [], false)
  }

  lemma Places()
    ensures forall r, names, x :: At(Tree0(), r, names, x) ==>
              (names == [] && x == r) || (names == ["a"] && r == 0 && x == 1)
    ensures At(Tree0(), 0, ["a"], 1) && forall r :: At(Tree0(), r, [], r)
  {
    forall r, names, x | At(Tree0(), r, names, x)
      ensures (names == [] && x == r) || (names == ["a"] && r == 0 && x == 1)
    {
      if names != [] {
        assert x == 1 && At(Tree0(), r, names[..|names| - 1], 0);
        assert names[..|names| - 1] == [];
      }
    }
    assert ["a"][..0] == [];
  }

  lemma Locs0(x: Inode, p: string)
    ensures Loc(Sys0().fs, x, p) <==> (x == 0 && p == "r") || (x == 1 && p == "r/a") || (x == 3 && p == "q")
  {
    var fs := Sys0().fs;
    Places();
    hide At;
    assert Render("r", ["a"]) == Child(Render("r", ["a"][..0]), "a") == "r/a";
    assert LocVia(fs, 0, [], 0, "r") && LocVia(fs, 0, ["a"], 1, "r/a") && LocVia(fs, 3, [], 3, "q");
  }

  lemma Rooted0()
    ensures AllRooted(Tree0())
  {
    Places();
    hide At;
    assert IsTop(Tree0(), 0) && At(Tree0(), 0, [], 0) && At(Tree0(), 0, ["a"], 1);
    assert Rooted(Tree0(), 0) && Rooted(Tree0(), 1);
    assert IsTop(Tree0(), 2) && At(Tree0(), 2, [], 2);
    assert Rooted(Tree0(), 2);
    assert IsTop(Tree0(), 3) && At(Tree0(), 3, [], 3);
    assert Rooted(Tree0(), 3);
    hide Rooted, IsTop;
  }

  lemma Watches0()
    ensures var s := Sys0(); WatchesOk(s.watch) && Accurate(s.fs, s.watch, s.mon.cache) && Complete(s.fs, s.watch)
  {
    var s := Sys0();
    Locs0(0, "r");
    Locs0(1, "r/a");
    Locs0(3, "q");
    hide Loc;
    assert s.watch[7] == 0 && s.watch[8] == 1 && s.watch[9] == 3;
    forall x, p | Loc(s.fs, x, p)
      ensures Watched(s.watch, x)
    {
      Locs0(x, p);
    }
  }

  lemma Links0()
    ensures LinksOk(Tree0()) && SiblingsOk(Tree0())
  {
    assert forall x :: x in Tree0() && Tree0()[x].Under? ==> x == 1;
    assert 0 in Tree0() && Tree0()[1] == Under(0, "a");
    hide Tree0;
  }

  lemma Tops0()
    ensures RootsOk(Sys0().fs)
  {
    var fs := Sys0().fs;
    assert "r"[0] != "q"[0];
    assert Apart("r", "q") && Apart("q", "r");
    assert forall r :: r in fs.roots ==> r == 0 || r == 3;
    assert fs.roots[0] == "r" && fs.roots[3] == "q" && IsTop(fs.tree, 0) && IsTop(fs.tree, 3);
    hide Sys0, IsTop, Apart;
  }

  lemma Forest0()
    ensures ForestOk(Sys0().fs)
  {
    hide LinksOk, SiblingsOk, RootsOk;
    Links0();
    Tops0();
  }

  lemma Self0()
    ensures var s := Sys0(); SelfOk(s.fs.roots, s.watch, s.selfWds)
  {
    var s := Sys0();
    assert s.watch[7] == 0 && s.watch[8] == 1 && s.watch[9] == 3;
  }

  lemma Roots0()
    ensures var s := Sys0(); RootsAgree(s.fs.roots, s.mon.roots)
  {
    var s := Sys0();
    assert s.mon.roots[0] == Some("r") && s.mon.roots[1] == Some("q");
    assert s.fs.roots[0] == "r" && s.fs.roots[3] == "q";
    assert "r"[0] != "q"[0];
    assert DistinctRoots(s.mon.roots);
  }

  lemma Synced0()
    ensures Synced(Sys0())
  {
    hide AllRooted, ForestOk, WatchesOk, Accurate, Complete, SelfOk, RootsAgree;
    Rooted0();
    Watches0();
    Forest0();
    Self0();
    Roots0();
    assert 0 in Sys0().fs.roots;
  }

  ghost predicate Loses(s: Sys, op: Op) {
    && Synced(s) && s.queue == [] && Enabled(s.fs, op)
    && op.Move? && exists n, s' :: Drains(Perform(s, op), n, s') && !s'.exited && Lost(s', op.d)
  }

  lemma LosesIf(s: Sys, op: Op)
    requires Synced(s) && s.queue == [] && Enabled(s.fs, op)
    requires !Followed(s.fs, op) && NewForest(s.fs, op).roots != map[]
    ensures Loses(s, op)
  {
    hide Synced, Drains, Enabled, Followed;
    var n, s' := RoundExists(s, op);
    RoundTheorem(s, op, n, s');
  }

  lemma NotAbove0(d: Inode)
    requires d == 2 || d == 3
    ensures !Below(Tree0(), d, 0)
  {
    Places();
    hide At;
  }

  lemma Enabled0()
    ensures Enabled(Sys0().fs, Move(2, Under(0, "a"), Some(1), 1))
    ensures Enabled(Sys0().fs, Move(3, Under(0, "b"), None, 1))
  {
    NotAbove0(2);
    NotAbove0(3);
    hide Below;
  }

  lemma Followed0()
    ensures !Followed(Sys0().fs, Move(2, Under(0, "a"), Some(1), 1))
    ensures !Followed(Sys0().fs, Move(3, Under(0, "b"), None, 1))
  {
    Locs0(0, "r");
    forall p
      ensures !Loc(Sys0().fs, 2, p)
    {
      Locs0(2, p);
    }
    hide Loc;
  }

  lemma Left0()
    ensures NewForest(Sys0().fs, Move(2, Under(0, "a"), Some(1), 1)).roots != map[]
    ensures NewForest(Sys0().fs, Move(3, Under(0, "b"), None, 1)).roots != map[]
  {
    assert 0 in NewForest(Sys0().fs, Move(2, Under(0, "a"), Some(1), 1)).roots;
    assert 0 in NewForest(Sys0().fs, Move(3, Under(0, "b"), None, 1)).roots;
  }

  /** Moving the outside directory onto the empty "r/a" leaves it unwatched: the handler finds "r/a"
      in the cache and skips it, and the report that the replaced directory is gone empties the slot.
      Moving the root "q" to "r/b" leaves it unwatched, too: the walk of "r/b" meets the watch that
      the directory still has, and the report that the root itself moved removes that watch. */
  lemma LostMoves()
    ensures Loses(Sys0(), Move(2, Under(0, "a"), Some(1), 1))
    ensures Loses(Sys0(), Move(3, Under(0, "b"), None, 1))
  {
    hide Synced, Enabled, Followed, NewForest, Loses;
    Synced0();
    Enabled0();
    Followed0();
    Left0();
    LosesIf(Sys0(), Move(2, Under(0, "a"), Some(1), 1));
    LosesIf(Sys0(), Move(3, Under(0, "b"), None, 1));
  }
}
