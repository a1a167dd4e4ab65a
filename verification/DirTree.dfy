/** The directory trees that the cache of `inotify_dtree.c` mirrors.  A directory is an inode; its
    link says which directory holds it and under what name.  A directory without such a link is
    either one of the monitored roots, known by the pathname given on the command line, or the top
    of a tree outside the monitored ones. */
module DirTree {
  import opened Paths

  type Inode = nat

  datatype Link = Top | Under(parent: Inode, name: string)

  type Tree = map<Inode, Link>

  /** `roots` holds the monitored root directories that still exist, with their pathnames. */
  datatype Forest = Forest(tree: Tree, roots: map<Inode, string>)

  /** Starting at `x` and going up, the names passed are `names` (last first) and `top` is reached. */
  ghost predicate At(tree: Tree, top: Inode, names: seq<string>, x: Inode)
    decreases |names|
  {
    if names == [] then x == top
    else
      && x in tree
      && tree[x].Under?
      && tree[x].name == names[|names| - 1]
      && At(tree, top, names[..|names| - 1], tree[x].parent)
  }

  /** `x` is `d` or one of its descendants. */
  ghost predicate Below(tree: Tree, d: Inode, x: Inode) {
    exists rel :: At(tree, d, rel, x)
  }

  ghost predicate IsTop(tree: Tree, r: Inode) {
    r in tree && tree[r].Top?
  }

  ghost predicate Rooted(tree: Tree, x: Inode) {
    exists r, names :: IsTop(tree, r) && At(tree, r, names, x)
  }

  /** Directories are held by directories, under names that contain no slash. */
  ghost predicate LinksOk(tree: Tree) {
    forall x :: x in tree && tree[x].Under? ==> tree[x].parent in tree && SlashFree(tree[x].name)
  }

  /** No directory holds two entries of one name. */
  ghost predicate SiblingsOk(tree: Tree) {
    forall x, y :: x in tree && y in tree && tree[x].Under? && tree[x] == tree[y] ==> x == y
  }

  /** Going up from a directory ends at a top. */
  ghost predicate AllRooted(tree: Tree) {
    forall x :: x in tree ==> Rooted(tree, x)
  }

  /** Monitored roots are tops and their pathnames are not nested in one another. */
  ghost predicate RootsOk(fs: Forest) {
    && (forall r :: r in fs.roots ==> IsTop(fs.tree, r))
    && (forall r1, r2 :: r1 in fs.roots && r2 in fs.roots && r1 != r2 ==> Apart(fs.roots[r1], fs.roots[r2]))
  }

  ghost predicate ForestOk(fs: Forest) {
    LinksOk(fs.tree) && SiblingsOk(fs.tree) && RootsOk(fs)
  }

  ghost predicate LocVia(fs: Forest, r: Inode, names: seq<string>, x: Inode, p: string) {
    r in fs.roots && At(fs.tree, r, names, x) && p == Render(fs.roots[r], names)
  }

  /** Directory `x` lies in a monitored tree and its pathname there is `p`. */
  ghost predicate Loc(fs: Forest, x: Inode, p: string) {
    exists r, names :: LocVia(fs, r, names, x, p)
  }

  ghost predicate Monitored(fs: Forest, x: Inode) {
    exists p :: Loc(fs, x, p)
  }

  // ----- chains of links -----

  lemma {:induction false} AtAppend(tree: Tree, r: Inode, a: seq<string>, y: Inode, b: seq<string>, x: Inode)
    requires At(tree, r, a, y) && At(tree, y, b, x)
    ensures At(tree, r, a + b, x)
    decreases |b|
  {
    if b == [] {
      assert a + b == a;
    } else {
      var n := |b| - 1;
      AtAppend(tree, r, a, y, b[..n], tree[x].parent);
      assert (a + b)[..|a + b| - 1] == a + b[..n];
    }
  }

  lemma {:induction false} AtSplit(tree: Tree, r: Inode, a: seq<string>, b: seq<string>, x: Inode) returns (y: Inode)
    requires At(tree, r, a + b, x)
    ensures At(tree, r, a, y) && At(tree, y, b, x)
    decreases |b|
  {
    if b == [] {
      assert a + b == a;
      y := x;
    } else {
      assert (a + b)[..|a + b| - 1] == a + b[..|b| - 1];
      y := AtSplit(tree, r, a, b[..|b| - 1], tree[x].parent);
    }
  }

  /** Going up from `x` to a top `r` and to any `d`: `d` is passed on the way to `r`. */
  lemma {:induction false} AtTwoWays(tree: Tree, r: Inode, names: seq<string>, d: Inode, rel: seq<string>, x: Inode)
    requires IsTop(tree, r) && At(tree, r, names, x) && At(tree, d, rel, x)
    ensures |rel| <= |names| && names[|names| - |rel|..] == rel
    ensures At(tree, r, names[..|names| - |rel|], d)
    decreases |rel|
  {
    if rel == [] {
      assert names[..|names|] == names;
    } else {
      var n, m := |names| - 1, |rel| - 1;
      AtTwoWays(tree, r, names[..n], d, rel[..m], tree[x].parent);
      SuffixSnoc(names, rel);
    }
  }

  lemma SuffixSnoc(names: seq<string>, rel: seq<string>)
    requires 1 <= |rel| <= |names| && names[|names| - 1] == rel[|rel| - 1]
    requires names[..|names| - 1][|names| - |rel|..] == rel[..|rel| - 1]
    ensures names[|names| - |rel|..] == rel
    ensures names[..|names| - 1][..|names| - |rel|] == names[..|names| - |rel|]
  {
    var n, k := |names| - 1, |names| - |rel|;
    assert names[k..] == names[..n][k..] + [names[n]];
    assert rel == rel[..|rel| - 1] + [rel[|rel| - 1]];
  }

  lemma AtTopUnique(tree: Tree, r1: Inode, a: seq<string>, r2: Inode, b: seq<string>, x: Inode)
    requires IsTop(tree, r1) && IsTop(tree, r2) && At(tree, r1, a, x) && At(tree, r2, b, x)
    ensures r1 == r2 && a == b
  {
    AtTwoWays(tree, r1, a, r2, b, x);
    AtTwoWays(tree, r2, b, r1, a, x);
    assert a[0..] == a && a[..0] == [];
  }

  /** Going up from `d` never comes back to `d`. */
  ghost predicate Acyclic(tree: Tree, d: Inode) {
    forall rel :: At(tree, d, rel, d) ==> rel == []
  }

  lemma RootedAcyclic(tree: Tree, d: Inode)
    requires AllRooted(tree)
    ensures Acyclic(tree, d)
  {
    forall rel | At(tree, d, rel, d)
      ensures rel == []
    {
      if rel != [] {
        var r, names :| IsTop(tree, r) && At(tree, r, names, d);
        AtAppend(tree, r, names, d, rel, d);
        AtTopUnique(tree, r, names, r, names + rel, d);
      }
    }
  }

  lemma {:induction false} AtNames(tree: Tree, r: Inode, names: seq<string>, x: Inode)
    requires LinksOk(tree) && At(tree, r, names, x)
    ensures Names(names)
    decreases |names|
  {
    if names != [] {
      var n := |names| - 1;
      AtNames(tree, r, names[..n], tree[x].parent);
      assert names == names[..n] + [names[n]];
    }
  }

  /** Going down the same names from the same directory leads to one place. */
  lemma {:induction false} AtFunctional(tree: Tree, r: Inode, names: seq<string>, x: Inode, y: Inode)
    requires SiblingsOk(tree) && At(tree, r, names, x) && At(tree, r, names, y)
    ensures x == y
    decreases |names|
  {
    if names != [] {
      AtFunctional(tree, r, names[..|names| - 1], tree[x].parent, tree[y].parent);
    }
  }

  lemma BelowTrans(tree: Tree, a: Inode, b: Inode, c: Inode)
    requires Below(tree, a, b) && Below(tree, b, c)
    ensures Below(tree, a, c)
  {
    var u :| At(tree, a, u, b);
    var v :| At(tree, b, v, c);
    AtAppend(tree, a, u, b, v, c);
  }

  // ----- pathnames of directories -----

  lemma LocUnique(fs: Forest, x: Inode, p: string, q: string)
    requires ForestOk(fs) && Loc(fs, x, p) && Loc(fs, x, q)
    ensures p == q
  {
    var r1, a :| LocVia(fs, r1, a, x, p);
    var r2, b :| LocVia(fs, r2, b, x, q);
    AtTopUnique(fs.tree, r1, a, r2, b, x);
  }

  lemma BelowAtOrBelow(fs: Forest, r1: Inode, a: seq<string>, d: Inode, r2: Inode, b: seq<string>, x: Inode)
    requires IsTop(fs.tree, r1) && IsTop(fs.tree, r2) && At(fs.tree, r1, a, d) && At(fs.tree, r2, b, x)
    requires SiblingsOk(fs.tree)
    ensures Below(fs.tree, d, x) <==> r1 == r2 && a <= b
  {
    if r1 == r2 && a <= b {
      assert b == a + b[|a|..];
      var y := AtSplit(fs.tree, r2, a, b[|a|..], x);
      AtFunctional(fs.tree, r1, a, d, y);
    }
    if Below(fs.tree, d, x) {
      var rel :| At(fs.tree, d, rel, x);
      AtTwoWays(fs.tree, r2, b, d, rel, x);
      AtTopUnique(fs.tree, r1, a, r2, b[..|b| - |rel|], d);
    }
  }

  /** The pathname test of the program is the descendant relation of the tree. */
  lemma LocOrder(fs: Forest, d: Inode, pd: string, x: Inode, p: string)
    requires ForestOk(fs) && Loc(fs, d, pd) && Loc(fs, x, p)
    ensures AtOrBelow(pd, p) <==> Below(fs.tree, d, x)
  {
    var r1, a :| LocVia(fs, r1, a, d, pd);
    var r2, b :| LocVia(fs, r2, b, x, p);
    AtNames(fs.tree, r1, a, d);
    AtNames(fs.tree, r2, b, x);
    RenderOrder(fs.roots[r1], a, fs.roots[r2], b);
    BelowAtOrBelow(fs, r1, a, d, r2, b, x);
    assert AtOrBelow(fs.roots[r1], fs.roots[r1]);
  }

  lemma LocInjective(fs: Forest, x: Inode, y: Inode, p: string)
    requires ForestOk(fs) && Loc(fs, x, p) && Loc(fs, y, p)
    ensures x == y
  {
    var r1, a :| LocVia(fs, r1, a, x, p);
    var r2, b :| LocVia(fs, r2, b, y, p);
    AtNames(fs.tree, r1, a, x);
    AtNames(fs.tree, r2, b, y);
    RenderInjective(fs.roots[r1], a, fs.roots[r2], b);
    assert AtOrBelow(fs.roots[r1], fs.roots[r2]);
    AtFunctional(fs.tree, r1, a, x, y);
  }

  lemma LocBelow(fs: Forest, d: Inode, pd: string, rel: seq<string>, x: Inode)
    requires Loc(fs, d, pd) && At(fs.tree, d, rel, x)
    ensures Loc(fs, x, Render(pd, rel))
  {
    var r, a :| LocVia(fs, r, a, d, pd);
    AtAppend(fs.tree, r, a, d, rel, x);
    RenderAppend(fs.roots[r], a, rel);
    assert LocVia(fs, r, a + rel, x, Render(pd, rel));
  }

  /** The ancestors of a monitored directory are monitored, and its pathname extends theirs. */
  lemma LocAbove(fs: Forest, d: Inode, rel: seq<string>, x: Inode, p: string) returns (pd: string)
    requires ForestOk(fs) && Loc(fs, x, p) && At(fs.tree, d, rel, x)
    ensures Loc(fs, d, pd) && p == Render(pd, rel)
  {
    var r, b :| LocVia(fs, r, b, x, p);
    AtTwoWays(fs.tree, r, b, d, rel, x);
    var k := |b| - |rel|;
    var a := b[..k];
    assert b == b[..k] + b[k..];
    RenderAppend(fs.roots[r], a, rel);
    pd := Render(fs.roots[r], a);
    assert LocVia(fs, r, a, d, pd);
  }

  lemma LocChild(fs: Forest, y: Inode, py: string, x: Inode)
    requires Loc(fs, y, py) && x in fs.tree && fs.tree[x].Under? && fs.tree[x].parent == y
    ensures Loc(fs, x, Child(py, fs.tree[x].name))
  {
    var rel := [fs.tree[x].name];
    assert rel[..0] == [];
    assert At(fs.tree, y, [], y);
    assert At(fs.tree, y, rel, x);
    LocBelow(fs, y, py, rel, x);
    assert Render(py, rel) == Child(Render(py, []), rel[0]);
  }

  lemma LocRoot(fs: Forest, r: Inode)
    requires r in fs.roots
    ensures Loc(fs, r, fs.roots[r])
  {
    assert LocVia(fs, r, [], r, fs.roots[r]);
  }

  /** The parent of a monitored directory that is not a root is monitored. */
  lemma LocInTree(fs: Forest, x: Inode, p: string)
    requires RootsOk(fs) && Loc(fs, x, p)
    ensures x in fs.tree
  {
    var r, names :| LocVia(fs, r, names, x, p);
  }

  lemma LocParent(fs: Forest, x: Inode, p: string) returns (py: string)
    requires ForestOk(fs) && Loc(fs, x, p) && x !in fs.roots
    ensures x in fs.tree && fs.tree[x].Under?
    ensures Loc(fs, fs.tree[x].parent, py) && p == Child(py, fs.tree[x].name)
  {
    var r, names :| LocVia(fs, r, names, x, p);
    assert names != [];
    var a := names[..|names| - 1];
    py := Render(fs.roots[r], a);
    assert LocVia(fs, r, a, fs.tree[x].parent, py);
  }

  lemma {:induction false} RewriteRender(a: string, b: string, rel: seq<string>)
    ensures AtOrBelow(a, Render(a, rel)) && Rewrite(a, b, Render(a, rel)) == Render(b, rel)
  {
    if rel != [] {
      RewriteRender(a, b, rel[..|rel| - 1]);
    }
  }

  // ----- two trees that differ in the link of one directory -----

  ghost predicate AgreeOff(t1: Tree, t2: Tree, d: Inode) {
    forall y :: y in t1 && y != d ==> y in t2 && t2[y] == t1[y]
  }

  /** What is not below the changed directory stays where it was. */
  lemma {:induction false} AtKeep(t1: Tree, t2: Tree, d: Inode, r: Inode, names: seq<string>, x: Inode)
    requires AgreeOff(t1, t2, d) && At(t1, r, names, x) && !Below(t1, d, x)
    ensures At(t2, r, names, x)
    decreases |names|
  {
    assert At(t1, d, [], d);
    if names != [] {
      var y, n := t1[x].parent, |names| - 1;
      if Below(t1, d, y) {
        ChildBelow(t1, y, x);
        BelowTrans(t1, d, y, x);
      }
      AtKeep(t1, t2, d, r, names[..n], y);
    }
  }

  /** What is below the changed directory keeps its place relative to it. */
  lemma {:induction false} AtInside(t1: Tree, t2: Tree, d: Inode, rel: seq<string>, x: Inode)
    requires AgreeOff(t1, t2, d) && Acyclic(t1, d) && At(t1, d, rel, x)
    ensures At(t2, d, rel, x)
    decreases |rel|
  {
    if rel != [] {
      assert x != d;
      AtInside(t1, t2, d, rel[..|rel| - 1], t1[x].parent);
    }
  }

  lemma ChildBelow(tree: Tree, y: Inode, x: Inode)
    requires x in tree && tree[x].Under? && tree[x].parent == y
    ensures At(tree, y, [tree[x].name], x) && Below(tree, y, x)
  {
    var rel := [tree[x].name];
    assert rel[..0] == [];
    assert At(tree, y, rel, x);
  }

  lemma LocKeep(f1: Forest, f2: Forest, d: Inode, x: Inode, p: string)
    requires AgreeOff(f1.tree, f2.tree, d) && Loc(f1, x, p) && !Below(f1.tree, d, x)
    requires forall r :: r in f1.roots && r != d ==> r in f2.roots && f2.roots[r] == f1.roots[r]
    ensures Loc(f2, x, p)
  {
    var r, names :| LocVia(f1, r, names, x, p);
    AtKeep(f1.tree, f2.tree, d, r, names, x);
    assert LocVia(f2, r, names, x, p);
  }

  /** A directory moved to a place outside its own subtree is again part of a sound tree. */
  lemma RelinkRooted(t1: Tree, d: Inode, l: Link)
    requires AllRooted(t1)
    requires l.Under? ==> l.parent in t1 && !Below(t1, d, l.parent)
    ensures AllRooted(t1[d := l])
  {
    var t2 := t1[d := l];
    RootedAcyclic(t1, d);
    if l.Under? {
      RootedKeep(t1, t2, d, l.parent);
      var r, names :| IsTop(t2, r) && At(t2, r, names, l.parent);
      ChildBelow(t2, l.parent, d);
      AtAppend(t2, r, names, l.parent, [l.name], d);
    } else {
      assert At(t2, d, [], d);
    }
    assert Rooted(t2, d);
    forall x | x in t2
      ensures Rooted(t2, x)
    {
      if Below(t1, d, x) {
        var rel :| At(t1, d, rel, x);
        AtInside(t1, t2, d, rel, x);
        var r, names :| IsTop(t2, r) && At(t2, r, names, d);
        AtAppend(t2, r, names, d, rel, x);
      } else {
        assert At(t1, d, [], d);
        assert x in t1;
        RootedKeep(t1, t2, d, x);
      }
    }
  }

  lemma RootedKeep(t1: Tree, t2: Tree, d: Inode, x: Inode)
    requires AgreeOff(t1, t2, d) && Rooted(t1, x) && !Below(t1, d, x)
    ensures Rooted(t2, x)
  {
    var r, names :| IsTop(t1, r) && At(t1, r, names, x);
    AtKeep(t1, t2, d, r, names, x);
  }
}
