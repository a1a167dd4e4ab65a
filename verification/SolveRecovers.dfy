/** How a ".." can make up for an earlier fault of `solve_dot`, exercise 18-03. */
module SolveRecovers {
  import opened Paths
  import opened SolvePaths
  import opened SolveDot
  import opened SolveSteady
  import opened SolveTheorems

  lemma StretchTail(done: string, path: string, i: nat, m: nat)
    requires i < m <= |path|
    ensures done + [path[i]] + path[i + 1..m] == done + path[i..m]
  {
    assert path[i..m] == [path[i]] + path[i + 1..m];
  }

  /** The loop copies a stretch without slashes. */
  lemma {:induction false} Copies(c: Cursors, path: string, m: nat) returns (d: Cursors)
    requires CursorsOk(c, |path|) && Unread(c, path) && c.i <= m <= |path| && SlashFree(path[c.i..m])
    ensures CursorsOk(d, |path|) && Unread(d, path) && Turns(d, |path|) == Turns(c, |path|)
    ensures d == Cursors(d.a, m, c.j + (m - c.i), c.jx, c.jy) && d.a[..d.j] == c.a[..c.j] + path[c.i..m]
    decreases m - c.i
  {
    hide Turn, Turns, Unread, SlashFree;
    if c.i == m {
      d := c;
    } else {
      StretchTail(c.a[..c.j], path, c.i, m);
      FreeTail(path, c.i, m);
      CopyTurn(c, path);
      TurnsNext(c, |path|);
      d := Copies(Turn(c, |path|).value, path, m);
    }
  }

  lemma TextTail(a: string, j: nat, jy: nat, dir: string, name: string)
    requires j <= |a| && jy + 1 == |dir| && a[..j] == dir + name
    ensures j == |dir| + |name| && a[jy + 1..j] == name && a[..jy + 1] == dir
  {
    assert a[jy + 1..j] == a[..j][jy + 1..];
    assert a[..jy + 1] == a[..j][..jy + 1];
  }

  lemma UnreadAt(c: Cursors, path: string)
    requires Unread(c, path) && c.i < |path|
    ensures c.a[c.i] == path[c.i]
  {
  }

  /** A short name is read, but its slash is not noticed. */
  lemma KeepShort(b: Cursors, path: string, dir: string, k: nat) returns (c: Cursors)
    requires CursorsOk(b, |path|) && Unread(b, path) && b.a[..b.j] == dir && b.jy + 1 == b.j
    requires b.i < k < |path| && path[k] == '/' && k - b.i < 3 && SlashFree(path[b.i..k]) && !Dotted(path[b.i..k])
    ensures CursorsOk(c, |path|) && Unread(c, path) && Turns(c, |path|) == Turns(b, |path|)
    ensures c.i == k + 1 && c.jy == b.jy && b.j + 2 <= c.j && c.a[..b.j] == dir
  {
    hide Turn, Turns, Unread, SlashFree, Dotted;
    var d := Copies(b, path, k);
    TextTail(d.a, d.j, d.jy, dir, path[b.i..k]);
    UnreadAt(d, path);
    TurnSlash(d, |path|, path[b.i..k]);
    TurnsNext(d, |path|);
    c := Turn(d, |path|).value;
    UnreadLater(d, path, c);
  }

  lemma KeepText(a: string, b: string, j: nat, n: nat, dir: string, ch: char)
    requires n <= j < |a| == |b| && a[..n] == dir && b[..j + 1] == a[..j] + [ch]
    ensures b[..n] == dir && (j + 1 < |b| ==> b[j + 1 := '/'][..n] == dir)
  {
    assert b[..n] == b[..j + 1][..n] == a[..j][..n] == a[..n];
  }

  /** The "." behind it is pushed together with it. */
  lemma PushDot(b: Cursors, path: string, dir: string) returns (c: Cursors)
    requires CursorsOk(b, |path|) && Unread(b, path) && b.jy + 1 == |dir| && |dir| + 2 <= b.j && b.a[..|dir|] == dir
    requires b.i + 1 < |path| && path[b.i] == '.' && path[b.i + 1] == '/'
    ensures CursorsOk(c, |path|) && Unread(c, path) && Turns(c, |path|) == Turns(b, |path|)
    ensures c.i == b.i + 2 && c.jx == b.jy && c.jy + 1 == c.j && |dir| <= c.j && c.a[..|dir|] == dir
  {
    hide Turn, Turns, Unread;
    CopyTurn(b, path);
    TurnsNext(b, |path|);
    var d := Turn(b, |path|).value;
    UnreadAt(d, path);
    TurnSlash(d, |path|, d.a[d.jy + 1..d.j]);
    TurnsNext(d, |path|);
    c := Turn(d, |path|).value;
    UnreadLater(d, path, c);
    KeepText(b.a, d.a, b.j, |dir|, dir, '.');
  }

  lemma DotDot(path: string, i: nat)
    requires i + 3 == |path| && path[i..] == "../"
    ensures path[i..i + 2] == ".." && path[i + 2] == '/' && SlashFree(path[i..i + 2])
  {
    assert path[i] == path[i..][0] && path[i + 1] == path[i..][1] && path[i + 2] == path[i..][2];
  }

  lemma PopBoth(c: Cursors, path: string, dir: string)
    requires CursorsOk(c, |path|) && Unread(c, path) && c.i + 3 == |path| && path[c.i..] == "../"
    requires c.jy + 1 == c.j && c.jx + 1 == |dir| <= c.j && c.a[..|dir|] == dir && 2 <= |dir| && dir[0] == '/'
    ensures Turns(c, |path|).Some? && var d := Turns(c, |path|).value; d.a[..d.j] == dir
  {
    var n := |path|;
    hide Turn, Unread, SlashBefore, SlashFree;
    DotDot(path, c.i);
    var d := Copies(c, path, c.i + 2);
    TextTail(d.a, d.j, c.jy, c.a[..c.j], "..");
    UnreadAt(d, path);
    TurnSlash(d, n, "..");
    assert d.a[..|dir|] == d.a[..d.j][..|dir|] == c.a[..c.j][..|dir|] == dir;
    assert d.a[0] == d.a[..|dir|][0];
    SlashBeforeSome(d.a, c.jx - 1);
  }

  lemma DirLong(names: seq<string>)
    requires names != []
    ensures |Dir(names)| >= 2
  {
    DirUp(names);
  }

  lemma SpansEnd(c: Cursors, mode: Mode, names: seq<string>)
    requires Spans(c, mode, names) && mode != Half
    ensures c.jy + 1 == |Dir(names)|
  {
  }

  lemma RightIs(c: Cursors, path: string)
    requires Absolute(path) && CursorsOk(c, |path|) && Turns(c, |path|) == Turns(Start(path), |path|)
    requires Turns(c, |path|).Some?
    requires var d := Turns(c, |path|).value; d.a[..d.j] == Normal(path)
    ensures Right(path)
  {
    hide Turns, Normal;
  }

  lemma RecoversRun(path: string, p: nat, k: nat)
    requires Absolute(path) && 1 <= p < k && k + 6 == |path| && k - p < 3 && path[k] == '/'
    requires SlashFree(path[p..k]) && !Dotted(path[p..k]) && path[k + 1] == '.' && path[k + 2] == '/' && path[k + 3..] == "../"
    requires Open(path[..p]) == "" && ModeAt(path, p) != Half && SteadyTo(path, p) && NamesAt(path, p) != []
    requires Normal(path) == Dir(NamesAt(path, p))
    ensures Right(path)
  {
    hide Open, ModeAt, NamesAt, SteadyTo, Dir, Dotted, SlashFree, Turns, Turn, Rep, Laid, Unread, Normal, StepOk, Spans, Right;
    var names := NamesAt(path, p);
    DirLong(names);
    var b := Reach(path, p);
    RepFacts(b, path, names, ModeAt(path, p));
    SpansEnd(b, ModeAt(path, p), names);
    assert b.a[..b.j] == Dir(names);
    var c := KeepShort(b, path, Dir(names), k);
    var d := PushDot(c, path, Dir(names));
    PopBoth(d, path, Dir(names));
    RightIs(d, path);
  }

  lemma RecoversNormal(p: string, name: string)
    requires Absolute(p) && Open(p) == "" && SlashFree(name) && !Dotted(name)
    ensures Normal(p + name + "/" + "." + "/" + ".." + "/") == Dir(Lexical(Closed(p)))
  {
    var cs, names := Closed(p), Lexical(Closed(p));
    assert Follow(Follow(Follow(names, name), "."), "..") == names;
    assert SlashFree(".") && SlashFree("..");
    hide Closed, Open, Lexical, Follow, Dir, SlashFree, Dotted;
    ReadMore(p, name);
    ReadMore(p + name + "/", ".");
    ReadMore(p + name + "/" + "." + "/", "..");
    LexicalSnoc(cs, name);
    LexicalSnoc(cs + [name], ".");
    LexicalSnoc(cs + [name] + ["."], "..");
    assert Dir(names) + "" == Dir(names);
  }

  lemma RecoversParts(p: string, name: string)
    ensures var path, k := p + name + "/" + "." + "/" + ".." + "/", |p| + |name|;
            && k + 6 == |path| && path[..|p|] == p && path[|p|..k] == name && path[k] == '/'
            && path[k + 1] == '.' && path[k + 2] == '/' && path[k + 3..] == "../"
  {
    var path := p + name + "/" + "." + "/" + ".." + "/";
    Cut(path, p, name, "/" + "." + "/" + ".." + "/");
    Cut(path, p + name + "/" + "." + "/", "", ".." + "/");
  }

  lemma RecoversTo(p: string, name: string)
    requires Absolute(p) && Open(p) == "" && Steady(p) && ModeOf(Closed(p)) != Half && Lexical(Closed(p)) != []
    requires 1 <= |name| < 3 && SlashFree(name) && !Dotted(name)
    ensures Right(p + name + "/" + "." + "/" + ".." + "/")
  {
    hide Open, ModeOf, Closed, Lexical, Dotted, StepOk, SlashFree, SteadyTo, Right, Normal, Dir;
    var path := p + name + "/" + "." + "/" + ".." + "/";
    RecoversParts(p, name);
    SteadyLocal(path, |p|, |p|);
    RecoversNormal(p, name);
    RecoversRun(path, |p|, |p| + |name|);
  }

  lemma RecoversFrom(p: string, name: string)
    requires Absolute(p) && Open(p) == "" && Steady(p) && ModeOf(Closed(p)) != Half
    requires 1 <= |name| < 3 && SlashFree(name) && !Dotted(name)
    ensures !Right(p + name + "/" + "." + "/")
  {
    hide Open, ModeOf, Closed, SlashFree, Steady, Right;
    var path := p + name + "/" + "." + "/";
    assert path + "" == path;
    ShortTheorem(p, name, ".", "");
  }

  /** Behind a steady prefix that reaches a name and ends no half group: a short name, "." and ".." together
      are resolved rightly, although the short name and "." are not. */
  lemma Recovers(p: string, name: string)
    requires Absolute(p) && Open(p) == "" && Steady(p) && ModeOf(Closed(p)) != Half && Lexical(Closed(p)) != []
    requires 1 <= |name| < 3 && SlashFree(name) && !Dotted(name)
    ensures Right(p + name + "/" + "." + "/" + ".." + "/") && !Right(p + name + "/" + "." + "/")
  {
    hide Open, ModeOf, Closed, Lexical, Dotted, SlashFree, Steady, Right, Absolute;
    RecoversTo(p, name);
    RecoversFrom(p, name);
  }

  lemma OneName(name: string)
    requires |name| >= 3 && SlashFree(name)
    ensures Dir([name]) == "/" + name + "/" && Lexical([name]) == [name] && ModeOf([name]) == Single
    ensures LongNames([name]) && !Escapes([name]) && Names([name])
  {
    assert name != "" && name != "." && name != "..";
    assert [] + [name] == [name];
    DirSnoc([], name);
    LexicalSnoc([], name);
    ModeSnoc([], name);
    EscapesSnoc([], name);
    hide Dir, Escapes;
  }

  lemma FooDir()
    ensures Dir(["foo"]) == "/foo/" && Lexical(["foo"]) == ["foo"] && ModeOf(["foo"]) == Single
    ensures LongNames(["foo"]) && !Escapes(["foo"]) && Names(["foo"])
  {
    assert SlashFree("foo");
    hide Dir, Lexical, ModeOf, LongNames, Escapes, Names, SlashFree;
    OneName("foo");
    assert "/" + "foo" + "/" == "/foo/";
  }

  lemma FooRead()
    ensures Absolute("/foo/") && Open("/foo/") == "" && Closed("/foo/") == ["foo"]
  {
    hide Closed, Open, Dir, Lexical, ModeOf, LongNames, Escapes, Names;
    FooDir();
    assert "/foo/" + "" == "/foo/";
    ReadDir(["foo"], "");
  }

  lemma FooSteady()
    ensures Steady("/foo/")
  {
    hide Closed, Open, Dir, Lexical, ModeOf, LongNames, Escapes, Names, SteadyTo, ModeAt;
    FooDir();
    FooRead();
    var path := "/foo/";
    assert path[..5] == path;
    LongAt(path, 5);
  }

  /** For example. */
  lemma RecoversExample()
    ensures Solve("/foo/a/./../") == Done("/foo/") && Normal("/foo/a/./../") == "/foo/"
  {
    hide Solve, Open, Closed, Steady, Lexical, ModeOf, Dir, Normal, LongNames, Escapes, Names;
    FooDir();
    FooRead();
    FooSteady();
    assert "/foo/" + "a" + "/" + "." + "/" + ".." + "/" == "/foo/a/./../";
    Recovers("/foo/", "a");
    RecoversNormal("/foo/", "a");
  }
}
