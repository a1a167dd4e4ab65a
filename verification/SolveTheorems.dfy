/** When `solve_dot` of exercise 18-03 resolves an absolute pathname rightly: exactly, for all prefixes of it
    together and for what follows a steady prefix without a further "..". */
module SolveTheorems {
  import opened Paths
  import opened SolvePaths
  import opened SolveDot
  import opened SolveSteady

  // ----- the turn at a component that does not fit -----

  lemma RepFacts(c: Cursors, path: string, names: seq<string>, mode: Mode)
    requires Rep(c, path, names, mode)
    ensures Unread(c, path) && 1 <= c.i && Spans(c, mode, names)
    ensures c.j <= |c.a| && c.a[..c.j] == Dir(names) + Open(path[..c.i]) && c.a[0] == '/'
  {
    hide Dir, Open, Spans, Unread, Names;
    assert c.a[..c.j][0] == Dir(names)[0];
  }

  lemma HalfFacts(c: Cursors, names: seq<string>)
    requires Spans(c, Half, names)
    ensures |names| >= 1 && 1 <= |names[|names| - 1]| < 3 && !Dotted(names[|names| - 1])
  {
  }

  lemma NotDots(name: string, seg: string)
    requires 1 <= |name| < 3 && !Dotted(name) && |seg| > |name| && seg[0] == name[0]
    ensures !Dotted(seg) && (|seg| < 3 ==> forall ch :: Firm(seg + [ch]))
  {
    if |name| == 1 {
      assert name == [name[0]];
    }
    if |seg| < 3 {
      forall ch
        ensures Firm(seg + [ch])
      {
        assert (seg + [ch])[0] == seg[0];
      }
    }
  }

  lemma NameFirm(name: string)
    requires 1 <= |name| < 3 && !Dotted(name)
    ensures forall ch :: Firm(name + [ch])
  {
    if |name| == 1 {
      assert name == [name[0]];
    }
    forall ch
      ensures Firm(name + [ch])
    {
      assert (name + [ch])[0] == name[0];
    }
  }

  lemma LongerAstray(a: string, j: nat, names: seq<string>, name: string)
    requires j < |a| && Dotted(name) && j == |Dir(names)| + |name|
    ensures Astray(a[..j + 1], Dir(Follow(names, name))) && Astray(a[j := '/'][..j + 1], Dir(Follow(names, name)))
  {
    FollowDir(names, name);
  }

  /** Dots in a half group: they stay, behind the name. */
  lemma HalfFault(c: Cursors, path: string, names: seq<string>)
    requires Rep(c, path, names, Half) && Absolute(path) && c.i < |path| && path[c.i] == '/' && Dotted(Open(path[..c.i]))
    ensures CursorsOk(c, |path|) && Turn(c, |path|).Some?
    ensures Off(Turn(c, |path|).value, path, Follow(names, Open(path[..c.i])))
  {
    hide Dir, Open, Closed, Split, Turn, Rep, Unread, Astray, Firm, SlashFree, Follow, Dotted, Spans;
    RepFacts(c, path, names, Half);
    HalfFacts(c, names);
    var name, first := Open(path[..c.i]), names[|names| - 1];
    ReadNext(path, c.i);
    SegAt(c, path, names, Half);
    var seg := Seg(Half, names, name);
    assert seg[0] == first[0];
    NotDots(first, seg);
    LongerAstray(c.a, c.j, names, name);
    OffStays(c, path, seg, Follow(names, name));
  }

  lemma OtherAstray(a: string, j: nat, dir: string, name: string)
    requires j < |a| && a[..j] == dir + name && a[j] != '/'
    ensures Astray(a[..j + 1], dir + name + "/")
  {
    assert a[..j + 1][j] == a[j];
    assert (dir + name + "/")[j] == '/';
  }

  /** A short name behind which some other character stands. */
  lemma ShortFault(c: Cursors, path: string, names: seq<string>, mode: Mode)
    requires Rep(c, path, names, mode) && mode != Half && Absolute(path) && c.i < |path| && path[c.i] == '/'
    requires !Dotted(Open(path[..c.i])) && |Open(path[..c.i])| < 3 && !SlashAt(c.a, c.j)
    ensures CursorsOk(c, |path|) && Turn(c, |path|).Some?
    ensures var d := Turn(c, |path|).value;
            Off(d, path, Follow(names, Open(path[..c.i]))) && d.jy + 1 < d.j && Open(path[..d.i]) == ""
  {
    hide Dir, Open, Closed, Split, Turn, Rep, Unread, Astray, Firm, SlashFree, Follow, Dotted, Spans;
    RepFacts(c, path, names, mode);
    var name := Open(path[..c.i]);
    FollowName(names, name);
    NameFirm(name);
    ReadNext(path, c.i);
    SegAt(c, path, names, mode);
    DirSnoc(names, name);
    TurnSlash(c, |path|, name);
    OtherAstray(c.a, c.j, Dir(names), name);
    var d := Turn(c, |path|).value;
    UnreadLater(c, path, d);
    SegParts(c.a, c.jy, c.j, c.j);
    OffAfter(d, path, names + [name]);
  }

  lemma {:induction false} SlashBeforeSome(a: string, k: int)
    requires 0 <= k < |a| && a[0] == '/'
    ensures SlashBefore(a, k) >= 0
    decreases k
  {
    if k > 0 {
      SlashBeforeSome(a, k - 1);
    }
  }

  lemma UpShorter(names: seq<string>)
    requires |names| >= 2
    ensures |Dir(Up(names, 2))| < |Dir(Up(names, 1))| && (|Dir(Up(names, 2))| == 1 <==> |names| == 2)
  {
    UpUp(names, 1);
    DirUp(Up(names, 1));
    if |names| > 2 {
      DirUp(Up(names, 2));
    }
  }

  lemma UpNone(names: seq<string>)
    requires |names| < 2
    ensures |Dir(Up(names, 1))| == 1
  {
  }

  /** ".." when fewer than two names are left, or when the last two are a group: the array is left, or
      more is removed than should be. */
  lemma WholeFault(c: Cursors, path: string, names: seq<string>, mode: Mode)
    requires Rep(c, path, names, mode) && mode != Half && Absolute(path) && c.i < |path| && path[c.i] == '/'
    requires Open(path[..c.i]) == ".." && (mode == Pair || |names| < 2)
    ensures CursorsOk(c, |path|)
    ensures Turn(c, |path|).None? <==> |names| < 2 || |names| == 2
    ensures Turn(c, |path|).Some? ==>
              var d := Turn(c, |path|).value;
              Unread(d, path) && d.j < |Dir(Follow(names, ".."))| && Open(path[..d.i]) == ""
  {
    hide Dir, Open, Closed, Split, Turn, Rep, Unread, SlashBefore, Up, Dotted, SlashFree, Follow;
    RepFacts(c, path, names, mode);
    ReadNext(path, c.i);
    SegAt(c, path, names, mode);
    TurnSlash(c, |path|, "..");
    if |names| < 2 {
      UpNone(names);
      NoSlashBefore(c.a);
    } else {
      UpShorter(names);
      if |names| == 2 {
        NoSlashBefore(c.a);
      } else {
        SlashBeforeSome(c.a, c.jx - 1);
        UnreadLater(c, path, Turn(c, |path|).value);
        FollowUp(names);
      }
    }
  }

  /** Every ".." that does not fit: the array is left if and only if no group is half and at most two names
      are there; otherwise the directory held is a wrong one. */
  lemma UpFault(c: Cursors, path: string, names: seq<string>, mode: Mode)
    requires Rep(c, path, names, mode) && Absolute(path) && c.i < |path| && path[c.i] == '/'
    requires Open(path[..c.i]) == ".." && !Fits(mode, |names|, "..", SlashAt(c.a, c.j))
    ensures CursorsOk(c, |path|)
    ensures Turn(c, |path|).None? <==> mode != Half && |names| <= 2
    ensures Turn(c, |path|).Some? ==> var d := Turn(c, |path|).value; d.a[..d.j] != Dir(Follow(names, ".."))
  {
    hide Rep, Turn, Open, Dir, Follow, Unread, Off;
    RepFacts(c, path, names, mode);
    if mode == Half {
      HalfFault(c, path, names);
      SlashClears(path, c.i);
      OffDiffers(Turn(c, |path|).value, path, Follow(names, ".."));
    } else {
      WholeFault(c, path, names, mode);
    }
  }

  lemma SlashClears(path: string, m: nat)
    requires Absolute(path) && 1 <= m < |path| && path[m] == '/'
    ensures Open(path[..m + 1]) == ""
  {
    hide Open, Closed;
    ReadNext(path, m);
  }

  lemma OffDiffers(d: Cursors, path: string, names: seq<string>)
    requires Off(d, path, names) && Open(path[..d.i]) == ""
    ensures d.a[..d.j] != Dir(names)
  {
    hide Dir, Open, Firm, Unread;
  }

  lemma NoSlashBefore(a: string)
    ensures SlashBefore(a, -1) == -1
  {
  }

  lemma FollowName(names: seq<string>, name: string)
    requires !Dotted(name)
    ensures Follow(names, name) == names + [name] && name != ""
  {
  }

  lemma FollowUp(names: seq<string>)
    requires names != []
    ensures Follow(names, "..") == Up(names, 1)
  {
  }

  // ----- the rest of the run -----

  /** No slash from `m` on ends a "..". */
  ghost predicate NoUp(path: string, m: nat) {
    forall k :: m <= k < |path| && path[k] == '/' ==> Open(path[..k]) != ".."
  }

  lemma OffEnd(c: Cursors, path: string, names: seq<string>)
    requires Off(c, path, names) && c.i == |path|
    ensures c.a[..c.j] != Dir(names) + Open(path[..c.i])
  {
    hide Dir, Open, Firm, Unread;
    var base := c.j - |Open(path[..c.i])|;
    assert c.a[..base] == c.a[..c.j][..base];
  }

  /** Once off, the result is wrong if no ".." follows. */
  lemma {:induction false} OffRun(c: Cursors, path: string)
    requires Absolute(path) && c.i <= |path| && Off(c, path, NamesAt(path, c.i)) && NoUp(path, c.i)
    ensures CursorsOk(c, |path|) && Turns(c, |path|).Some?
    ensures var d := Turns(c, |path|).value; d.a[..d.j] != Normal(path)
    decreases |path| - c.i
  {
    hide Turn, Open, Closed, Split, NamesAt, ModeAt, Follow, Normal;
    assert CursorsOk(c, |path|) && 1 <= c.i;
    if c.i == |path| {
      hide Off;
      OffEnd(c, path, NamesAt(path, c.i));
      NormalAt(path, c.i);
      assert path[..c.i] == path;
    } else {
      assert path[c.i] == '/' ==> Open(path[..c.i]) != "..";
      hide Off;
      NextAt(path, c.i);
      if path[c.i] == '/' {
        OffSlash(c, path, NamesAt(path, c.i));
      } else {
        OffCopy(c, path, NamesAt(path, c.i));
      }
      OffRun(Turn(c, |path|).value, path);
    }
  }

  lemma RunOn(c: Cursors, path: string)
    requires CursorsOk(c, |path|) && c.i < |path| && Turns(c, |path|) == Turns(Start(path), |path|) && Absolute(path)
    ensures Turn(c, |path|).None? ==> Solve(path) == OutOfBounds
    ensures Turn(c, |path|).Some? ==> Turns(Turn(c, |path|).value, |path|) == Turns(Start(path), |path|)
  {
    hide Turn;
  }

  lemma Wrong(c: Cursors, path: string)
    requires Absolute(path) && CursorsOk(c, |path|) && Turns(c, |path|) == Turns(Start(path), |path|)
    requires Turns(c, |path|).Some?
    requires var d := Turns(c, |path|).value; d.a[..d.j] != Normal(path)
    ensures Solve(path).Done? && !Right(path)
  {
    hide Turns, Normal;
  }

  /** After a component that does not fit, other than a ".." behind a whole group, all is lost unless a
      ".." follows. */
  lemma Lost(path: string, m: nat)
    requires Absolute(path) && 1 <= m < |path| && path[m] == '/' && SteadyTo(path, m) && !StepOk(path, m)
    requires (Open(path[..m]) != ".." || ModeAt(path, m) == Half) && NoUp(path, m + 1)
    ensures Solve(path).Done? && !Right(path)
  {
    hide Rep, Laid, NamesAt, ModeAt, StepOk, Turn, Open, Normal, SteadyTo, Off, Right, Solve, NoUp, Follow;
    var c := Reach(path, m);
    FitsAt(c, path);
    NextAt(path, m);
    if Dotted(Open(path[..m])) {
      HalfFault(c, path, NamesAt(path, m));
    } else {
      ShortFault(c, path, NamesAt(path, m), ModeAt(path, m));
    }
    RunOn(c, path);
    OffRun(Turn(c, |path|).value, path);
    Wrong(Turn(c, |path|).value, path);
  }

  lemma {:induction false} FirstFault(path: string, m: nat, n: nat) returns (k: nat)
    requires m <= n <= |path| && SteadyTo(path, m) && !SteadyTo(path, n)
    ensures m <= k < n && 1 <= k && path[k] == '/' && SteadyTo(path, k) && !StepOk(path, k)
    decreases n - m
  {
    hide StepOk;
    if SteadyTo(path, m + 1) {
      k := FirstFault(path, m + 1, n);
    } else {
      k := m;
    }
  }

  /** If all components up to `m` fit and no ".." follows, the pathname is resolved rightly if and only if
      the others fit, too; in particular every pathname without "..". */
  lemma SteadyTheorem(path: string, m: nat)
    requires Absolute(path) && 1 <= m <= |path| && SteadyTo(path, m) && NoUp(path, m)
    ensures Solve(path).Done? && (Right(path) <==> Steady(path))
  {
    hide StepOk, Open, Right, Solve, ModeAt;
    if Steady(path) {
      SteadyRight(path);
      RightDone(path);
    } else {
      var k := FirstFault(path, m, |path|);
      hide SteadyTo;
      Lost(path, k);
    }
  }

  lemma RightDone(path: string)
    requires Right(path)
    ensures Solve(path).Done?
  {
  }

  // ----- one component at a time -----

  lemma {:induction false} CopyRun(c: Cursors, path: string)
    requires CursorsOk(c, |path|) && Unread(c, path) && SlashFree(path[c.i..])
    ensures Turns(c, |path|).Some? && Turns(c, |path|).value.j == c.j + (|path| - c.i)
    decreases |path| - c.i
  {
    hide Turn, Unread;
    if c.i < |path| {
      assert path[c.i..][0] == path[c.i] && path[c.i..][1..] == path[c.i + 1..];
      CopyTurn(c, path);
      CopyRun(Turn(c, |path|).value, path);
    }
  }

  lemma {:induction false} CopyNormal(path: string, m: nat, k: nat)
    requires Absolute(path) && 1 <= m <= k <= |path| && SlashFree(path[m..])
    ensures |Normal(path[..k])| == |Normal(path[..m])| + (k - m)
    decreases k
  {
    hide Open, NamesAt, ModeAt, Normal;
    if k > m {
      CopyNormal(path, m, k - 1);
      assert path[k - 1] == path[m..][k - 1 - m] != '/';
      NextAt(path, k - 1);
      NormalAt(path, k - 1);
      NormalAt(path, k);
    }
  }

  lemma UpLost(path: string, m: nat)
    requires Absolute(path) && 1 <= m < |path| && path[m] == '/' && SteadyTo(path, m) && !StepOk(path, m)
    requires Open(path[..m]) == ".." && ModeAt(path, m) != Half && SlashFree(path[m + 1..])
    ensures !Right(path)
  {
    hide Rep, Laid, NamesAt, ModeAt, StepOk, Turn, Turns, Open, Normal, SteadyTo, Right, SlashFree, Follow, Unread, Solve;
    var c := Reach(path, m);
    FitsAt(c, path);
    WholeFault(c, path, NamesAt(path, m), ModeAt(path, m));
    RunOn(c, path);
    if Turn(c, |path|).None? {
      OutWrong(path);
    } else {
      var d := Turn(c, |path|).value;
      NextAt(path, m);
      NormalAt(path, m + 1);
      CopyNormal(path, m + 1, |path|);
      assert path[..|path|] == path;
      CopyRun(d, path);
      Wrong(d, path);
    }
  }

  lemma OutWrong(path: string)
    requires Solve(path) == OutOfBounds
    ensures !Right(path)
  {
  }

  lemma NoSlash(path: string, m: nat, n: nat)
    requires m <= n <= |path| && SlashFree(path[m..n])
    ensures forall k :: m <= k < n ==> path[k] != '/'
  {
    forall k | m <= k < n
      ensures path[k] != '/'
    {
      assert path[m..n][k - m] == path[k];
    }
  }

  lemma SteadyOn(path: string, m: nat, n: nat)
    requires m <= n <= |path| && SteadyTo(path, m) && (1 <= m < n && path[m] == '/' ==> StepOk(path, m))
    requires m < n ==> SlashFree(path[m + 1..n])
    ensures SteadyTo(path, n)
  {
    hide StepOk;
    if m < n {
      NoSlash(path, m + 1, n);
    }
  }

  /** If all components before the last slash fit, the pathname is resolved rightly if and only if the
      component that this slash ends fits, too. */
  lemma LastTheorem(path: string, m: nat)
    requires Absolute(path) && 1 <= m < |path| && path[m] == '/' && SteadyTo(path, m) && SlashFree(path[m + 1..])
    ensures Right(path) <==> StepOk(path, m)
  {
    hide StepOk, Right, Open, ModeAt;
    if StepOk(path, m) {
      assert path[m + 1..|path|] == path[m + 1..];
      SteadyOn(path, m, |path|);
      SteadyRight(path);
    } else if Open(path[..m]) == ".." && ModeAt(path, m) != Half {
      UpLost(path, m);
    } else {
      hide SteadyTo;
      assert path[m + 1..|path|] == path[m + 1..];
      NoSlash(path, m + 1, |path|);
      Lost(path, m);
    }
  }

  // ----- all prefixes -----

  lemma {:induction false} NormalShort(path: string, m: nat)
    requires Absolute(path) && 1 <= m <= |path|
    ensures |Normal(path[..m])| <= m
  {
    hide Open, NamesAt, ModeAt, Normal, Follow, Dir;
    NormalAt(path, m);
    if m == 1 {
      NormalOne(path);
    } else {
      NormalShort(path, m - 1);
      NormalAt(path, m - 1);
      NextAt(path, m - 1);
      FollowDir(NamesAt(path, m - 1), Open(path[..m - 1]));
    }
  }

  lemma NormalOne(path: string)
    requires Absolute(path)
    ensures Normal(path[..1]) == "/"
  {
    assert path[..1] == "/";
    ReadOne();
    hide Closed, Open;
    assert Dir([]) + "" == "/";
  }

  lemma LayPrefix(over: string, under: string, n: nat)
    requires |over| <= n <= |under|
    ensures Lay(over, under)[..n] == Lay(over, under[..n]) && |Lay(over, under)| == |under|
  {
    assert under[..n][|over|..] == under[|over|..][..n - |over|];
  }

  lemma {:induction false} OverlayLocal(path: string, n: nat, m: nat)
    requires Absolute(path) && m <= n <= |path| && 1 <= n
    ensures |Overlay(path, m)| == |path| && Overlay(path[..n], m) == Overlay(path, m)[..n]
    decreases m
  {
    if m > 0 {
      OverlayLocal(path, n, m - 1);
      NormalShort(path, m);
      assert path[..n][..m] == path[..m];
      LayPrefix(Normal(path[..m]), Overlay(path, m - 1), n);
      hide Normal, Lay;
    }
  }

  /** Whether a component fits depends only on what comes before it. */
  lemma StepLocal(path: string, n: nat, m: nat)
    requires Absolute(path) && 1 <= m < n <= |path|
    ensures StepOk(path[..n], m) <==> StepOk(path, m)
  {
    OverlayLocal(path, n, m);
    NormalShort(path, m);
    assert path[..n][..m] == path[..m];
    hide Overlay, Normal, Closed, Open, ModeOf, Lexical, Fits;
    var k := |Normal(path[..m])|;
    assert Overlay(path, m)[..n][k] == Overlay(path, m)[k];
  }

  lemma SteadyLocal(path: string, n: nat, m: nat)
    requires Absolute(path) && 1 <= m <= n <= |path|
    ensures SteadyTo(path[..n], m) <==> SteadyTo(path, m)
  {
    hide StepOk;
    forall k | 1 <= k < m
      ensures StepOk(path[..n], k) <==> StepOk(path, k)
    {
      StepLocal(path, n, k);
    }
  }

  /** All components of a pathname fit if and only if each of its prefixes is resolved rightly. */
  lemma PrefixTheorem(path: string)
    requires Absolute(path)
    ensures Steady(path) <==> forall m :: 1 <= m <= |path| ==> Right(path[..m])
  {
    hide StepOk, Right;
    if Steady(path) {
      forall m | 1 <= m <= |path|
        ensures Right(path[..m])
      {
        SteadyLocal(path, m, m);
        SteadyRight(path[..m]);
      }
    } else {
      assert SteadyTo(path, 1);
      var k := FirstFault(path, 1, |path|);
      var q := path[..k + 1];
      SteadyLocal(path, k + 1, k);
      StepLocal(path, k + 1, k);
      assert SlashFree(q[k + 1..]);
      LastTheorem(q, k);
    }
  }

  // ----- names of three characters and more -----

  lemma LongNext(path: string, m: nat)
    requires Absolute(path) && 1 <= m < |path| && LongNames(Closed(path[..m + 1]))
    ensures LongNames(Closed(path[..m]))
    ensures path[m] == '/' ==> Dotted(Open(path[..m])) || |Open(path[..m])| >= 3
    ensures path[m] == '/' ==>
              (Escapes(Closed(path[..m + 1])) <==> Escapes(Closed(path[..m])) || (Open(path[..m]) == ".." && |NamesAt(path, m)| < 2))
    ensures path[m] != '/' ==> Closed(path[..m + 1]) == Closed(path[..m])
  {
    hide Closed, Open, Dotted;
    ReadNext(path, m);
    var cs, name := Closed(path[..m]), Open(path[..m]);
    if path[m] == '/' {
      EscapesSnoc(cs, name);
      assert (cs + [name])[|cs|] == name && forall k :: 0 <= k < |cs| ==> cs[k] == (cs + [name])[k];
    }
  }

  lemma LongFits(path: string, m: nat)
    requires m < |path| && ModeAt(path, m) == Single && (Dotted(Open(path[..m])) || |Open(path[..m])| >= 3)
    ensures StepOk(path, m) <==> !(Open(path[..m]) == ".." && |NamesAt(path, m)| < 2)
  {
    hide Overlay, Closed, Open, ModeOf, Lexical;
  }

  lemma LongOne(path: string)
    requires Absolute(path)
    ensures SteadyTo(path, 1) && ModeAt(path, 1) == Single && !Escapes(Closed(path[..1]))
  {
    assert path[..1] == "/";
    ReadOne();
  }

  lemma LongMode(mode: Mode, name: string)
    requires mode == Single && (Dotted(name) || |name| >= 3)
    ensures NextMode(mode, name) == Single
  {
  }

  lemma SteadyStep(path: string, m: nat)
    requires m < |path| && SteadyTo(path, m) && (path[m] == '/' ==> StepOk(path, m))
    ensures SteadyTo(path, m + 1)
  {
    hide StepOk;
  }

  lemma {:induction false} LongAt(path: string, m: nat)
    requires Absolute(path) && 1 <= m <= |path|
    requires LongNames(Closed(path[..m])) && !Escapes(Closed(path[..m]))
    ensures SteadyTo(path, m) && ModeAt(path, m) == Single
  {
    hide StepOk, SteadyTo, Closed, Open, Escapes, LongNames, ModeAt, NamesAt, Follow, NextMode, Dotted;
    LongOne(path);
    if m > 1 {
      LongNext(path, m - 1);
      LongAt(path, m - 1);
      NextAt(path, m - 1);
      if path[m - 1] == '/' {
        LongFits(path, m - 1);
        LongMode(Single, Open(path[..m - 1]));
      }
      SteadyStep(path, m - 1);
    }
  }

  lemma {:induction false} LongEscapes(path: string, m: nat)
    requires Absolute(path) && 1 <= m <= |path|
    requires LongNames(Closed(path[..m])) && Escapes(Closed(path[..m]))
    ensures Solve(path) == OutOfBounds
  {
    hide StepOk, Closed, Open, Escapes, LongNames, ModeAt, NamesAt, Follow, Solve, SteadyTo, Rep, Laid, Turn, Turns, Dotted;
    LongOne(path);
    if m > 1 {
      LongNext(path, m - 1);
      if Escapes(Closed(path[..m - 1])) {
        LongEscapes(path, m - 1);
      } else {
        LongAt(path, m - 1);
        var c := Reach(path, m - 1);
        WholeFault(c, path, NamesAt(path, m - 1), Single);
        RunOn(c, path);
      }
    }
  }

  /** With names of three characters and more, `solve_dot` leaves the array if and only if some ".." is
      met at depth 0 or 1, and otherwise resolves the pathname rightly. */
  lemma LongTheorem(path: string)
    requires Absolute(path) && LongNames(Closed(path))
    ensures if Escapes(Closed(path)) then Solve(path) == OutOfBounds else Right(path)
  {
    assert path[..|path|] == path;
    hide Closed, LongNames, Escapes, Right, Solve, SteadyTo, ModeAt;
    if Escapes(Closed(path)) {
      LongEscapes(path, |path|);
    } else {
      LongAt(path, |path|);
      SteadyRight(path);
    }
  }

  /** The shortest pathname for which the loop reads in front of the array. */
  lemma LeavesArray()
    ensures Solve("/../") == OutOfBounds
  {
    var cs := [".."];
    assert Dir([]) == "/" && cs[..0] == [] && Dir(cs) + "" == "/../";
    ReadDir(cs, "");
    assert Lexical([]) == [] && cs[0] == "..";
    hide Closed, Solve;
    LongTheorem("/../");
  }

  // ----- names of any length, without dots -----

  lemma PlainNormal(path: string)
    requires Absolute(path) && Plain(Closed(path))
    ensures Normal(path) == path
  {
    JoinClosed(path);
    PlainLexical(Closed(path));
  }

  lemma PlainNext(path: string, m: nat)
    requires Absolute(path) && 1 <= m < |path| && Plain(Closed(path[..m + 1]))
    ensures Plain(Closed(path[..m])) && (path[m] == '/' ==> !Dotted(Open(path[..m])))
  {
    hide Closed, Open, Dotted;
    ReadNext(path, m);
    var cs, name := Closed(path[..m]), Open(path[..m]);
    if path[m] == '/' {
      assert (cs + [name])[|cs|] == name && forall k :: 0 <= k < |cs| ==> cs[k] == (cs + [name])[k];
    }
  }

  lemma {:induction false} PlainAt(path: string, m: nat)
    requires Absolute(path) && 1 <= m <= |path| && Plain(Closed(path[..m]))
    ensures SteadyTo(path, m) && Overlay(path, m) == path
  {
    hide Closed, Open, Plain, Normal, Dotted;
    PlainNormal(path[..m]);
    if m == 1 {
      assert Overlay(path, 0) == path;
      assert path == path[..1] + path[1..];
    } else {
      PlainNext(path, m - 1);
      PlainAt(path, m - 1);
      PlainNormal(path[..m - 1]);
      assert path == path[..m] + path[m..];
      assert path[m - 1] == '/' ==> StepOk(path, m - 1) by {
        hide ModeOf, Lexical, Overlay;
      }
    }
  }

  /** Without empty components and dots, names of any length are left alone. */
  lemma PlainTheorem(path: string)
    requires Absolute(path) && Plain(Closed(path))
    ensures Right(path) && Solve(path) == Done(path)
  {
    assert path[..|path|] == path;
    hide Closed, Plain, SteadyTo, Overlay, Normal, Solve;
    PlainAt(path, |path|);
    SteadyRight(path);
    PlainNormal(path);
  }

  /** Resolving a pathname that was resolved rightly changes nothing. */
  lemma SolveAgain(path: string)
    requires Right(path)
    ensures Solve(Normal(path)) == Solve(path)
  {
    var names, last := Lexical(Closed(path)), Open(path);
    ClosedNames(path);
    LexicalPlain(Closed(path));
    ReadDir(names, last);
    assert Absolute(Dir(names) + last);
    hide Solve, Lexical, Closed, Open, Dir;
    PlainTheorem(Dir(names) + last);
  }

  // ----- names of any length, then dots -----

  lemma DirPrefix(names: seq<string>, name: string, last: string)
    ensures var path, m := Dir(names + [name]) + last, |Dir(names)| + |name|;
            && 1 <= m < |path| && Absolute(path)
            && path[..m] == Dir(names) + name && path[m] == '/' && path[m + 1..] == last
  {
    DirSnoc(names, name);
    hide Dir;
    var path, m := Dir(names + [name]) + last, |Dir(names)| + |name|;
    assert path == (Dir(names) + name) + ("/" + last);
  }

  lemma DotsFit(path: string, m: nat, names: seq<string>, dots: string)
    requires m < |path| && Closed(path[..m]) == names && Open(path[..m]) == dots && Plain(names) && Dotted(dots)
    ensures StepOk(path, m) <==> ModeOf(names) != Half && (dots == ".." ==> ModeOf(names) == Single && |names| >= 2)
  {
    PlainLexical(names);
    hide Closed, Open, Plain, ModeOf, Lexical, Overlay, Normal;
  }

  lemma DotsAt(path: string, m: nat, names: seq<string>, dots: string)
    requires Absolute(path) && 1 <= m < |path| && path[m] == '/' && SlashFree(path[m + 1..])
    requires Closed(path[..m]) == names && Open(path[..m]) == dots && Plain(names) && Dotted(dots)
    ensures Right(path) <==> ModeOf(names) != Half && (dots == ".." ==> ModeOf(names) == Single && |names| >= 2)
  {
    hide Closed, Open, Plain, ModeOf, SlashFree, Right, Overlay, SteadyTo, StepOk, Dotted;
    DotsFit(path, m, names, dots);
    PlainAt(path, m);
    LastTheorem(path, m);
  }

  lemma DotsFree(dots: string)
    requires Dotted(dots)
    ensures SlashFree(dots)
  {
  }

  /** For names of any length followed by an empty component, "." or "..", and then a last component: the
      dots are resolved rightly if and only if no group is half and, for "..", the last name is a group
      by itself and not the only one. */
  lemma DotsTheorem(names: seq<string>, dots: string, last: string)
    requires Names(names) && Plain(names) && Dotted(dots) && SlashFree(last)
    ensures Right(Dir(names + [dots]) + last) <==>
            ModeOf(names) != Half && (dots == ".." ==> ModeOf(names) == Single && |names| >= 2)
  {
    hide Closed, Open, Plain, Dir, ModeOf, SlashFree, Right, Names, Dotted, Absolute;
    DotsFree(dots);
    DirPrefix(names, dots, last);
    ReadDir(names, dots);
    DotsAt(Dir(names + [dots]) + last, |Dir(names)| + |dots|, names, dots);
  }

  // ----- a short name, then dots, then anything -----

  lemma SteadyGap(path: string, m: nat, n: nat)
    requires m <= n <= |path| && SteadyTo(path, m) && SlashFree(path[m..n])
    ensures SteadyTo(path, n)
  {
    hide StepOk;
    NoSlash(path, m, n);
  }

  lemma OffFacts(c: Cursors, path: string, names: seq<string>)
    requires Off(c, path, names)
    ensures CursorsOk(c, |path|) && 1 <= c.i && Unread(c, path)
  {
  }

  lemma TurnsNext(c: Cursors, n: nat)
    requires CursorsOk(c, n) && c.i < n && Turn(c, n).Some?
    ensures Turns(Turn(c, n).value, n) == Turns(c, n)
  {
    hide Turn;
  }

  lemma FreeTail(path: string, m: nat, n: nat)
    requires m < n <= |path| && SlashFree(path[m..n])
    ensures path[m] != '/' && SlashFree(path[m + 1..n])
  {
    NoSlash(path, m, n);
  }

  /** Off before a short stretch, off behind it. */
  lemma {:induction false} OffCopies(c: Cursors, path: string, m: nat) returns (d: Cursors)
    requires Absolute(path) && c.i <= m <= |path| && Off(c, path, NamesAt(path, c.i)) && SlashFree(path[c.i..m])
    ensures CursorsOk(c, |path|) && CursorsOk(d, |path|) && d.i == m && d.jy == c.jy && d.j == c.j + (m - c.i)
    ensures Off(d, path, NamesAt(path, m)) && Turns(d, |path|) == Turns(c, |path|)
    decreases m - c.i
  {
    hide Off, Turn, Turns, NamesAt, ModeAt, Open, Unread, SlashFree;
    OffFacts(c, path, NamesAt(path, c.i));
    if c.i == m {
      d := c;
    } else {
      FreeTail(path, c.i, m);
      CopyTurn(c, path);
      OffCopy(c, path, NamesAt(path, c.i));
      NextAt(path, c.i);
      TurnsNext(c, |path|);
      d := OffCopies(Turn(c, |path|).value, path, m);
    }
  }

  lemma {:induction false} ReadStretch(path: string, m: nat, n: nat)
    requires Absolute(path) && 1 <= m <= n <= |path| && Open(path[..m]) == "" && SlashFree(path[m..n])
    ensures Open(path[..n]) == path[m..n] && NamesAt(path, n) == NamesAt(path, m) && ModeAt(path, n) == ModeAt(path, m)
    decreases n
  {
    hide Open, NamesAt, ModeAt;
    if n > m {
      NoSlash(path, m, n);
      assert path[m..n] == path[m..n - 1] + [path[n - 1]];
      assert SlashFree(path[m..n - 1]);
      ReadStretch(path, m, n - 1);
      NextAt(path, n - 1);
    }
  }

  /** Behind a steady prefix that ends no half group: a short name up to `k`, dots up to `q`. */
  ghost predicate ShortAt(path: string, p: nat, k: nat, q: nat) {
    && 1 <= p < k < q < |path| && path[k] == '/' && path[q] == '/' && k - p < 3
    && SlashFree(path[p..k]) && !Dotted(path[p..k]) && Dotted(path[k + 1..q])
    && Open(path[..p]) == "" && ModeAt(path, p) != Half && SteadyTo(path, p)
  }

  ghost predicate ShortRead(path: string, k: nat, q: nat) {
    && 1 <= k < q < |path| && path[k] == '/' && path[q] == '/'
    && SteadyTo(path, k) && !Dotted(Open(path[..k])) && |Open(path[..k])| < 3 && ModeAt(path, k) != Half
    && ModeAt(path, q) == Half && Dotted(Open(path[..q])) && |Open(path[..q])| == q - (k + 1) && SlashFree(path[k + 1..q])
  }

  lemma ShortReads(path: string, p: nat, k: nat, q: nat)
    requires Absolute(path) && ShortAt(path, p, k, q)
    ensures ShortRead(path, k, q)
  {
    hide Open, ModeAt, NamesAt, SteadyTo, Follow, Dotted, SlashFree, NextMode;
    SteadyGap(path, p, k);
    ReadStretch(path, p, k);
    NextAt(path, k);
    ShortMode(ModeAt(path, k), path[p..k]);
    DotsFree(path[k + 1..q]);
    ReadStretch(path, k + 1, q);
  }

  lemma ShortMode(mode: Mode, name: string)
    requires mode != Half && !Dotted(name) && |name| < 3
    ensures NextMode(mode, name) == Half
  {
  }

  lemma HalfDoesNotFit(path: string, m: nat)
    requires m < |path| && ModeAt(path, m) == Half && Dotted(Open(path[..m]))
    ensures !StepOk(path, m)
  {
    hide Closed, Open, ModeOf, Lexical, Overlay, Normal;
  }

  lemma ShortLost(path: string, k: nat, q: nat)
    requires Absolute(path) && ShortRead(path, k, q) && StepOk(path, k) && NoUp(path, q + 1)
    ensures Solve(path).Done? && !Right(path)
  {
    hide Open, ModeAt, StepOk, SteadyTo, Right, Solve, NoUp, SlashFree, Dotted;
    SteadyStep(path, k);
    SteadyGap(path, k + 1, q);
    HalfDoesNotFit(path, q);
    Lost(path, q);
  }

  /** A short name that does not fit. */
  lemma ShortOff(path: string, k: nat, q: nat) returns (d: Cursors)
    requires Absolute(path) && ShortRead(path, k, q) && !StepOk(path, k)
    ensures CursorsOk(d, |path|) && d.i == k + 1 && Off(d, path, NamesAt(path, k + 1)) && d.jy + 1 < d.j
    ensures Turns(d, |path|) == Turns(Start(path), |path|)
  {
    hide Rep, Laid, NamesAt, ModeAt, StepOk, Turn, Open, SteadyTo, Off, Follow, SlashFree, Solve;
    var c := Reach(path, k);
    FitsAt(c, path);
    ShortFault(c, path, NamesAt(path, k), ModeAt(path, k));
    NextAt(path, k);
    RunOn(c, path);
    d := Turn(c, |path|).value;
  }

  lemma OffLost(c: Cursors, path: string)
    requires Absolute(path) && c.i < |path| && path[c.i] == '/' && Off(c, path, NamesAt(path, c.i))
    requires (Open(path[..c.i]) != ".." || c.jy + 3 < c.j) && NoUp(path, c.i + 1)
    requires CursorsOk(c, |path|) && Turns(c, |path|) == Turns(Start(path), |path|)
    ensures Solve(path).Done? && !Right(path)
  {
    hide NamesAt, ModeAt, Turn, Turns, Open, Normal, Off, Right, Solve, NoUp, Follow, Start;
    OffFacts(c, path, NamesAt(path, c.i));
    OffSlash(c, path, NamesAt(path, c.i));
    NextAt(path, c.i);
    TurnsNext(c, |path|);
    OffRun(Turn(c, |path|).value, path);
    Wrong(Turn(c, |path|).value, path);
  }

  lemma ShortReadFacts(path: string, k: nat, q: nat)
    requires ShortRead(path, k, q)
    ensures k + 1 <= q < |path| && path[q] == '/' && SlashFree(path[k + 1..q]) && (Open(path[..q]) == ".." ==> q == k + 3)
  {
    hide Open, SlashFree, SteadyTo, ModeAt;
  }

  lemma ShortStray(path: string, k: nat, q: nat)
    requires Absolute(path) && ShortRead(path, k, q) && !StepOk(path, k) && NoUp(path, q + 1)
    ensures Solve(path).Done? && !Right(path)
  {
    hide NamesAt, StepOk, Turns, Open, Off, Right, Solve, NoUp, SlashFree, ShortRead, Start, CursorsOk;
    ShortReadFacts(path, k, q);
    var c := ShortOff(path, k, q);
    var d := OffCopies(c, path, q);
    OffLost(d, path);
  }

  lemma ShortParts(p: string, name: string, dots: string, rest: string)
    ensures var path, k, q := p + name + "/" + dots + "/" + rest, |p| + |name|, |p| + |name| + 1 + |dots|;
            && q < |path| && path[..|p|] == p && path[|p|..k] == name && path[k] == '/'
            && path[k + 1..q] == dots && path[q] == '/' && |p + name + "/" + dots + "/"| == q + 1
  {
    var path := p + name + "/" + dots + "/" + rest;
    Cut(path, p, name, "/" + dots + "/" + rest);
    Cut(path, p + name + "/", dots, "/" + rest);
  }

  lemma Cut(s: string, a: string, b: string, c: string)
    requires s == a + (b + c) || s == a + b + c
    ensures s[..|a|] == a && s[|a|..|a| + |b|] == b && s[|a| + |b|..] == c
  {
    assert a + (b + c) == a + b + c;
  }

  /** After a prefix that is steady and ends no half group: a name of one or two characters followed by an
      empty component, "." or ".." spoils the pathname whatever else follows, unless that contains a "..". */
  lemma ShortTheorem(p: string, name: string, dots: string, rest: string)
    requires Absolute(p) && Open(p) == "" && Steady(p) && ModeOf(Closed(p)) != Half
    requires 1 <= |name| < 3 && SlashFree(name) && !Dotted(name) && Dotted(dots)
    requires NoUp(p + name + "/" + dots + "/" + rest, |p + name + "/" + dots + "/"|)
    ensures Solve(p + name + "/" + dots + "/" + rest).Done? && !Right(p + name + "/" + dots + "/" + rest)
  {
    hide Open, ModeOf, Closed, Dotted, StepOk, SlashFree, SteadyTo, ShortRead, NoUp, Solve, Right;
    var path, k, q := p + name + "/" + dots + "/" + rest, |p| + |name|, |p| + |name| + 1 + |dots|;
    ShortParts(p, name, dots, rest);
    SteadyLocal(path, |p|, |p|);
    assert ShortAt(path, |p|, k, q);
    ShortReads(path, |p|, k, q);
    if StepOk(path, k) {
      ShortLost(path, k, q);
    } else {
      ShortStray(path, k, q);
    }
  }
}
