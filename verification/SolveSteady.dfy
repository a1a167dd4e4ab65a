/** The loop of `solve_dot`, exercise 18-03, on absolute pathnames: what the array holds as long as every
    component fits, and what a component that does not fit leads to. */
module SolveSteady {
  import opened Basics
  import opened Paths
  import opened SolvePaths
  import opened SolveDot

  /** The result is the directory reached and the last component as it was. */
  ghost predicate Right(path: string) {
    Solve(path) == Done(Normal(path))
  }

  // ----- names in groups -----

  /** The slash of a name of one or two characters is not noticed, so that the name and the next one
      form a group.  `Single`: `jx` and `jy` stand before and behind the last name.  `Pair`: they stand
      before and behind the last two.  `Half`: `jy` stands before the last name. */
  datatype Mode = Single | Pair | Half

  function NextMode(mode: Mode, c: string): Mode {
    if c == "" || c == "." then mode
    else if c == ".." then Single
    else if mode == Half then Pair
    else if |c| < 3 then Half
    else Single
  }

  function ModeOf(cs: seq<string>): Mode {
    if cs == [] then Single else NextMode(ModeOf(cs[..|cs| - 1]), cs[|cs| - 1])
  }

  /** A component is resolved rightly when a group is not left open by dots; when ".." removes one
      name, and not the only one; and when a slash happens to stand behind a name of one or two characters. */
  predicate Fits(mode: Mode, depth: nat, name: string, slash: bool) {
    if Dotted(name) then mode != Half && (name == ".." ==> mode == Single && depth >= 2)
    else mode == Half || |name| >= 3 || slash
  }

  // ----- what earlier turns leave in the array -----

  function Lay(over: string, under: string): string {
    if |over| <= |under| then over + under[|over|..] else over
  }

  /** The pathname with the normal forms of its prefixes laid over it, one after the other. */
  function Overlay(path: string, m: nat): string
    requires m <= |path|
  {
    if m == 0 then path else Lay(Normal(path[..m]), Overlay(path, m - 1))
  }

  predicate SlashAt(s: string, k: nat) {
    k < |s| && s[k] == '/'
  }

  /** The component that the slash at `m` ends is resolved rightly if all before it were. */
  predicate StepOk(path: string, m: nat)
    requires m < |path|
  {
    var cs := Closed(path[..m]);
    Fits(ModeOf(cs), |Lexical(cs)|, Open(path[..m]), SlashAt(Overlay(path, m), |Normal(path[..m])|))
  }

  ghost predicate SteadyTo(path: string, m: nat)
    requires m <= |path|
  {
    forall k :: 1 <= k < m && path[k] == '/' ==> StepOk(path, k)
  }

  ghost predicate Steady(path: string) {
    SteadyTo(path, |path|)
  }

  // ----- the array, when all has been right so far -----

  function Up(names: seq<string>, k: nat): seq<string> {
    if |names| < k then [] else names[..|names| - k]
  }

  ghost predicate Spans(c: Cursors, mode: Mode, names: seq<string>) {
    match mode
    case Single => c.jy + 1 == |Dir(names)| && c.jx + 1 == |Dir(Up(names, 1))|
    case Pair => |names| >= 2 && c.jy + 1 == |Dir(names)| && c.jx + 1 == |Dir(Up(names, 2))|
    case Half =>
      && |names| >= 1 && c.jy + 1 == |Dir(Up(names, 1))|
      && 1 <= |names[|names| - 1]| < 3 && !Dotted(names[|names| - 1])
  }

  ghost predicate Unread(c: Cursors, path: string) {
    |c.a| == |path| + 1 && forall k :: c.i <= k < |path| ==> c.a[k] == path[k]
  }

  /** After reading `path[..c.i]`: the directory `names` and the open component, then the unread rest. */
  ghost predicate Rep(c: Cursors, path: string, names: seq<string>, mode: Mode) {
    && CursorsOk(c, |path|) && 1 <= c.i && Names(names) && Unread(c, path)
    && c.a[..c.j] == Dir(names) + Open(path[..c.i])
    && Spans(c, mode, names)
  }

  lemma DirUp(names: seq<string>)
    requires names != []
    ensures Dir(names) == Dir(Up(names, 1)) + names[|names| - 1] + "/"
  {
  }

  lemma DirSnoc(names: seq<string>, name: string)
    ensures Up(names + [name], 1) == names && Dir(names + [name]) == Dir(names) + name + "/"
  {
    assert (names + [name])[..|names|] == names;
  }

  lemma UpUp(names: seq<string>, k: nat)
    requires |names| >= k
    ensures Up(Up(names, k), 1) == Up(names, k + 1)
  {
  }

  lemma UpSnoc(names: seq<string>, name: string, k: nat)
    ensures Up(names + [name], k + 1) == Up(names, k)
  {
  }

  lemma {:induction false} SlashBeforeIs(a: seq<char>, k: int, lo: nat)
    requires lo <= k < |a| && a[lo] == '/' && forall i :: lo < i <= k ==> a[i] != '/'
    ensures SlashBefore(a, k) == lo
    decreases k
  {
    if a[k] != '/' {
      SlashBeforeIs(a, k - 1, lo);
    }
  }

  /** From the last slash of a directory, the scan backwards finds the one before it. */
  lemma ScanDir(a: string, names: seq<string>)
    requires names != [] && Names(names) && Dir(names) <= a
    ensures SlashBefore(a, |Dir(names)| - 2) == |Dir(Up(names, 1))| - 1
  {
    var up, name := Dir(Up(names, 1)), names[|names| - 1];
    DirUp(names);
    assert forall i :: 0 <= i < |Dir(names)| ==> a[i] == Dir(names)[i];
    SlashBeforeIs(a, |Dir(names)| - 2, |up| - 1);
  }

  lemma CopyTurn(c: Cursors, path: string)
    requires CursorsOk(c, |path|) && Unread(c, path) && c.i < |path| && path[c.i] != '/'
    ensures Turn(c, |path|).Some?
    ensures var d := Turn(c, |path|).value;
            Unread(d, path) && d == Cursors(d.a, c.i + 1, c.j + 1, c.jx, c.jy) && d.a[..d.j] == c.a[..c.j] + [path[c.i]]
  {
  }

  lemma CopyRep(c: Cursors, path: string, names: seq<string>, mode: Mode)
    requires Rep(c, path, names, mode) && Absolute(path) && c.i < |path| && path[c.i] != '/'
    ensures CursorsOk(c, |path|) && Turn(c, |path|).Some? && Rep(Turn(c, |path|).value, path, names, mode)
  {
    ReadNext(path, c.i);
    hide Dir, Open, Closed, Turn, Split;
    CopyTurn(c, path);
    assert Dir(names) + (Open(path[..c.i]) + [path[c.i]]) == (Dir(names) + Open(path[..c.i])) + [path[c.i]];
  }

  /** What one turn does at a slash, by the characters since the last slash noticed. */
  lemma TurnSlash(c: Cursors, n: nat, seg: string)
    requires CursorsOk(c, n) && c.i < n && c.a[c.i] == '/'
    requires c.j - c.jy == |seg| + 1 && c.a[c.jy + 1..c.j] == seg
    ensures seg == ".." ==> Turn(c, n) == (var k := SlashBefore(c.a, c.jx - 1);
                                           if k < 0 then None else Some(Cursors(c.a, c.i + 1, c.jx + 1, k, c.jx)))
    ensures seg == "" || seg == "." ==> Turn(c, n) == Some(c.(i := c.i + 1, j := c.jy + 1))
    ensures |seg| >= 3 ==> Turn(c, n) == Some(Cursors(c.a[c.j := '/'], c.i + 1, c.j + 1, c.jy, c.j))
    ensures |seg| < 3 && !Dotted(seg) ==> Turn(c, n) == Some(c.(i := c.i + 1, j := c.j + 1))
  {
    hide SlashBefore;
    assert forall k :: 0 <= k < |seg| ==> c.a[c.jy + 1 + k] == seg[k];
    if |seg| == 1 {
      assert seg == [seg[0]];
    } else if |seg| == 2 {
      assert seg == [seg[0], seg[1]];
    }
  }

  /** The characters since the last slash noticed: the open component, after a name in a half group. */
  function Seg(mode: Mode, names: seq<string>, name: string): string {
    if mode == Half && names != [] then names[|names| - 1] + "/" + name else name
  }

  lemma SegAt(c: Cursors, path: string, names: seq<string>, mode: Mode)
    requires Rep(c, path, names, mode)
    ensures CursorsOk(c, |path|) && c.j == |Dir(names)| + |Open(path[..c.i])|
    ensures var seg := Seg(mode, names, Open(path[..c.i])); c.j - c.jy == |seg| + 1 && c.a[c.jy + 1..c.j] == seg
    ensures c.i < |path| ==> c.a[c.i] == path[c.i]
  {
    hide Dir, Open, Up, Names, Dotted;
    var name := Open(path[..c.i]);
    if mode == Half {
      DirUp(names);
      assert Dir(names) + name == Dir(Up(names, 1)) + Seg(mode, names, name);
    }
    assert c.a[c.jy + 1..c.j] == c.a[..c.j][c.jy + 1..];
  }

  lemma UnreadLater(c: Cursors, path: string, d: Cursors)
    requires Unread(c, path) && c.j <= c.i < d.i && (d.a == c.a || (c.j < |c.a| && d.a == c.a[c.j := '/']))
    ensures Unread(d, path)
  {
  }

  lemma NamesUp(names: seq<string>, k: nat)
    requires Names(names)
    ensures Names(Up(names, k))
  {
  }

  lemma NamesSnoc(names: seq<string>, name: string)
    requires Names(names) && SlashFree(name)
    ensures Names(names + [name])
  {
  }

  lemma DropRep(c: Cursors, path: string, names: seq<string>, mode: Mode, d: Cursors)
    requires Rep(c, path, names, mode) && mode != Half && c.i < |path|
    requires d == c.(i := c.i + 1, j := c.jy + 1) && Open(path[..d.i]) == ""
    ensures Rep(d, path, names, mode)
  {
    hide Dir, Open, Unread, Names, Up;
    UnreadLater(c, path, d);
    assert c.a[..d.j] == c.a[..c.j][..d.j] == Dir(names);
    assert Dir(names) + "" == Dir(names);
  }

  lemma NameText(a: string, j: nat, dir: string, name: string)
    requires j < |a| && a[..j] == dir + name
    ensures a[j := '/'][..j + 1] == dir + name + "/" + ""
  {
  }

  lemma NameSpans(c: Cursors, mode: Mode, names: seq<string>, name: string, d: Cursors)
    requires Spans(c, mode, names) && !Dotted(name) && c.j == |Dir(names)| + |name|
    requires if mode != Half && |name| < 3 then d.jy == c.jy && d.jx == c.jx else d.jy == c.j && d.jx == c.jy
    ensures Spans(d, NextMode(mode, name), names + [name])
  {
    hide Dir, Up;
    DirSnoc(names, name);
    UpSnoc(names, name, 1);
  }

  /** Another name behind the directory, with a slash written or found there. */
  lemma NameRep(c: Cursors, path: string, names: seq<string>, mode: Mode, name: string, d: Cursors)
    requires Rep(c, path, names, mode) && c.i < |path| && name == Open(path[..c.i]) && SlashFree(name) && !Dotted(name)
    requires d.a == c.a[c.j := '/'] && d.i == c.i + 1 && d.j == c.j + 1 && Open(path[..d.i]) == ""
    requires if mode != Half && |name| < 3 then d.jy == c.jy && d.jx == c.jx else d.jy == c.j && d.jx == c.jy
    ensures Rep(d, path, names + [name], NextMode(mode, name))
  {
    hide Open, Split, Unread, Names, SlashFree, Dir, Up, Spans, NextMode, Dotted;
    NamesSnoc(names, name);
    SegAt(c, path, names, mode);
    UnreadLater(c, path, d);
    DirSnoc(names, name);
    NameSpans(c, mode, names, name, d);
    NameText(c.a, c.j, Dir(names), name);
  }

  lemma DirsBelow(a: string, j: nat, names: seq<string>, last: string)
    requires names != [] && j <= |a| && a[..j] == Dir(names) + last
    ensures var dir := Dir(Up(names, 1)); dir <= a && |dir| < |Dir(names)| <= j && a[..|dir|] == dir + ""
  {
    DirUp(names);
    hide Dir, Up;
    var dir := Dir(Up(names, 1));
    assert dir <= Dir(names) <= a[..j];
    assert a[..|dir|] == a[..j][..|dir|];
  }

  /** The slashes before the last name and the last two, and the text up to the first of them. */
  lemma PopText(a: string, j: nat, names: seq<string>, last: string)
    requires |names| >= 2 && Names(names) && j <= |a| && a[..j] == Dir(names) + last
    ensures Names(Up(names, 1)) && Up(Up(names, 1), 1) == Up(names, 2)
    ensures var n := |Dir(Up(names, 1))|;
            n <= j && a[..n] == Dir(Up(names, 1)) + "" && SlashBefore(a, n - 2) == |Dir(Up(names, 2))| - 1
  {
    assert Up(names, 1) != [];
    hide Dir, Names, SlashBefore, Up;
    NamesUp(names, 1);
    UpUp(names, 1);
    DirsBelow(a, j, names, last);
    ScanDir(a, Up(names, 1));
  }

  lemma PopRep(c: Cursors, path: string, names: seq<string>, d: Cursors)
    requires Rep(c, path, names, Single) && c.i < |path| && |names| >= 2
    requires Open(path[..c.i + 1]) == ""
    requires d == Cursors(c.a, c.i + 1, c.jx + 1, |Dir(Up(names, 2))| - 1, c.jx)
    ensures Rep(d, path, Up(names, 1), Single) && SlashBefore(c.a, c.jx - 1) == d.jx
  {
    hide Dir, Open, Unread, Names, SlashBefore, Up;
    UnreadLater(c, path, d);
    PopText(c.a, c.j, names, Open(path[..c.i]));
  }

  lemma KeepSlash(c: Cursors)
    requires c.j < |c.a| && c.a[c.j] == '/'
    ensures c.a[c.j := '/'] == c.a
  {
  }

  lemma PopTurn(c: Cursors, path: string, names: seq<string>)
    requires Rep(c, path, names, Single) && c.i < |path| && path[c.i] == '/' && |names| >= 2
    requires Open(path[..c.i]) == ".." && Open(path[..c.i + 1]) == ""
    ensures CursorsOk(c, |path|) && Turn(c, |path|).Some? && Rep(Turn(c, |path|).value, path, Up(names, 1), Single)
  {
    hide Dir, Open, Turn, Rep, SlashBefore, Up;
    SegAt(c, path, names, Single);
    TurnSlash(c, |path|, "..");
    PopRep(c, path, names, Cursors(c.a, c.i + 1, c.jx + 1, |Dir(Up(names, 2))| - 1, c.jx));
  }

  lemma DropTurn(c: Cursors, path: string, names: seq<string>, mode: Mode)
    requires Rep(c, path, names, mode) && mode != Half && c.i < |path| && path[c.i] == '/'
    requires Open(path[..c.i]) == "" || Open(path[..c.i]) == "."
    requires Open(path[..c.i + 1]) == ""
    ensures CursorsOk(c, |path|) && Turn(c, |path|).Some? && Rep(Turn(c, |path|).value, path, names, mode)
  {
    hide Dir, Open, Turn, Rep;
    SegAt(c, path, names, mode);
    TurnSlash(c, |path|, Open(path[..c.i]));
    DropRep(c, path, names, mode, c.(i := c.i + 1, j := c.jy + 1));
  }

  lemma SegLong(mode: Mode, names: seq<string>, name: string)
    requires !Dotted(name) && (mode == Half ==> names != [] && names[|names| - 1] != "")
    ensures mode == Half ==> |Seg(mode, names, name)| >= 3
  {
  }

  lemma NameTurn(c: Cursors, path: string, names: seq<string>, mode: Mode)
    requires Rep(c, path, names, mode) && c.i < |path| && path[c.i] == '/'
    requires SlashFree(Open(path[..c.i])) && !Dotted(Open(path[..c.i])) && Open(path[..c.i + 1]) == ""
    requires mode == Half || |Open(path[..c.i])| >= 3 || SlashAt(c.a, c.j)
    ensures CursorsOk(c, |path|) && Turn(c, |path|).Some?
    ensures Rep(Turn(c, |path|).value, path, names + [Open(path[..c.i])], NextMode(mode, Open(path[..c.i])))
  {
    var name := Open(path[..c.i]);
    assert mode == Half ==> names != [] && names[|names| - 1] != "";
    hide Dir, Open, Turn, Rep, SlashFree, NextMode;
    SegAt(c, path, names, mode);
    SegLong(mode, names, name);
    TurnSlash(c, |path|, Seg(mode, names, name));
    if mode != Half && |name| < 3 {
      KeepSlash(c);
      NameRep(c, path, names, mode, name, c.(i := c.i + 1, j := c.j + 1));
    } else {
      NameRep(c, path, names, mode, name, Cursors(c.a[c.j := '/'], c.i + 1, c.j + 1, c.jy, c.j));
    }
  }

  /** A component that fits is resolved rightly. */
  lemma SlashRep(c: Cursors, path: string, names: seq<string>, mode: Mode)
    requires Rep(c, path, names, mode) && Absolute(path) && c.i < |path| && path[c.i] == '/'
    requires Fits(mode, |names|, Open(path[..c.i]), SlashAt(c.a, c.j))
    ensures CursorsOk(c, |path|) && Turn(c, |path|).Some?
    ensures Rep(Turn(c, |path|).value, path, Follow(names, Open(path[..c.i])), NextMode(mode, Open(path[..c.i])))
  {
    var name := Open(path[..c.i]);
    assert 1 <= c.i;
    hide Dir, Open, Closed, Turn, Rep, Split, SlashFree;
    ReadNext(path, c.i);
    if name == ".." {
      PopTurn(c, path, names);
    } else if name == "" || name == "." {
      DropTurn(c, path, names, mode);
    } else {
      NameTurn(c, path, names, mode);
    }
  }

  // ----- the run, as far as all is right -----

  ghost function NamesAt(path: string, m: nat): seq<string>
    requires m <= |path|
  {
    Lexical(Closed(path[..m]))
  }

  ghost function ModeAt(path: string, m: nat): Mode
    requires m <= |path|
  {
    ModeOf(Closed(path[..m]))
  }

  lemma ModeSnoc(cs: seq<string>, c: string)
    ensures ModeOf(cs + [c]) == NextMode(ModeOf(cs), c)
  {
    assert (cs + [c])[..|cs|] == cs;
  }

  lemma NextAt(path: string, m: nat)
    requires Absolute(path) && 1 <= m < |path|
    ensures path[m] == '/' ==>
              && NamesAt(path, m + 1) == Follow(NamesAt(path, m), Open(path[..m]))
              && ModeAt(path, m + 1) == NextMode(ModeAt(path, m), Open(path[..m])) && Open(path[..m + 1]) == ""
    ensures path[m] != '/' ==>
              && NamesAt(path, m + 1) == NamesAt(path, m) && ModeAt(path, m + 1) == ModeAt(path, m)
              && Open(path[..m + 1]) == Open(path[..m]) + [path[m]]
  {
    hide Closed, Open, Lexical, ModeOf, Follow, NextMode;
    ReadNext(path, m);
    LexicalSnoc(Closed(path[..m]), Open(path[..m]));
    ModeSnoc(Closed(path[..m]), Open(path[..m]));
  }

  lemma NormalAt(path: string, m: nat)
    requires m <= |path|
    ensures Normal(path[..m]) == Dir(NamesAt(path, m)) + Open(path[..m])
  {
  }

  ghost function Start(path: string): Cursors {
    Cursors(path + ['\0'], 0, 0, 0, 0)
  }

  ghost predicate Laid(c: Cursors, path: string) {
    c.i <= |path| < |c.a| && c.a[..|path|] == Overlay(path, c.i)
  }

  lemma TurnTail(c: Cursors, n: nat)
    requires CursorsOk(c, n) && c.i < n && Turn(c, n).Some?
    ensures var d := Turn(c, n).value; d.a[d.j..] == c.a[d.j..]
  {
    hide SlashBefore;
  }

  lemma LaidNext(c: Cursors, path: string)
    requires CursorsOk(c, |path|) && c.i < |path| && Turn(c, |path|).Some? && Laid(c, path)
    requires var d := Turn(c, |path|).value; d.a[..d.j] == Normal(path[..d.i])
    ensures Laid(Turn(c, |path|).value, path)
  {
    var d := Turn(c, |path|).value;
    TurnTail(c, |path|);
    hide Turn, Normal;
    LayText(d.a, c.a, d.j, |path|, Normal(path[..d.i]));
  }

  lemma LayText(a: string, b: string, j: nat, n: nat, over: string)
    requires j <= n <= |a| == |b| && a[..j] == over && a[j..] == b[j..]
    ensures a[..n] == Lay(over, b[..n])
  {
    assert a[j..n] == a[j..][..n - j] == b[j..][..n - j] == b[..n][j..];
    assert a[..n] == a[..j] + a[j..n];
  }

  lemma FirstTurn(path: string) returns (c: Cursors)
    requires Absolute(path)
    ensures c.i == 1 && Rep(c, path, NamesAt(path, 1), ModeAt(path, 1)) && Laid(c, path)
    ensures Turns(c, |path|) == Turns(Start(path), |path|)
  {
    c := Turn(Start(path), |path|).value;
    assert path[..1] == "/";
    ReadOne();
    assert c.a[..1] == "/" == Dir([]) + "";
    assert Overlay(path, 0) == path;
    hide Closed, Open, Split;
    assert Normal(path[..1]) == "/";
    LaidNext(Start(path), path);
  }

  lemma FitsAt(c: Cursors, path: string)
    requires c.i < |path| && Rep(c, path, NamesAt(path, c.i), ModeAt(path, c.i)) && Laid(c, path)
    ensures StepOk(path, c.i) <==>
            Fits(ModeAt(path, c.i), |NamesAt(path, c.i)|, Open(path[..c.i]), SlashAt(c.a, c.j))
  {
    NormalAt(path, c.i);
    hide Dir, Open, Closed, Lexical, ModeOf, Overlay, Normal, Fits, Spans, Names, Unread;
    assert |Normal(path[..c.i])| == c.j;
    assert c.a[..|path|][c.j] == c.a[c.j];
  }

  /** Where all components have fitted, the loop holds the directory they reach. */
  lemma {:induction false} Reach(path: string, m: nat) returns (c: Cursors)
    requires Absolute(path) && 1 <= m <= |path| && SteadyTo(path, m)
    ensures c.i == m && Rep(c, path, NamesAt(path, m), ModeAt(path, m)) && Laid(c, path)
    ensures CursorsOk(c, |path|) && Turns(c, |path|) == Turns(Start(path), |path|)
  {
    hide Rep, Laid, NamesAt, ModeAt, StepOk, Turn, Open, Normal;
    if m == 1 {
      c := FirstTurn(path);
      SegAt(c, path, NamesAt(path, 1), ModeAt(path, 1));
    } else {
      assert SteadyTo(path, m - 1);
      var b := Reach(path, m - 1);
      assert path[m - 1] == '/' ==> StepOk(path, m - 1);
      hide SteadyTo;
      var names, mode := NamesAt(path, m - 1), ModeAt(path, m - 1);
      NextAt(path, m - 1);
      if path[m - 1] == '/' {
        FitsAt(b, path);
        SlashRep(b, path, names, mode);
      } else {
        CopyRep(b, path, names, mode);
      }
      c := Turn(b, |path|).value;
      RepText(c, path);
      LaidNext(b, path);
    }
  }

  lemma RepText(c: Cursors, path: string)
    requires c.i <= |path| && Rep(c, path, NamesAt(path, c.i), ModeAt(path, c.i))
    ensures CursorsOk(c, |path|) && c.a[..c.j] == Normal(path[..c.i])
  {
    NormalAt(path, c.i);
  }

  /** A pathname whose components all fit is resolved rightly. */
  lemma SteadyRight(path: string)
    requires Absolute(path) && Steady(path)
    ensures Right(path)
  {
    hide Rep, Laid, Turn, Normal, SteadyTo;
    var c := Reach(path, |path|);
    RepText(c, path);
    assert path[..|path|] == path;
  }

  // ----- a component that does not fit -----

  /** Characters behind `jy` that no slash makes the loop drop or take for dots. */
  ghost predicate Firm(pre: string) {
    pre == "" || |pre| >= 3 || (|pre| == 2 && pre[0] != '.')
  }

  ghost predicate Astray(x: string, y: string) {
    |x| >= |y| && x != y
  }

  /** What stands before the open component is as long as the directory `names` or longer, and differs. */
  ghost predicate Off(c: Cursors, path: string, names: seq<string>) {
    && CursorsOk(c, |path|) && 1 <= c.i && Unread(c, path)
    && var last := Open(path[..c.i]);
    && c.jy + 1 + |last| <= c.j && c.a[c.j - |last|..c.j] == last
    && Firm(c.a[c.jy + 1..c.j - |last|]) && Astray(c.a[..c.j - |last|], Dir(names))
  }

  lemma AstrayMore(x: string, y: string, x': string, y': string)
    requires Astray(x, y) && x <= x' && y <= y' && |y'| - |y| <= |x'| - |x|
    ensures Astray(x', y')
  {
    assert x'[..|x|] == x && y'[..|y|] == y;
  }

  lemma FollowDir(names: seq<string>, name: string)
    ensures name != ".." ==> Dir(names) <= Dir(Follow(names, name)) && |Dir(Follow(names, name))| <= |Dir(names)| + |name| + 1
    ensures Dotted(name) ==> |Dir(Follow(names, name))| <= |Dir(names)|
  {
    if !Dotted(name) {
      DirSnoc(names, name);
    } else if name == ".." && names != [] {
      DirUp(names);
    }
  }

  lemma OffCopy(c: Cursors, path: string, names: seq<string>)
    requires Off(c, path, names) && Absolute(path) && c.i < |path| && path[c.i] != '/'
    ensures CursorsOk(c, |path|) && Turn(c, |path|).Some? && Off(Turn(c, |path|).value, path, names)
  {
    hide Dir, Open, Closed, Turn, Split, Firm, Astray;
    ReadNext(path, c.i);
    CopyTurn(c, path);
    var d, last := Turn(c, |path|).value, Open(path[..c.i]);
    OffText(c.a, d.a, c.j, c.jy, last, path[c.i]);
  }

  lemma OffText(a: string, b: string, j: nat, jy: nat, last: string, ch: char)
    requires j < |a| == |b| && jy + 1 + |last| <= j && a[j - |last|..j] == last && b[..j + 1] == a[..j] + [ch]
    ensures b[j - |last|..j + 1] == last + [ch]
    ensures b[..j - |last|] == a[..j - |last|] && b[jy + 1..j - |last|] == a[jy + 1..j - |last|]
  {
    var k := j - |last|;
    assert b[k..j + 1] == b[..j + 1][k..] == a[..j][k..] + [ch];
    assert a[..j][k..] == a[k..j];
    assert b[..k] == b[..j + 1][..k] == a[..j][..k] == a[..k];
    assert b[jy + 1..k] == b[..k][jy + 1..];
    assert a[jy + 1..k] == a[..k][jy + 1..];
  }

  /** The state behind a slash. */
  lemma OffAfter(d: Cursors, path: string, names: seq<string>)
    requires CursorsOk(d, |path|) && 1 <= d.i && Unread(d, path) && Open(path[..d.i]) == "" && d.jy < d.j
    requires Firm(d.a[d.jy + 1..d.j]) && Astray(d.a[..d.j], Dir(names))
    ensures Off(d, path, names)
  {
  }

  lemma SegParts(a: string, jy: nat, base: nat, j: nat)
    requires jy < base <= j < |a|
    ensures a[jy + 1..j] == a[jy + 1..base] + a[base..j]
    ensures a[jy + 1..j + 1] == a[jy + 1..j] + [a[j]]
    ensures a[..base] <= a[..j + 1] && a[..base] <= a[j := '/'][..j + 1]
  {
    assert a[..base] == a[..j + 1][..base];
    assert a[j := '/'][..j + 1] == a[..j] + "/";
    assert a[..base] == a[..j][..base];
  }

  lemma SegFirm(pre: string, last: string)
    requires Firm(pre) && (pre == "" ==> last != "" && last != "." && last != "..")
    ensures !Dotted(pre + last) && (|pre + last| < 3 ==> forall ch :: Firm(pre + last + [ch]))
  {
    var seg := pre + last;
    if pre == "" {
      assert seg == last;
    } else {
      assert seg[0] == pre[0];
    }
    if |seg| == 1 {
      assert seg == [seg[0]];
    }
    if |seg| < 3 {
      forall ch
        ensures Firm(seg + [ch])
      {
        assert (seg + [ch])[0] == seg[0];
      }
    }
  }

  /** The characters since the last slash noticed stay, and a slash is written or not behind them. */
  lemma OffStays(c: Cursors, path: string, seg: string, names: seq<string>)
    requires CursorsOk(c, |path|) && Unread(c, path) && 1 <= c.i < |path| && path[c.i] == '/' && Open(path[..c.i + 1]) == ""
    requires c.jy < c.j && c.a[c.jy + 1..c.j] == seg && !Dotted(seg)
    requires |seg| < 3 ==> forall ch :: Firm(seg + [ch])
    requires Astray(c.a[..c.j + 1], Dir(names)) && Astray(c.a[c.j := '/'][..c.j + 1], Dir(names))
    ensures Turn(c, |path|).Some? && Off(Turn(c, |path|).value, path, names)
  {
    hide Dir, Open, Turn, Astray, Firm, Dotted;
    TurnSlash(c, |path|, seg);
    SegParts(c.a, c.jy, c.j, c.j);
    var d := Turn(c, |path|).value;
    UnreadLater(c, path, d);
    hide Unread;
    assert Firm(d.a[d.jy + 1..d.j]) by {
      if |seg| >= 3 {
        assert d.a[d.jy + 1..d.j] == "";
        FirmNone();
      } else {
        assert Firm(seg + [c.a[c.j]]);
      }
    }
    OffAfter(d, path, names);
  }

  lemma FirmNone()
    ensures Firm("")
  {
  }

  lemma OffDrops(c: Cursors, path: string, names: seq<string>)
    requires CursorsOk(c, |path|) && Unread(c, path) && 1 <= c.i < |path| && path[c.i] == '/' && Open(path[..c.i + 1]) == ""
    requires c.jy < c.j && (c.a[c.jy + 1..c.j] == "" || c.a[c.jy + 1..c.j] == ".")
    requires Astray(c.a[..c.jy + 1], Dir(names))
    ensures Turn(c, |path|).Some? && Off(Turn(c, |path|).value, path, names)
  {
    hide Dir, Open, Turn, Astray, Firm, Dotted;
    TurnSlash(c, |path|, c.a[c.jy + 1..c.j]);
    var d := Turn(c, |path|).value;
    UnreadLater(c, path, d);
    hide Unread;
    FirmNone();
    assert d.a[d.jy + 1..d.j] == "";
    OffAfter(d, path, names);
  }

  lemma OffGrows(a: string, base: nat, j: nat, names: seq<string>, name: string)
    requires base <= j < |a| && |name| == j - base && Astray(a[..base], Dir(names))
    ensures Astray(a[..j + 1], Dir(Follow(names, name))) && Astray(a[j := '/'][..j + 1], Dir(Follow(names, name)))
  {
    FollowDir(names, name);
    hide Dir, Follow;
    assert a[..base] == a[..j + 1][..base];
    assert a[..base] == a[j := '/'][..j + 1][..base];
    if name != ".." {
      AstrayMore(a[..base], Dir(names), a[..j + 1], Dir(Follow(names, name)));
      AstrayMore(a[..base], Dir(names), a[j := '/'][..j + 1], Dir(Follow(names, name)));
    }
  }

  /** What being off means at a slash. */
  lemma OffParts(c: Cursors, path: string, names: seq<string>) returns (pre: string)
    requires Off(c, path, names) && c.i < |path|
    ensures CursorsOk(c, |path|) && 1 <= c.i && Unread(c, path) && Firm(pre)
    ensures var last := Open(path[..c.i]);
            && c.jy + 1 + |pre| + |last| == c.j && c.a[c.jy + 1..c.j] == pre + last
            && Astray(c.a[..c.j - |last|], Dir(names))
  {
    hide Dir, Open, Unread, Astray, Firm;
    var base := c.j - |Open(path[..c.i])|;
    pre := c.a[c.jy + 1..base];
    SegParts(c.a, c.jy, base, c.j);
  }

  /** Once off, the loop stays off at every component but a ".." on its own. */
  lemma OffSlash(c: Cursors, path: string, names: seq<string>)
    requires Off(c, path, names) && Absolute(path) && c.i < |path| && path[c.i] == '/'
    requires Open(path[..c.i]) != ".." || c.jy + 3 < c.j
    ensures CursorsOk(c, |path|) && Turn(c, |path|).Some?
    ensures Off(Turn(c, |path|).value, path, Follow(names, Open(path[..c.i])))
  {
    hide Dir, Open, Closed, Turn, Split, Unread, Astray, Firm, SlashFree, Follow, Dotted, Off;
    var last := Open(path[..c.i]);
    var pre := OffParts(c, path, names);
    ReadNext(path, c.i);
    if pre == "" && (last == "" || last == ".") {
      FollowSame(names, last);
      assert pre + last == last;
      OffDrops(c, path, names);
    } else {
      SegFirm(pre, last);
      OffGrows(c.a, c.j - |last|, c.j, names, last);
      OffStays(c, path, pre + last, Follow(names, last));
    }
  }

  lemma FollowSame(names: seq<string>, name: string)
    requires name == "" || name == "."
    ensures Follow(names, name) == names
  {
  }
}
