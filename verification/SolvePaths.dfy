/** Absolute pathnames as `solve_dot` of exercise 18-03 reads them, character by character, and the
    directories they reach. */
module SolvePaths {
  import opened Paths

  // ----- what the result should be -----

  /** A slash, then each name and a slash. */
  function Dir(names: seq<string>): (r: string)
    ensures |r| >= 1 && r[|r| - 1] == '/' && r[0] == '/'
  {
    if names == [] then "/" else Dir(names[..|names| - 1]) + names[|names| - 1] + "/"
  }

  /** Following one component from the directory reached by `names`; the root is its own parent
      (section 4.13 of POSIX.1-2017, Base Definitions, without symbolic links). */
  function Follow(names: seq<string>, c: string): seq<string> {
    if c == "" || c == "." then names
    else if c == ".." then if names == [] then [] else names[..|names| - 1]
    else names + [c]
  }

  /** The directory reached from the root by the given components. */
  function Lexical(cs: seq<string>): seq<string> {
    if cs == [] then [] else Follow(Lexical(cs[..|cs| - 1]), cs[|cs| - 1])
  }

  /** Some ".." is met at the root or directly below it. */
  ghost predicate Escapes(cs: seq<string>) {
    exists k :: 0 <= k < |cs| && cs[k] == ".." && |Lexical(cs[..k])| < 2
  }

  predicate Absolute(path: string) {
    path != "" && path[0] == '/'
  }

  /** The components of an absolute pathname that a slash ends... */
  function Closed(path: string): seq<string> {
    var cs := Split(path);
    if |cs| < 2 then [] else cs[1..|cs| - 1]
  }

  /** ...and what follows the last slash. */
  function Open(path: string): string {
    var cs := Split(path);
    cs[|cs| - 1]
  }

  /** The directory reached, then what follows the last slash. */
  function Normal(path: string): string {
    Dir(Lexical(Closed(path))) + Open(path)
  }

  predicate Dotted(c: string) {
    c == "" || c == "." || c == ".."
  }

  /** Names of three characters and more: `solve_dot` tells components apart by length first. */
  predicate LongNames(cs: seq<string>) {
    forall k :: 0 <= k < |cs| ==> Dotted(cs[k]) || |cs[k]| >= 3
  }

  // ----- reading a pathname character by character -----

  lemma {:induction false} AbsoluteSplit(path: string)
    requires Absolute(path)
    ensures |Split(path)| >= 2
  {
    if |path| > 1 {
      AbsoluteSplit(path[..|path| - 1]);
    } else {
      assert path == "/" && path[..0] == "";
    }
  }

  lemma ReadOne()
    ensures Closed("/") == [] && Open("/") == ""
  {
    assert Split("/") == AddChar(Split("/"[..0]), '/');
    assert Split("/") == ["", ""];
  }

  /** The next character closes the open component or extends it. */
  lemma ReadNext(path: string, m: nat)
    requires Absolute(path) && 1 <= m < |path|
    ensures path[m] == '/' ==> Closed(path[..m + 1]) == Closed(path[..m]) + [Open(path[..m])] && Open(path[..m + 1]) == ""
    ensures path[m] != '/' ==> Closed(path[..m + 1]) == Closed(path[..m]) && Open(path[..m + 1]) == Open(path[..m]) + [path[m]]
    ensures SlashFree(Open(path[..m]))
  {
    hide Split, SlashFree;
    AbsoluteSplit(path[..m]);
    SplitPieces(path[..m]);
    SplitNext(path, m);
  }

  lemma SplitNext(path: string, m: nat)
    requires m < |path|
    ensures Split(path[..m + 1]) == AddChar(Split(path[..m]), path[m])
  {
    var t := path[..m + 1];
    assert t[..|t| - 1] == path[..m] && t[|t| - 1] == path[m];
  }

  lemma LexicalSnoc(cs: seq<string>, c: string)
    ensures Lexical(cs + [c]) == Follow(Lexical(cs), c)
  {
    assert (cs + [c])[..|cs|] == cs;
  }

  lemma EscapesSnoc(cs: seq<string>, c: string)
    ensures Escapes(cs + [c]) <==> Escapes(cs) || (c == ".." && |Lexical(cs)| < 2)
  {
    hide Lexical;
    var t := cs + [c];
    assert forall k :: 0 <= k <= |cs| ==> t[..k] == cs[..k];
    assert cs[..|cs|] == cs;
    assert t[|cs|] == c;
    if Escapes(cs) {
      var k :| 0 <= k < |cs| && cs[k] == ".." && |Lexical(cs[..k])| < 2;
      assert t[k] == ".." && |Lexical(t[..k])| < 2;
    }
  }

  // ----- names without dots -----

  ghost predicate Plain(cs: seq<string>) {
    forall k :: 0 <= k < |cs| ==> !Dotted(cs[k])
  }

  lemma {:induction false} LexicalPlain(cs: seq<string>)
    requires Names(cs)
    ensures Plain(Lexical(cs)) && Names(Lexical(cs))
  {
    if cs != [] {
      LexicalPlain(cs[..|cs| - 1]);
    }
  }

  lemma {:induction false} PlainLexical(names: seq<string>)
    requires Plain(names)
    ensures Lexical(names) == names
  {
    if names != [] {
      PlainLexical(names[..|names| - 1]);
      assert names == names[..|names| - 1] + [names[|names| - 1]];
    }
  }

  lemma {:induction false} DirRender(names: seq<string>)
    ensures Dir(names) == Render("", names) + "/"
  {
    if names != [] {
      DirRender(names[..|names| - 1]);
    }
  }

  /** A directory and a last component can be read back. */
  lemma ReadDir(names: seq<string>, last: string)
    requires Names(names) && SlashFree(last)
    ensures Closed(Dir(names) + last) == names && Open(Dir(names) + last) == last
  {
    DirRender(names);
    SplitRender("", names);
    SplitSlashFree(last);
    SplitSlashFree("");
    SplitAppend(Render("", names), last);
    hide Split, Dir, Render;
    assert Split(Dir(names) + last) == [""] + names + [last];
  }

  lemma ClosedNames(path: string)
    ensures Names(Closed(path)) && SlashFree(Open(path))
  {
    SplitPieces(path);
    hide Split;
  }

  // ----- putting a pathname together -----

  lemma SplitParts(path: string)
    requires Absolute(path)
    ensures Split(path) == [""] + Closed(path) + [Open(path)]
  {
    AbsoluteSplit(path);
    FirstEmpty(path);
    hide Split;
  }

  lemma JoinClosed(path: string)
    requires Absolute(path)
    ensures path == Dir(Closed(path)) + Open(path)
  {
    var q := Dir(Closed(path)) + Open(path);
    ClosedNames(path);
    assert Absolute(q);
    hide Split, Dir, Closed, Open;
    ReadDir(Closed(path), Open(path));
    SplitParts(path);
    SplitParts(q);
    SplitInjective(path, q);
  }

  lemma FirstEmpty(path: string)
    requires Absolute(path)
    ensures Split(path)[0] == ""
  {
    assert path == "" + "/" + path[1..];
    SplitAppend("", path[1..]);
    SplitSlashFree("");
  }

  lemma ReadMore(p: string, name: string)
    requires Absolute(p) && Open(p) == "" && SlashFree(name)
    ensures Closed(p + name + "/") == Closed(p) + [name] && Open(p + name + "/") == ""
  {
    JoinClosed(p);
    ClosedNames(p);
    var cs := Closed(p);
    var all := cs + [name];
    assert all[..|cs|] == cs;
    assert Dir(all) == Dir(cs) + name + "/";
    ReadDir(all, "");
    hide Closed, Open, Dir;
    assert p + name + "/" == Dir(all) + "";
  }
}
