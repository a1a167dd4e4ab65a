/** Pathnames as C strings, and the two string tests `inotify_dtree.c` performs on them: "is this
    pathname at or below that one" and "replace this leading pathname by that one".  The lemmas
    relate both to what they mean for the components of a pathname. */
module Paths {

  predicate SlashFree(s: string) {
    forall i :: 0 <= i < |s| ==> s[i] != '/'
  }

  /** `strncmp(p, q, len) == 0 && (q[len] == '/' || q[len] == '\0')` with `len = strlen(p)`. */
  predicate AtOrBelow(p: string, q: string) {
    p <= q && (|q| == |p| || q[|p|] == '/')
  }

  /** `snprintf(..., "%s%s", new, &q[len])` when `q` is at or below `src`; otherwise `q` is kept. */
  function Rewrite(src: string, dst: string, q: string): string {
    if AtOrBelow(src, q) then dst + q[|src|..] else q
  }

  /** The pathname of entry `name` of directory `dir`. */
  function Child(dir: string, name: string): string {
    dir + "/" + name
  }

  /** The components of a pathname: the pieces between slashes. */
  function Split(s: string): (r: seq<string>)
    ensures |r| >= 1
  {
    if s == "" then [""] else AddChar(Split(s[..|s| - 1]), s[|s| - 1])
  }

  /** One more character: a slash opens a new component, any other extends the last one. */
  function AddChar(cs: seq<string>, c: char): (r: seq<string>)
    requires |cs| >= 1
    ensures |r| >= 1
  {
    if c == '/' then cs + [""] else cs[..|cs| - 1] + [cs[|cs| - 1] + [c]]
  }

  function Join(cs: seq<string>): string
    requires |cs| >= 1
  {
    if |cs| == 1 then cs[0] else Child(Join(cs[..|cs| - 1]), cs[|cs| - 1])
  }

  /** `dir` followed by the given entry names. */
  function Render(dir: string, names: seq<string>): string {
    if names == [] then dir else Child(Render(dir, names[..|names| - 1]), names[|names| - 1])
  }

  // ----- the components determine the pathname -----

  lemma {:induction false} SplitPieces(s: string)
    ensures forall i :: 0 <= i < |Split(s)| ==> SlashFree(Split(s)[i])
  {
    if s != "" {
      SplitPieces(s[..|s| - 1]);
    }
  }

  lemma JoinAddChar(cs: seq<string>, c: char)
    requires |cs| >= 1
    ensures Join(AddChar(cs, c)) == Join(cs) + [c]
  {
    var r, last := AddChar(cs, c), cs[|cs| - 1];
    if c == '/' {
      assert r[..|r| - 1] == cs;
    } else if |cs| > 1 {
      var init := cs[..|cs| - 1];
      assert r[..|r| - 1] == init;
      hide Join;
      assert Child(Join(init), last + [c]) == Child(Join(init), last) + [c];
    }
  }

  lemma {:induction false} JoinSplit(s: string)
    ensures Join(Split(s)) == s
  {
    if s != "" {
      var init, c := s[..|s| - 1], s[|s| - 1];
      JoinSplit(init);
      JoinAddChar(Split(init), c);
      assert s == init + [c];
      assert Split(s) == AddChar(Split(init), c);
    }
  }

  lemma {:induction false} SplitSlashFree(s: string)
    requires SlashFree(s)
    ensures Split(s) == [s]
  {
    if s != "" {
      SplitSlashFree(s[..|s| - 1]);
      assert s == s[..|s| - 1] + [s[|s| - 1]];
    }
  }

  lemma AddSlash(cs: seq<string>)
    requires |cs| >= 1
    ensures AddChar(cs, '/') == cs + Split("")
  {
  }

  lemma AddCharAppend(a: seq<string>, b: seq<string>, c: char)
    requires |b| >= 1
    ensures AddChar(a + b, c) == a + AddChar(b, c)
  {
    if c == '/' {
      assert (a + b) + [""] == a + (b + [""]);
    } else {
      assert (a + b)[..|a + b| - 1] == a + b[..|b| - 1];
    }
  }

  lemma {:induction false} SplitAppend(p: string, t: string)
    ensures Split(p + "/" + t) == Split(p) + Split(t)
  {
    hide AddChar;
    var s := p + "/" + t;
    if t == "" {
      assert s[..|s| - 1] == p;
      AddSlash(Split(p));
    } else {
      var t' := t[..|t| - 1];
      assert s[..|s| - 1] == p + "/" + t';
      SplitAppend(p, t');
      AddCharAppend(Split(p), Split(t'), t[|t| - 1]);
    }
  }

  lemma {:induction false} JoinAppend(a: seq<string>, b: seq<string>)
    requires |a| >= 1 && |b| >= 1
    ensures Join(a + b) == Join(a) + "/" + Join(b)
  {
    if |b| == 1 {
      assert (a + b)[..|a + b| - 1] == a;
    } else {
      var b' := b[..|b| - 1];
      JoinAppend(a, b');
      assert (a + b)[..|a + b| - 1] == a + b';
    }
  }

  lemma SplitInjective(p: string, q: string)
    requires Split(p) == Split(q)
    ensures p == q
  {
    JoinSplit(p);
    JoinSplit(q);
  }

  // ----- the string tests, read on components -----

  lemma BelowSplits(p: string, q: string)
    requires AtOrBelow(p, q)
    ensures Split(p) <= Split(q)
  {
    hide Split;
    if p != q {
      var t := q[|p| + 1..];
      assert q == p + "/" + t;
      SplitAppend(p, t);
    }
  }

  lemma PrefixBelow(p: string, q: string)
    requires Split(p) <= Split(q)
    ensures AtOrBelow(p, q)
  {
    hide Split;
    hide Join;
    JoinSplit(p);
    JoinSplit(q);
    var rest := Split(q)[|Split(p)|..];
    assert Split(q) == Split(p) + rest;
    if rest == [] {
      assert Split(q) == Split(p);
    } else {
      JoinAppend(Split(p), rest);
      assert q == p + "/" + Join(rest);
    }
  }

  /** The string test is exactly "the components of `p` are a prefix of those of `q`"; siblings that
      merely share leading characters are not below one another. */
  lemma AtOrBelowIsPrefix(p: string, q: string)
    ensures AtOrBelow(p, q) <==> Split(p) <= Split(q)
  {
    hide Split;
    if AtOrBelow(p, q) {
      BelowSplits(p, q);
    }
    if Split(p) <= Split(q) {
      PrefixBelow(p, q);
    }
  }

  /** Rewriting a pathname replaces its leading components and keeps the rest. */
  lemma RewriteIsComponentwise(src: string, dst: string, q: string)
    ensures Split(Rewrite(src, dst, q)) ==
            if Split(src) <= Split(q) then Split(dst) + Split(q)[|Split(src)|..] else Split(q)
  {
    hide Split;
    AtOrBelowIsPrefix(src, q);
    if AtOrBelow(src, q) {
      if |q| == |src| {
        assert q == src && q[|src|..] == "";
        assert dst + "" == dst;
      } else {
        var t := q[|src| + 1..];
        assert q == src + "/" + t;
        assert dst + q[|src|..] == dst + "/" + t;
        SplitAppend(src, t);
        SplitAppend(dst, t);
      }
    }
  }

  /** Renaming back undoes a renaming exactly for pathnames that the renaming moved or that were not
      already at or below the new name. */
  lemma RewriteBack(src: string, dst: string, q: string)
    ensures Rewrite(dst, src, Rewrite(src, dst, q)) == q <==> AtOrBelow(src, q) || !AtOrBelow(dst, q)
  {
    if AtOrBelow(src, q) {
      var r := Rewrite(src, dst, q);
      assert r[|dst|..] == q[|src|..];
      assert AtOrBelow(dst, r);
      assert q == src + q[|src|..];
    }
  }

  /** A pathname that is moved meets one that stays exactly when that one lies at or below the new name and
      the moved one has the same tail. */
  lemma RewriteMeets(src: string, dst: string, p: string, q: string)
    requires AtOrBelow(src, p) && !AtOrBelow(src, q)
    ensures Rewrite(src, dst, p) == Rewrite(src, dst, q) <==> AtOrBelow(dst, q) && p == src + q[|dst|..]
  {
    var r := dst + p[|src|..];
    assert p == src + p[|src|..];
    assert AtOrBelow(dst, r) && r[|dst|..] == p[|src|..];
    if AtOrBelow(dst, q) {
      assert q == dst + q[|dst|..];
      assert (src + q[|dst|..])[|src|..] == q[|dst|..];
    }
  }

  /** Two pathnames that are both moved, or both stay, stay different. */
  lemma RewriteTogether(src: string, dst: string, p: string, q: string)
    requires AtOrBelow(src, p) <==> AtOrBelow(src, q)
    requires Rewrite(src, dst, p) == Rewrite(src, dst, q)
    ensures p == q
  {
    if AtOrBelow(src, p) {
      assert (dst + p[|src|..])[|dst|..] == p[|src|..] && (dst + q[|src|..])[|dst|..] == q[|src|..];
      assert p == src + p[|src|..] && q == src + q[|src|..];
    }
  }

  // ----- rendered directory pathnames -----

  ghost predicate Names(names: seq<string>) {
    forall i :: 0 <= i < |names| ==> SlashFree(names[i])
  }

  lemma {:induction false} SplitRender(dir: string, names: seq<string>)
    requires Names(names)
    ensures Split(Render(dir, names)) == Split(dir) + names
  {
    hide Split;
    if names != [] {
      var n := |names| - 1;
      SplitRender(dir, names[..n]);
      SplitSlashFree(names[n]);
      SplitAppend(Render(dir, names[..n]), names[n]);
      assert names == names[..n] + [names[n]];
    }
  }

  lemma {:induction false} RenderAppend(dir: string, a: seq<string>, b: seq<string>)
    ensures Render(dir, a + b) == Render(Render(dir, a), b)
  {
    if b == [] {
      assert a + b == a;
    } else {
      assert (a + b)[..|a + b| - 1] == a + b[..|b| - 1];
      RenderAppend(dir, a, b[..|b| - 1]);
    }
  }

  /** Two trees whose root pathnames are not nested keep all their pathnames apart. */
  ghost predicate Apart(r1: string, r2: string) {
    !AtOrBelow(r1, r2) && !AtOrBelow(r2, r1)
  }

  lemma PrefixOfConcat<T>(c1: seq<T>, a: seq<T>, c2: seq<T>, b: seq<T>)
    ensures c1 + a <= c2 + b ==> c1 <= c2 || c2 <= c1
    ensures c1 == c2 ==> (c1 + a <= c2 + b <==> a <= b)
  {
    if c1 + a <= c2 + b {
      if |c1| <= |c2| {
        assert c1 == (c1 + a)[..|c1|] == (c2 + b)[..|c1|] == c2[..|c1|];
      } else {
        assert c2 == (c2 + b)[..|c2|] == (c1 + a)[..|c2|] == c1[..|c2|];
      }
    }
    if c1 == c2 {
      if c1 + a <= c2 + b {
        assert a == (c1 + a)[|c1|..] == (c2 + b)[|c1|..|c1 + a|] == b[..|a|];
      }
      if a <= b {
        assert c1 + a == c1 + b[..|a|] == (c2 + b)[..|c1 + a|];
      }
    }
  }

  lemma RenderOrder(r1: string, a: seq<string>, r2: string, b: seq<string>)
    requires Names(a) && Names(b)
    requires r1 == r2 || Apart(r1, r2)
    ensures AtOrBelow(Render(r1, a), Render(r2, b)) <==> r1 == r2 && a <= b
  {
    hide Split;
    hide Render;
    SplitRender(r1, a);
    SplitRender(r2, b);
    AtOrBelowIsPrefix(Render(r1, a), Render(r2, b));
    AtOrBelowIsPrefix(r1, r2);
    AtOrBelowIsPrefix(r2, r1);
    PrefixOfConcat(Split(r1), a, Split(r2), b);
    if Split(r1) == Split(r2) {
      SplitInjective(r1, r2);
    }
  }

  lemma RenderInjective(r1: string, a: seq<string>, r2: string, b: seq<string>)
    requires Names(a) && Names(b)
    requires r1 == r2 || Apart(r1, r2)
    requires Render(r1, a) == Render(r2, b)
    ensures r1 == r2 && a == b
  {
    RenderOrder(r1, a, r2, b);
    RenderOrder(r2, b, r1, a);
  }
}
