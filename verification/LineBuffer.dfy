/** The block-buffered line reader of `src/lib/59-01.c`. */
module LineBuffer {
  import opened Basics

  const BUF_SIZE := 2048

  // ----- lines in a byte stream -----

  /** Bytes before the first newline, or all of them. */
  function LineLen(p: seq<Byte>): (n: nat)
    ensures n <= |p| && (forall i :: 0 <= i < n ==> p[i] != LF) && (n < |p| ==> p[n] == LF)
  {
    if p == [] || p[0] == LF then 0 else 1 + LineLen(p[1..])
  }

  predicate IsLine(l: seq<Byte>) {
    forall i :: 0 <= i < |l| ==> l[i] != LF
  }

  /** The stream that consists of the given lines. */
  function Unlines(lines: seq<seq<Byte>>): seq<Byte> {
    if lines == [] then [] else lines[0] + [LF] + Unlines(lines[1..])
  }

  lemma LineLenIs(l: seq<Byte>, rest: seq<Byte>)
    requires IsLine(l)
    ensures LineLen(l + [LF] + rest) == |l|
  {
    assert (l + [LF] + rest)[|l|] == LF;
  }

  function Rest(b: seq<Byte>, k: nat): seq<Byte> {
    if k <= |b| then b[k..] else []
  }

  // ----- the file -----

  /** An open file; `read()` fills the space it is given until the file ends. */
  class Stream {
    var rest: seq<Byte>

    constructor (bytes: seq<Byte>)
      ensures rest == bytes
    {
      rest := bytes;
    }

    method Read(buf: array<Byte>, at: nat, n: nat) returns (rsize: nat)
      requires at + n <= buf.Length
      modifies this, buf
      ensures rsize == if |old(rest)| < n then |old(rest)| else n
      ensures rest == old(rest)[rsize..]
      ensures buf[..at] == old(buf[..at]) && buf[at..at + rsize] == old(rest)[..rsize]
      ensures buf[at + rsize..] == old(buf[at + rsize..])
    {
      rsize := if |rest| < n then |rest| else n;
      forall i | 0 <= i < rsize {
        buf[at + i] := rest[i];
      }
      rest := rest[rsize..];
    }
  }

  /** `memcpy()` within one buffer, which must not overlap. */
  method MoveToFront(buf: array<Byte>, from: nat, n: nat)
    requires from + n <= buf.Length && n <= from
    modifies buf
    ensures buf[..n] == old(buf[from..from + n]) && buf[n..] == old(buf[n..])
  {
    forall i | 0 <= i < n {
      buf[i] := buf[from + i];
    }
  }

  /** A buffer of `tail`, `got` and old bytes, then the rest of the file. */
  lemma Filled(b0: seq<Byte>, tail: seq<Byte>, rest: seq<Byte>, n: nat, b: seq<Byte>)
    requires |b| == |b0| && |tail| <= |b0| && n == (if |rest| < |b0| - |tail| then |rest| else |b0| - |tail|)
    requires b[..|tail|] == tail && b[|tail|..|tail| + n] == rest[..n] && b[|tail| + n..] == b0[|tail| + n..]
    ensures b + rest[n..] == tail + rest + Rest(b0, |tail + rest|)
  {
    assert b == b[..|tail|] + b[|tail|..|tail| + n] + b[|tail| + n..];
    assert rest == rest[..n] + rest[n..];
    if |rest| < |b0| - |tail| {
      assert rest[n..] == [];
    } else {
      assert b[|tail| + n..] == [];
    }
  }

  lemma SameTail(a: seq<Byte>, b: seq<Byte>, n: nat, k: nat)
    requires n <= k <= |a| == |b| && a[n..] == b[n..]
    ensures a[k..] == b[k..]
  {
    assert a[k..] == a[n..][k - n..] && b[k..] == b[n..][k - n..];
  }

  /** `struct lbuf`: `cur` is where the next line begins.  How much of `buf` came from the file is not recorded. */
  class LineReader {
    const fd: Stream
    const buf: array<Byte>
    var cur: nat
    var efile: bool

    ghost predicate Valid()
      reads this, fd
    {
      buf.Length == BUF_SIZE && cur <= BUF_SIZE && (efile ==> fd.rest == [])
    }

    /** The bytes in front of the reader, all of the buffer taken for bytes of the file. */
    ghost function Seen(): seq<Byte>
      requires Valid()
      reads this, fd, buf
    {
      buf[cur..] + fd.rest
    }

    /** What the loop of `read_lbuf` comes to look at: when the file ends without a newline, also the old
        bytes behind it in the buffer. */
    ghost function Ahead(): (v: seq<Byte>)
      requires Valid()
      reads this, fd, buf
      ensures Seen() <= v
    {
      if LineLen(Seen()) < |Seen()| || fd.rest == [] then Seen() else Seen() + Rest(buf[..], |Seen()|)
    }

    /** What the C code relies on: `memcpy()` does not overlap, and a full buffer is not refilled. */
    ghost predicate Refillable(size: nat)
      requires Valid()
      reads this, fd, buf
    {
      && (!efile && BUF_SIZE - cur <= size && BUF_SIZE - cur <= LineLen(Ahead()) ==> BUF_SIZE - cur <= cur)
      && (fd.rest != [] ==> LineLen(Ahead()) < BUF_SIZE || size < BUF_SIZE)
    }

    /** `init_lbuf`: the first block; the buffer keeps its old bytes behind a shorter file. */
    constructor (f: Stream, b: array<Byte>)
      requires b.Length == BUF_SIZE
      modifies f, b
      ensures Valid() && fd == f && buf == b && cur == 0 && (efile <==> |old(f.rest)| < BUF_SIZE)
      ensures Seen() == old(f.rest) + Rest(old(b[..]), |old(f.rest)|)
    {
      fd, buf, cur := f, b, 0;
      new;
      var rsize := fd.Read(buf, 0, BUF_SIZE);
      efile := rsize < BUF_SIZE;
      Filled(old(b[..]), [], old(f.rest), rsize, buf[..]);
      assert buf[0..] == buf[..] && [] + old(f.rest) == old(f.rest);
    }

    /** The unfinished line is moved to the front and the file read behind it; when nothing comes the end of
        the file is noted and `cur` is left alone. */
    method Refill() returns (rsize: nat, tsize: nat)
      requires Valid() && BUF_SIZE - cur <= cur
      modifies fd, buf, this`cur, this`efile
      ensures Valid() && tsize == BUF_SIZE - old(cur) && (rsize == 0 <==> old(fd.rest) == [])
      ensures rsize == 0 ==> efile && cur == old(cur) && Seen() == old(Seen())
      ensures rsize > 0 ==> efile == old(efile) && cur == 0 && Seen() == old(Seen()) + Rest(old(buf[..]), |old(Seen())|)
    {
      tsize := BUF_SIZE - cur;
      ghost var b0, tail, rest := buf[..], buf[cur..], fd.rest;
      MoveToFront(buf, cur, tsize);
      assert buf[..tsize] == tail;
      assert buf[tsize..] == b0[tsize..];
      ghost var b1 := buf[..];
      rsize := fd.Read(buf, tsize, BUF_SIZE - tsize);
      SameTail(b0, b1, tsize, tsize + rsize);
      if rsize == 0 {
        efile := true;
        SameTail(b0, buf[..], tsize, cur);
      } else {
        cur := 0;
        Filled(b0, tail, rest, rsize, buf[..]);
        assert buf[0..] == buf[..];
      }
    }

    lemma SeenAt(k: nat)
      requires Valid() && cur + k < BUF_SIZE
      ensures k < |Seen()| && buf[cur + k] == Seen()[k]
    {
    }

    lemma SeenSize()
      requires Valid()
      ensures |Seen()| >= BUF_SIZE - cur && (fd.rest == [] ==> |Seen()| == BUF_SIZE - cur && Ahead() == Seen())
    {
    }

    /** Old bytes are looked at only behind an unterminated rest of a file that is not all in the buffer. */
    lemma AheadIs()
      requires Valid()
      ensures var v, s := Ahead(), Seen();
              v == s || (fd.rest != [] && |s| <= LineLen(v) && |v| >= BUF_SIZE && v == s + Rest(buf[..], |s|))
    {
      LineLenPrefix(Seen(), Ahead());
      hide LineLen;
    }

    /** The loop of `read_lbuf`. */
    method Scan(size: nat) returns (found: bool, lsize: nat)
      requires Valid() && Refillable(size)
      modifies fd, buf, this`cur, this`efile
      ensures Valid() && old(Seen()) <= Seen()
      ensures var v, n := old(Ahead()), LineLen(old(Ahead()));
              if n > size then !found && lsize == size + 1
              else if n < |v| then
                && found && lsize == n && cur + n < BUF_SIZE && v <= Seen()
                && (old(fd.rest) == [] ==> v == Seen() && fd.rest == [] && efile == old(efile))
              else if old(efile) then found && lsize == n == BUF_SIZE - cur && v == Seen()
              else !found && lsize == 0 && efile && Seen() == old(Seen())
    {
      hide LineLen;
      ghost var v, n, s0, rest0, b0, filled := Ahead(), LineLen(Ahead()), Seen(), fd.rest, buf[..], false;
      AheadIs();
      SeenSize();
      hide Ahead;
      var seek := cur;
      lsize := 0;
      while true
        invariant Valid() && seek == cur + lsize <= BUF_SIZE && lsize <= size && lsize <= n
        invariant !filled ==> cur == old(cur) && efile == old(efile) && Seen() == s0 && fd.rest == rest0 && buf[..] == b0
        invariant filled ==> cur == 0 && !efile && rest0 != [] && v <= Seen() && s0 <= Seen() && (n < |v| || |v| >= BUF_SIZE)
        decreases n - lsize, !filled
      {
        if seek == BUF_SIZE {
          SeenSize();
          if efile {
            break;
          }
          var rsize, tsize := Refill();
          if rsize == 0 {
            return false, 0;
          }
          filled := true;
          seek := tsize;
        }
        SeenAt(lsize);
        if buf[seek] == LF {
          break;
        }
        lsize := lsize + 1;
        seek := seek + 1;
        if lsize > size {
          return false, lsize;
        }
      }
      found := true;
    }

    /** `read_lbuf`.  A newline in sight: the line before it goes to `line`, its length is returned and both
        are consumed, or -1 is returned when the line is longer than `size`.  No newline in sight: all that
        the buffer holds when the end of the file has been noted, otherwise 0, and it is noted. */
    method ReadLine(line: array<Byte>, size: nat) returns (r: int)
      requires Valid() && Refillable(size) && line != buf && size <= line.Length
      modifies line, fd, buf, this`cur, this`efile
      ensures var v, n := old(Ahead()), LineLen(old(Ahead()));
              if n > size then r == -1 && Valid() && old(Seen()) <= Seen()
              else if n < |v| then
                && r == n && line[..n] == v[..n] && Valid() && v[n + 1..] <= Seen()
                && (old(fd.rest) == [] ==> v[n + 1..] == Seen() && fd.rest == [] && efile == old(efile))
              else if old(efile) then r == n && line[..n] == v && cur == BUF_SIZE + 1
              else r == 0 && efile && Valid() && Seen() == old(Seen())
      ensures var v, n := old(Ahead()), LineLen(old(Ahead()));
              r == 0 <==> n == 0 || (n == |v| <= size && !old(efile))
    {
      hide LineLen, Refillable, Ahead;
      ghost var v := Ahead();
      var found, lsize := Scan(size);
      if !found {
        return if lsize > size then -1 else 0;
      }
      SamePrefix(v, Seen(), lsize);
      CopyLine(line, lsize);
      Consume(lsize + 1);
      return lsize;
    }

    /** `lbuf->cur = seek + 1` */
    method Consume(n: nat)
      requires Valid() && cur + n <= BUF_SIZE + 1
      modifies this`cur
      ensures cur == old(cur) + n
      ensures cur <= BUF_SIZE ==> Valid() && n <= |old(Seen())| && Seen() == old(Seen())[n..]
    {
      ghost var c := cur;
      cur := cur + n;
      if cur <= BUF_SIZE {
        Consumed(buf[..], c, fd.rest, n);
        assert buf[..][c..] == buf[c..] && buf[..][cur..] == buf[cur..];
      }
    }

    /** `memcpy(line, lbuf->cur, seek - lbuf->cur)` */
    method CopyLine(line: array<Byte>, n: nat)
      requires Valid() && line != buf && n <= line.Length && cur + n <= BUF_SIZE
      modifies line
      ensures Valid() && Seen() == old(Seen()) && n <= |Seen()| && line[..n] == Seen()[..n]
    {
      forall i | 0 <= i < n {
        line[i] := buf[cur + i];
      }
      assert buf[..] == old(buf[..]);
      assert line[..n] == buf[cur..][..n];
    }
  }

  lemma Consumed(b: seq<Byte>, cur: nat, rest: seq<Byte>, n: nat)
    requires cur + n <= |b|
    ensures b[cur + n..] + rest == (b[cur..] + rest)[n..]
  {
  }

  lemma SamePrefix(v: seq<Byte>, s: seq<Byte>, n: nat)
    requires v <= s && n <= |v|
    ensures s[..n] == v[..n] && (n < |v| ==> v[n + 1..] <= s[n + 1..])
  {
    assert s[..|v|] == v;
    assert s[..n] == s[..|v|][..n];
    if n < |v| {
      assert s[n + 1..][..|v| - n - 1] == s[..|v|][n + 1..];
    }
  }

  lemma PrefixParts(l: seq<Byte>, p: seq<Byte>, s: seq<Byte>)
    requires l + [LF] + p <= s
    ensures |l| < |s| && s[..|l|] == l && p <= s[|l| + 1..]
  {
    var t := l + [LF] + p;
    SamePrefix(t, s, |l|);
    assert t[..|l|] == l && t[|l| + 1..] == p;
  }

  lemma LineLenPrefix(p: seq<Byte>, q: seq<Byte>)
    requires p <= q
    ensures LineLen(p) < |p| ==> LineLen(q) == LineLen(p)
    ensures LineLen(p) == |p| ==> LineLen(q) >= |p|
  {
    hide LineLen;
    assert forall k :: 0 <= k < |p| ==> q[k] == p[k];
  }

  // ----- reading a whole file -----

  /** Lines that fit, and that take at most half a block unless the `whole` file is in the buffer. */
  predicate LinesOk(lines: seq<seq<Byte>>, size: nat, whole: bool) {
    forall k :: 0 <= k < |lines| ==> IsLine(lines[k]) && |lines[k]| <= size && (whole || |lines[k]| <= BUF_SIZE / 2)
  }

  /** One call, with the line `l` and its newline in sight. */
  method ReadOne(lr: LineReader, line: array<Byte>, size: nat, ghost l: seq<Byte>, ghost p: seq<Byte>) returns (r: int)
    requires lr.Valid() && line != lr.buf && size <= line.Length
    requires IsLine(l) && |l| <= size && (lr.efile || |l| <= BUF_SIZE / 2) && l + [LF] + p <= lr.Seen()
    modifies line, lr.fd, lr.buf, lr`cur, lr`efile
    ensures lr.Valid() && r == |l| && line[..r] == l && p <= lr.Seen()
    ensures old(lr.fd.rest) == [] ==> lr.fd.rest == [] && lr.efile == old(lr.efile) && l + [LF] + lr.Seen() == old(lr.Seen())
  {
    hide LineLen;
    ghost var s := lr.Seen();
    LineLenIs(l, p);
    LineLenPrefix(l + [LF] + p, s);
    PrefixParts(l, p, s);
    r := lr.ReadLine(line, size);
  }

  lemma {:induction false} UnlinesSnoc(lines: seq<seq<Byte>>, l: seq<Byte>)
    ensures Unlines(lines + [l]) == Unlines(lines) + l + [LF]
  {
    if lines == [] {
      assert lines + [l] == [l] && [l][1..] == [];
    } else {
      assert (lines + [l])[1..] == lines[1..] + [l];
      UnlinesSnoc(lines[1..], l);
    }
  }

  lemma UnlinesAt(lines: seq<seq<Byte>>, k: nat)
    requires k < |lines|
    ensures Unlines(lines[k..]) == lines[k] + [LF] + Unlines(lines[k + 1..])
    ensures Unlines(lines[..k + 1]) == Unlines(lines[..k]) + lines[k] + [LF]
  {
    assert lines[k..][0] == lines[k] && lines[k..][1..] == lines[k + 1..];
    UnlinesSnoc(lines[..k], lines[k]);
    assert lines[..k + 1] == lines[..k] + [lines[k]];
  }

  lemma NoLines()
    ensures Unlines([]) == []
  {
  }

  lemma Regroup(a: seq<Byte>, l: seq<Byte>, s: seq<Byte>)
    ensures a + (l + [LF] + s) == a + l + [LF] + s
  {
  }

  /** Calls of `read_lbuf` on a file of newline-terminated lines return its lines, one after the other,
      across any number of refills.  If all of the file is in the buffer, what stands behind it comes next. */
  method ReadLines(lr: LineReader, size: nat, ghost lines: seq<seq<Byte>>, count: nat) returns (got: seq<seq<Byte>>)
    requires lr.Valid() && count == |lines| && LinesOk(lines, size, lr.efile) && Unlines(lines) <= lr.Seen()
    modifies lr.fd, lr.buf, lr
    ensures got == lines && lr.Valid()
    ensures old(lr.fd.rest) == [] ==>
              lr.fd.rest == [] && lr.efile == old(lr.efile) && Unlines(lines) + lr.Seen() == old(lr.Seen())
  {
    hide LineLen, Unlines, IsLine;
    var line := new Byte[size](_ => 0);
    got := [];
    var k := 0;
    ghost var s0 := lr.Seen();
    assert lines[0..] == lines && lines[..0] == [] && [] + s0 == s0;
    NoLines();
    while k < count
      invariant 0 <= k <= count && lr.Valid() && fresh(line) && line != lr.buf
      invariant got == lines[..k] && Unlines(lines[k..]) <= lr.Seen()
      invariant old(lr.fd.rest) == [] ==>
                  lr.fd.rest == [] && lr.efile == old(lr.efile) && Unlines(lines[..k]) + lr.Seen() == s0
    {
      UnlinesAt(lines, k);
      var r := ReadOne(lr, line, size, lines[k], Unlines(lines[k + 1..]));
      Regroup(Unlines(lines[..k]), lines[k], lr.Seen());
      got := got + [line[..r]];
      k := k + 1;
    }
    assert lines[..k] == lines;
  }

  /** A file of terminated lines that is shorter than the buffer: behind its last line, 0 is returned if and only if a newline
      happens to stand behind the file in the buffer. */
  method ReadPastEnd(f: Stream, b: array<Byte>, line: array<Byte>, size: nat, ghost lines: seq<seq<Byte>>, count: nat)
    returns (got: seq<seq<Byte>>, r: int)
    requires b.Length == BUF_SIZE && line != b && size <= line.Length && count == |lines| && LinesOk(lines, size, true)
    requires f.rest == Unlines(lines) && |f.rest| < BUF_SIZE
    modifies f, b, line
    ensures got == lines
    ensures r == 0 <==> old(b[|f.rest|]) == LF
  {
    hide Unlines;
    ghost var file, old' := f.rest, b[..];
    var lr := new LineReader(f, b);
    ghost var behind := old'[|file|..];
    assert lr.Seen() == file + behind;
    got := ReadLines(lr, size, lines, count);
    assert lr.Seen() == (file + behind)[|file|..] == behind;
    ghost var v := lr.Ahead();
    r := lr.ReadLine(line, size);
    assert v == behind && v[0] == old'[|file|];
    assert LineLen(v) == 0 <==> v[0] == LF;
  }

  /** The file "a", newline, read into a buffer that holds "x", newline behind it: the second call returns
      the line "x", which is not in the file. */
  method OldLine() returns (first: int, second: int, line: array<Byte>)
    ensures first == 1 && second == 1 && line.Length > 0 && line[0] == 120
  {
    var b := new Byte[BUF_SIZE](i => if i == 2 then 120 else LF);
    line := new Byte[BUF_SIZE](_ => 0);
    var f := new Stream([97, LF]);
    var lr := new LineReader(f, b);
    ghost var s := lr.Seen();
    SplitTwo(s);
    hide LineLen;
    first := ReadOne(lr, line, BUF_SIZE, [97], s[2..]);
    assert lr.Seen() == s[2..];
    SplitTwo(s[2..]);
    second := ReadOne(lr, line, BUF_SIZE, [120], s[4..]);
    assert line[..1][0] == 120;
  }

  lemma SplitTwo(s: seq<Byte>)
    requires |s| >= 2
    ensures s == [s[0]] + [s[1]] + s[2..]
  {
  }
}
