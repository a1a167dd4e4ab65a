/** Exercise 13-5: where `tail -n` starts to print, found by reading a file backwards in blocks. */
module TailOffset {
  import opened Basics

  // ----- the position -----

  function CountLf(s: seq<Byte>): nat {
    if s == [] then 0 else (if s[0] == LF then 1 else 0) + CountLf(s[1..])
  }

  /** The position behind a newline that is followed by exactly `n` more, or 0 when there are at most
      `n` in the whole file. */
  predicate IsTailStart(file: seq<Byte>, n: nat, o: nat) {
    || (o == 0 && CountLf(file) <= n)
    || (0 < o <= |file| && file[o - 1] == LF && CountLf(file[o..]) == n)
  }

  lemma {:induction false} CountLfSuffix(s: seq<Byte>, k: nat)
    requires k <= |s|
    ensures CountLf(s[k..]) <= CountLf(s)
  {
    if k > 0 {
      CountLfSuffix(s[1..], k - 1);
      assert s[1..][k - 1..] == s[k..];
    }
  }

  lemma CountLfStrict(s: seq<Byte>, o: nat, o': nat)
    requires o < o' <= |s| && s[o' - 1] == LF
    ensures CountLf(s[o'..]) < CountLf(s[o..])
  {
    CountLfSuffix(s[o..], o' - 1 - o);
    assert s[o..][o' - 1 - o..] == s[o' - 1..];
    assert s[o' - 1..][1..] == s[o'..];
  }

  lemma TailStartUnique(file: seq<Byte>, n: nat, o: nat, o': nat)
    requires IsTailStart(file, n, o) && IsTailStart(file, n, o')
    ensures o == o'
  {
    assert file[0..] == file;
    if o < o' {
      CountLfStrict(file, o, o');
    } else if o' < o {
      CountLfStrict(file, o', o);
    }
  }

  // ----- the scan -----

  /** `lseek()` and `read()` of the bytes from `offset` up to `preoff`. */
  method ReadBlock(file: seq<Byte>, offset: nat, preoff: nat, buf: array<Byte>) returns (rsize: nat)
    requires offset <= preoff <= |file| && preoff - offset <= buf.Length
    modifies buf
    ensures rsize == preoff - offset && buf[..rsize] == file[offset..preoff]
  {
    rsize := preoff - offset;
    forall i | 0 <= i < rsize {
      buf[i] := file[offset + i];
    }
  }

  lemma CountLfNone()
    ensures CountLf([]) == 0
  {
  }

  lemma CountLfStep(file: seq<Byte>, k: nat)
    requires k < |file|
    ensures CountLf(file[k..]) == (if file[k] == LF then 1 else 0) + CountLf(file[k + 1..])
  {
    assert file[k..][1..] == file[k + 1..];
  }

  /** The loops of `showline` that set `offset`, for any size of the block buffer. */
  method FindTailStart(file: seq<Byte>, numline: nat, bufSize: nat) returns (offset: nat)
    requires bufSize > 0
    ensures IsTailStart(file, numline, offset)
  {
    var buf := new Byte[bufSize](_ => 0);
    hide CountLf;
    var preoff: nat, numlf := |file|, 0;
    offset := 0;
    CountLfNone();
    assert file[|file|..] == [];
    while true
      invariant preoff <= |file| && numlf == CountLf(file[preoff..]) && numlf <= numline
      decreases preoff
    {
      offset := if preoff > bufSize then preoff - bufSize else 0;
      var rsize := ReadBlock(file, offset, preoff, buf);
      ghost var block := offset;
      preoff := offset;
      var i: int := rsize - 1;
      while i >= 0
        invariant -1 <= i < rsize && offset == block && buf[..rsize] == file[block..block + rsize]
        invariant numlf == CountLf(file[block + i + 1..]) && numlf <= numline
      {
        CountLfStep(file, block + i);
        assert buf[i] == buf[..rsize][i] == file[block + i];
        if buf[i] == LF {
          numlf := numlf + 1;
        }
        if numlf > numline {
          offset := offset + i + 1;
          break;
        }
        i := i - 1;
      }
      if offset == 0 || numlf > numline {
        break;
      }
    }
    assert file[0..] == file;
  }

  // ----- lines -----

  /** The lines of a file, each with its newline; the last may lack one. */
  function Lines(s: seq<Byte>): seq<seq<Byte>> {
    if s == [] then [] else AddByte(s[0], Lines(s[1..]))
  }

  /** One more byte in front: a newline, or the last byte, is a line; others join the first line. */
  function AddByte(c: Byte, ls: seq<seq<Byte>>): seq<seq<Byte>> {
    if c == LF || ls == [] then [[c]] + ls else [[c] + ls[0]] + ls[1..]
  }

  lemma AddByteAppend(c: Byte, ls: seq<seq<Byte>>, more: seq<seq<Byte>>)
    requires c == LF || ls != []
    ensures AddByte(c, ls + more) == AddByte(c, ls) + more
  {
    if c != LF {
      assert (ls + more)[1..] == ls[1..] + more;
    }
  }

  predicate Terminated(s: seq<Byte>) {
    s == [] || s[|s| - 1] == LF
  }

  function Concat(ls: seq<seq<Byte>>): seq<Byte> {
    if ls == [] then [] else ls[0] + Concat(ls[1..])
  }

  function Last(ls: seq<seq<Byte>>, n: nat): seq<seq<Byte>> {
    if |ls| <= n then ls else ls[|ls| - n..]
  }

  lemma {:induction false} ConcatLines(s: seq<Byte>)
    ensures Concat(Lines(s)) == s
    ensures Lines(s) == [] <==> s == []
  {
    if s != [] {
      ConcatLines(s[1..]);
      var r, ls := Lines(s[1..]), Lines(s);
      if s[0] == LF || r == [] {
        assert ls[1..] == r;
      } else {
        assert ls[1..] == r[1..];
      }
    }
  }

  lemma {:induction false} LinesCount(s: seq<Byte>)
    ensures |Lines(s)| == CountLf(s) + if Terminated(s) then 0 else 1
  {
    if s != [] {
      LinesCount(s[1..]);
      ConcatLines(s[1..]);
    }
  }

  /** A newline is where lines part. */
  lemma {:induction false} LinesSplit(a: seq<Byte>, b: seq<Byte>)
    requires Terminated(a)
    ensures Lines(a + b) == Lines(a) + Lines(b)
  {
    hide AddByte;
    if a == [] {
      assert a + b == b;
    } else {
      LinesSplit(a[1..], b);
      assert (a + b)[1..] == a[1..] + b;
      ConcatLines(a[1..]);
      AddByteAppend(a[0], Lines(a[1..]), Lines(b));
    }
  }

  /** Printing from the tail start prints the last `n` lines, but one more when the file does not end
      with a newline. */
  lemma TailIsLines(file: seq<Byte>, n: nat, o: nat)
    requires IsTailStart(file, n, o)
    ensures o <= |file| && file[o..] == Concat(Last(Lines(file), if Terminated(file) then n else n + 1))
  {
    hide Lines, Concat, CountLf, Last, Terminated;
    LinesCount(file);
    if o == 0 {
      ConcatLines(file);
      LastAll(Lines(file), if Terminated(file) then n else n + 1);
      assert file[0..] == file;
    } else {
      var a, b := file[..o], file[o..];
      assert file == a + b;
      TerminatedParts(file, o);
      LinesSplit(a, b);
      LinesCount(b);
      LastAppend(Lines(a), Lines(b));
      ConcatLines(b);
    }
  }

  lemma TerminatedParts(file: seq<Byte>, o: nat)
    requires 0 < o <= |file| && file[o - 1] == LF
    ensures Terminated(file[..o]) && (Terminated(file[o..]) <==> Terminated(file))
  {
  }

  lemma LastAll(ls: seq<seq<Byte>>, k: nat)
    requires |ls| <= k
    ensures Last(ls, k) == ls
  {
  }

  lemma LastAppend(xs: seq<seq<Byte>>, ys: seq<seq<Byte>>)
    ensures Last(xs + ys, |ys|) == ys
  {
  }

  lemma {:induction false} ConcatLonger(ls: seq<seq<Byte>>, k: nat)
    requires k < |ls| && forall i :: 0 <= i < |ls| ==> ls[i] != []
    ensures |Concat(ls[|ls| - k..])| < |Concat(ls)|
  {
    if |ls| - k == 1 {
      assert ls[1..] == ls[|ls| - k..];
    } else {
      ConcatLonger(ls[1..], k);
      assert ls[1..][|ls| - 1 - k..] == ls[|ls| - k..];
    }
  }

  lemma {:induction false} LineNotEmpty(s: seq<Byte>)
    ensures forall i :: 0 <= i < |Lines(s)| ==> Lines(s)[i] != []
  {
    if s != [] {
      LineNotEmpty(s[1..]);
    }
  }

  /** The command prints the last `n` lines exactly when the file ends with a newline or has no more
      than `n` lines. */
  lemma TailTheorem(file: seq<Byte>, n: nat, o: nat)
    requires IsTailStart(file, n, o)
    ensures o <= |file|
    ensures file[o..] == Concat(Last(Lines(file), n)) <==> Terminated(file) || |Lines(file)| <= n
  {
    hide Lines, Concat, CountLf;
    TailIsLines(file, n, o);
    if !Terminated(file) && |Lines(file)| > n {
      LineNotEmpty(file);
      var more := Last(Lines(file), n + 1);
      ConcatLonger(more, n);
      assert more[|more| - n..] == Last(Lines(file), n);
    }
  }

  /** Asked for one line of the file "a", newline, "b", the scan goes back to the start. */
  lemma TailExample()
    ensures var file: seq<Byte> := [97, LF, 98];
            IsTailStart(file, 1, 0) && file[0..] != Concat(Last(Lines(file), 1))
  {
    var file: seq<Byte> := [97, LF, 98];
    assert file[1..] == [LF, 98] && file[1..][1..] == [98] && [98][1..] == [];
    assert CountLf([98]) == 0 && CountLf([LF, 98]) == 1 && CountLf(file) == 1;
    assert Lines([98]) == [[98]];
    assert Lines([LF, 98]) == [[LF], [98]];
    assert |Lines(file)| == 2;
    TailTheorem(file, 1, 0);
  }
}
