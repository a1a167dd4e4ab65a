/** `solve_dot` of exercise 18-03: removing "." and ".." from an absolute pathname in place, with a
    reading cursor and a writing cursor on the same array. */
module SolveDot {
  import opened Basics

  // ----- the loop, on values -----

  /** `a` is the array with its terminating null; `i` reads, `j` writes, `jy` is the last slash written
      and `jx` the one before it. */
  datatype Cursors = Cursors(a: seq<char>, i: nat, j: nat, jx: nat, jy: nat)

  predicate CursorsOk(c: Cursors, n: nat) {
    |c.a| == n + 1 && c.i <= n && c.jx <= c.jy <= c.j <= c.i
  }

  /** The last slash at or before `k`, or -1: where `for (jx--; path[jx] != '/'; jx--)` stops, which is
      in front of the array when there is none. */
  function SlashBefore(a: seq<char>, k: int): (r: int)
    requires k < |a|
    ensures -1 <= r && r <= (if k < 0 then -1 else k) && (r >= 0 ==> a[r] == '/')
  {
    if k < 0 then -1 else if a[k] == '/' then k else SlashBefore(a, k - 1)
  }

  /** One turn of the loop; `None` when it leaves the array. */
  function Turn(c: Cursors, n: nat): (r: Option<Cursors>)
    requires CursorsOk(c, n) && c.i < n
    ensures r.Some? ==> CursorsOk(r.value, n) && r.value.i == c.i + 1
  {
    if c.a[c.i] != '/' then Some(c.(a := c.a[c.j := c.a[c.i]], i := c.i + 1, j := c.j + 1))
    else
      var offset := c.j - c.jy;
      if offset == 3 then
        if c.a[c.jy + 1] == '.' && c.a[c.jy + 2] == '.' then
          var k := SlashBefore(c.a, c.jx - 1);
          if k < 0 then None else Some(Cursors(c.a, c.i + 1, c.jx + 1, k, c.jx))
        else Some(c.(i := c.i + 1, j := c.j + 1))
      else if offset == 2 then
        if c.a[c.jy + 1] == '.' then Some(c.(i := c.i + 1, j := c.jy + 1)) else Some(c.(i := c.i + 1, j := c.j + 1))
      else if offset == 1 then Some(c.(i := c.i + 1, j := c.jy + 1))
      else Some(Cursors(c.a[c.j := '/'], c.i + 1, c.j + 1, c.jy, c.j))
  }

  /** The rest of the loop. */
  function Turns(c: Cursors, n: nat): (r: Option<Cursors>)
    requires CursorsOk(c, n)
    ensures r.Some? ==> CursorsOk(r.value, n) && r.value.i == n
    decreases n - c.i
  {
    if c.i == n then Some(c)
    else
      var next := Turn(c, n);
      if next.None? then None else Turns(next.value, n)
  }

  /** `NULL`, a read outside the array, or the string left in it. */
  datatype Outcome = NotAbsolute | OutOfBounds | Done(path: string)

  function Solve(path: string): Outcome {
    if path == "" || path[0] != '/' then NotAbsolute
    else
      match Turns(Cursors(path + ['\0'], 0, 0, 0, 0), |path|)
      case None => OutOfBounds
      case Some(c) => Done(c.a[..c.j])
  }

  // ----- the code -----

  /** The array and the local variables of `solve_dot`, as a value. */
  ghost function State(path: array<char>, len: nat, i: nat, j: nat, jx: nat, jy: nat): (c: Cursors)
    requires len < path.Length
    reads path
    ensures |c.a| == len + 1
  {
    Cursors(path[..len + 1], i, j, jx, jy)
  }

  /** `solve_dot`, for every string: the array is left with the result and its null. */
  method SolveInPlace(path: array<char>, len: nat) returns (r: Outcome)
    requires len < path.Length && path[len] == '\0'
    modifies path
    ensures r == Solve(old(path[..len]))
    ensures r.Done? ==> |r.path| <= len && path[..|r.path|] == r.path && path[|r.path|] == '\0'
    ensures r.NotAbsolute? <==> len == 0 || old(path[0]) != '/'
    ensures r.NotAbsolute? ==> path[..] == old(path[..])
    ensures path[len + 1..] == old(path[len + 1..])
  {
    hide Turn;
    if path[0] != '/' {
      return NotAbsolute;
    }
    ghost var s0 := State(path, len, 0, 0, 0, 0);
    assert path[..len + 1] == path[..len] + ['\0'];
    var i, j, jx, jy := 0, 0, 0, 0;
    while i < len
      invariant 0 <= jx <= jy <= j <= i <= len
      invariant path[len + 1..] == old(path[len + 1..])
      invariant Turns(State(path, len, i, j, jx, jy), len) == Turns(s0, len)
    {
      if path[i] != '/' {
        CopyChar(path, len, i, j, jx, jy);
      } else {
        var inside;
        inside, j, jx, jy := EndComponent(path, len, i, j, jx, jy);
        if !inside {
          return OutOfBounds;
        }
      }
      i, j := i + 1, j + 1;
    }
    r := Done(path[..j]);
    assert path[..len + 1][..j] == path[..j];
    path[j] := '\0';
  }

  /** The loop body for a character other than a slash. */
  method CopyChar(path: array<char>, len: nat, i: nat, j: nat, jx: nat, jy: nat)
    requires jx <= jy <= j <= i < len < path.Length && path[i] != '/'
    modifies path
    ensures Turn(old(State(path, len, i, j, jx, jy)), len) == Some(State(path, len, i + 1, j + 1, jx, jy))
    ensures path[len + 1..] == old(path[len + 1..])
  {
    path[j] := path[i];
    assert path[..len + 1] == old(path[..len + 1])[j := old(path[i])];
  }

  /** The loop body for a slash; `inside` is false when the scan backwards leaves the array. */
  method EndComponent(path: array<char>, len: nat, i: nat, j0: nat, jx0: nat, jy0: nat)
    returns (inside: bool, j: nat, jx: nat, jy: nat)
    requires jx0 <= jy0 <= j0 <= i < len < path.Length && path[i] == '/'
    modifies path
    ensures Turn(old(State(path, len, i, j0, jx0, jy0)), len)
            == if inside then Some(State(path, len, i + 1, j + 1, jx, jy)) else None
    ensures inside ==> jx <= jy <= j <= i
    ensures path[len + 1..] == old(path[len + 1..])
  {
    hide SlashBefore;
    inside, j, jx, jy := true, j0, jx0, jy0;
    var offset := j - jy;
    if offset == 3 {
      if path[jy + 1] == '.' && path[jy + 2] == '.' {
        var back := ScanBack(path, jx - 1);
        SlashBeforeSame(path[..], path[..len + 1], jx - 1);
        if back < 0 {
          inside := false;
        } else {
          j, jy, jx := jx, jx, back;
        }
      }
    } else if offset == 2 {
      if path[jy + 1] == '.' {
        j := jy;
      }
    } else if offset == 1 {
      j := jy;
    } else {
      jx := jy;
      jy := j;
      path[j] := '/';
      assert path[..len + 1] == old(path[..len + 1])[j := '/'];
    }
  }

  /** The inner loop, stopped before it leaves the array. */
  method ScanBack(path: array<char>, start: int) returns (k: int)
    requires -1 <= start < path.Length
    ensures k == SlashBefore(path[..], start)
  {
    k := start;
    while k >= 0 && path[k] != '/'
      invariant -1 <= k <= start && SlashBefore(path[..], k) == SlashBefore(path[..], start)
    {
      k := k - 1;
    }
  }

  lemma {:induction false} SlashBeforeSame(a: seq<char>, b: seq<char>, k: int)
    requires k < |a| && k < |b| && forall i :: 0 <= i <= k ==> a[i] == b[i]
    ensures SlashBefore(a, k) == SlashBefore(b, k)
    decreases k
  {
    if k >= 0 {
      SlashBeforeSame(a, b, k - 1);
    }
  }
}
