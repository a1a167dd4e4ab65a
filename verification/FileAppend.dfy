/** Any number of `atomic_append` processes adding bytes to one file, each a byte at a time: with
    `O_APPEND`, or with `lseek()` to the end followed by `write()`. */
module FileAppend {

  /** `j` is the loop variable; after `lseek()` the file offset is `off`. */
  datatype Process = Process(numBytes: int, j: int, sought: bool, off: nat)

  datatype File = File(size: nat, procs: seq<Process>)

  function Max(a: int, b: int): int {
    if a < b then b else a
  }

  /** One system call of process `p`.  A write at `off` makes the file at least that long. */
  function Call(append: bool, f: File, p: nat): File {
    if p < |f.procs| && f.procs[p].j < f.procs[p].numBytes then
      var q := f.procs[p];
      if append then File(f.size + 1, f.procs[p := q.(j := q.j + 1)])
      else if !q.sought then f.(procs := f.procs[p := q.(sought := true, off := f.size)])
      else File(Max(f.size, q.off + 1), f.procs[p := q.(j := q.j + 1, sought := false)])
    else f
  }

  /** The schedule names the process that makes each call. */
  function Exec(append: bool, f: File, schedule: seq<nat>): File
    decreases |schedule|
  {
    if schedule == [] then f else Exec(append, Call(append, f, schedule[0]), schedule[1..])
  }

  /** A process for each argument `num-bytes`. */
  function Start(size: nat, counts: seq<int>): File {
    File(size, seq(|counts|, i requires 0 <= i < |counts| => Process(counts[i], 0, false, 0)))
  }

  /** All have left their loops. */
  predicate Finished(f: File) {
    forall i :: 0 <= i < |f.procs| ==> !(f.procs[i].j < f.procs[i].numBytes)
  }

  /** The sum of the positive counts. */
  function Total(counts: seq<int>): nat {
    if counts == [] then 0 else Total(counts[..|counts| - 1]) + Max(0, counts[|counts| - 1])
  }

  /** The largest count, or 0 when none is positive. */
  function Most(counts: seq<int>): (m: nat)
    ensures (forall i :: 0 <= i < |counts| ==> counts[i] <= m) && (m == 0 || m in counts)
  {
    if counts == [] then 0 else Max(Most(counts[..|counts| - 1]), counts[|counts| - 1])
  }

  /** The bytes a process has still to write. */
  function Todo(p: Process): nat {
    if p.j < p.numBytes then p.numBytes - p.j else 0
  }

  function Sum(ps: seq<Process>): nat {
    if ps == [] then 0 else Sum(ps[..|ps| - 1]) + Todo(ps[|ps| - 1])
  }

  function Largest(ps: seq<Process>): nat {
    if ps == [] then 0 else Max(Largest(ps[..|ps| - 1]), Todo(ps[|ps| - 1]))
  }

  // ----- sums and maxima -----

  lemma {:induction false} SumUpdate(ps: seq<Process>, i: nat, q: Process)
    requires i < |ps|
    ensures Sum(ps[i := q]) == Sum(ps) - Todo(ps[i]) + Todo(q)
    decreases |ps|
  {
    var n := |ps| - 1;
    if i == n {
      assert ps[i := q][..n] == ps[..n];
    } else {
      assert ps[i := q][..n] == ps[..n][i := q];
      SumUpdate(ps[..n], i, q);
    }
  }

  lemma {:induction false} SumZero(ps: seq<Process>)
    ensures Sum(ps) == 0 <==> forall i :: 0 <= i < |ps| ==> Todo(ps[i]) == 0
  {
    if ps != [] {
      var n := |ps| - 1;
      SumZero(ps[..n]);
      assert forall i :: 0 <= i < n ==> ps[..n][i] == ps[i];
    }
  }

  lemma {:induction false} LargestIs(ps: seq<Process>)
    ensures forall i :: 0 <= i < |ps| ==> Todo(ps[i]) <= Largest(ps)
    ensures Largest(ps) > 0 ==> exists i :: 0 <= i < |ps| && Todo(ps[i]) == Largest(ps)
    ensures Largest(ps) <= Sum(ps)
  {
    if ps != [] {
      var n := |ps| - 1;
      LargestIs(ps[..n]);
      assert forall i :: 0 <= i < n ==> ps[..n][i] == ps[i];
      if Largest(ps[..n]) > 0 {
        var i :| 0 <= i < n && Todo(ps[..n][i]) == Largest(ps[..n]);
        assert Todo(ps[i]) == Largest(ps[..n]);
      }
    }
  }

  lemma LargestUnique(ps: seq<Process>, m: nat)
    requires forall i :: 0 <= i < |ps| ==> Todo(ps[i]) <= m
    requires m > 0 ==> exists i :: 0 <= i < |ps| && Todo(ps[i]) == m
    ensures Largest(ps) == m
  {
    LargestIs(ps);
  }

  // ----- appending -----

  lemma {:induction false} AppendKeepsTotal(f: File, schedule: seq<nat>)
    ensures var r := Exec(true, f, schedule); r.size + Sum(r.procs) == f.size + Sum(f.procs)
    decreases |schedule|
  {
    if schedule != [] {
      var p := schedule[0];
      if p < |f.procs| && Todo(f.procs[p]) > 0 {
        SumUpdate(f.procs, p, f.procs[p].(j := f.procs[p].j + 1));
      }
      AppendKeepsTotal(Call(true, f, p), schedule[1..]);
    }
  }

  // ----- seeking, then writing -----

  /** Each process has pushed the end of the file at least as far as the bytes it has written. */
  ghost predicate SeekInv(s0: nat, counts: seq<Process>, f: File) {
    && |f.procs| == |counts| && s0 <= f.size && f.size + Sum(f.procs) <= s0 + Sum(counts)
    && forall i :: 0 <= i < |counts| ==>
         && Todo(f.procs[i]) <= Todo(counts[i]) && f.size >= s0 + Todo(counts[i]) - Todo(f.procs[i])
         && (f.procs[i].sought ==> s0 + Todo(counts[i]) - Todo(f.procs[i]) <= f.procs[i].off <= f.size)
  }

  lemma SeekStep(s0: nat, counts: seq<Process>, f: File, p: nat)
    requires SeekInv(s0, counts, f)
    ensures SeekInv(s0, counts, Call(false, f, p))
  {
    if p < |f.procs| && Todo(f.procs[p]) > 0 {
      SumUpdate(f.procs, p, Call(false, f, p).procs[p]);
    }
  }

  lemma {:induction false} SeekRun(s0: nat, counts: seq<Process>, f: File, schedule: seq<nat>)
    requires SeekInv(s0, counts, f)
    ensures SeekInv(s0, counts, Exec(false, f, schedule))
    decreases |schedule|
  {
    hide SeekInv;
    if schedule != [] {
      SeekStep(s0, counts, f, schedule[0]);
      SeekRun(s0, counts, Call(false, f, schedule[0]), schedule[1..]);
    }
  }

  // ----- every size in between occurs -----

  lemma {:induction false} ExecAppend(append: bool, f: File, a: seq<nat>, b: seq<nat>)
    ensures Exec(append, f, a + b) == Exec(append, Exec(append, f, a), b)
    decreases |a|
  {
    if a == [] {
      assert a + b == b;
    } else {
      assert (a + b)[1..] == a[1..] + b;
      ExecAppend(append, Call(append, f, a[0]), a[1..], b);
    }
  }

  predicate Fresh(f: File) {
    forall i :: 0 <= i < |f.procs| ==> !f.procs[i].sought
  }

  /** Processes 0 to k - 1, one call each. */
  function Pass(k: nat): seq<nat> {
    if k == 0 then [] else Pass(k - 1) + [k - 1]
  }

  lemma {:induction false} PassSeeks(f: File, k: nat)
    requires k <= |f.procs| && Fresh(f)
    ensures var r := Exec(false, f, Pass(k));
            && r.size == f.size && |r.procs| == |f.procs|
            && forall i :: 0 <= i < |f.procs| ==>
                 r.procs[i] == if i < k && Todo(f.procs[i]) > 0 then f.procs[i].(sought := true, off := f.size) else f.procs[i]
  {
    if k > 0 {
      PassSeeks(f, k - 1);
      ExecAppend(false, f, Pass(k - 1), [k - 1]);
      ExecOne(false, Exec(false, f, Pass(k - 1)), k - 1);
    }
  }

  lemma ExecOne(append: bool, f: File, p: nat)
    ensures Exec(append, f, [p]) == Call(append, f, p)
  {
  }

  /** All have sought to the same end, so their writes all land on the same byte. */
  lemma {:induction false} PassWrites(f: File, k: nat)
    requires k <= |f.procs|
    requires forall i :: 0 <= i < |f.procs| && Todo(f.procs[i]) > 0 ==> f.procs[i].sought && f.procs[i].off == f.size
    ensures var r := Exec(false, f, Pass(k));
            && |r.procs| == |f.procs|
            && r.size == f.size + (if exists i :: 0 <= i < k && Todo(f.procs[i]) > 0 then 1 else 0)
            && forall i :: 0 <= i < |f.procs| ==>
                 r.procs[i] == if i < k && Todo(f.procs[i]) > 0 then f.procs[i].(j := f.procs[i].j + 1, sought := false)
                               else f.procs[i]
  {
    if k > 0 {
      PassWrites(f, k - 1);
      ExecAppend(false, f, Pass(k - 1), [k - 1]);
      ExecOne(false, Exec(false, f, Pass(k - 1)), k - 1);
    }
  }

  /** A round in which all seek before any writes: the file grows by one byte in all. */
  lemma Collide(f: File) returns (r: File)
    requires Fresh(f) && Largest(f.procs) > 0
    ensures r == Exec(false, f, Pass(|f.procs|) + Pass(|f.procs|))
    ensures Fresh(r) && r.size == f.size + 1 && Largest(r.procs) == Largest(f.procs) - 1
    ensures Sum(r.procs) < Sum(f.procs)
  {
    hide Exec;
    var n := |f.procs|;
    LargestIs(f.procs);
    PassSeeks(f, n);
    var mid := Exec(false, f, Pass(n));
    PassWrites(mid, n);
    ExecAppend(false, f, Pass(n), Pass(n));
    r := Exec(false, mid, Pass(n));
    var i :| 0 <= i < n && Todo(f.procs[i]) == Largest(f.procs);
    assert Todo(mid.procs[i]) > 0;
    if Largest(f.procs) > 1 {
      assert Todo(r.procs[i]) == Largest(f.procs) - 1;
    }
    LargestUnique(r.procs, Largest(f.procs) - 1);
    SumLess(f.procs, r.procs, i);
  }

  lemma {:induction false} SumLess(a: seq<Process>, b: seq<Process>, i: nat)
    requires |a| == |b| && i < |a| && Todo(b[i]) < Todo(a[i])
    requires forall j :: 0 <= j < |a| ==> Todo(b[j]) <= Todo(a[j])
    ensures Sum(b) < Sum(a)
    decreases |a|
  {
    var n := |a| - 1;
    if i < n {
      SumLess(a[..n], b[..n], i);
    } else {
      SumAtMost(a[..n], b[..n]);
    }
  }

  lemma {:induction false} SumAtMost(a: seq<Process>, b: seq<Process>)
    requires |a| == |b| && forall j :: 0 <= j < |a| ==> Todo(b[j]) <= Todo(a[j])
    ensures Sum(b) <= Sum(a)
  {
    if a != [] {
      SumAtMost(a[..|a| - 1], b[..|a| - 1]);
    }
  }

  /** A process that seeks and writes undisturbed. */
  lemma Alone(f: File, p: nat) returns (r: File)
    requires Fresh(f) && p < |f.procs| && Todo(f.procs[p]) > 0
    ensures r == Exec(false, f, [p, p]) && Fresh(r) && r.size == f.size + 1
    ensures Sum(r.procs) == Sum(f.procs) - 1 && Largest(r.procs) <= Largest(f.procs)
  {
    var mid := Call(false, f, p);
    r := Call(false, mid, p);
    assert Exec(false, f, [p, p]) == Exec(false, mid, [p]) by {
      assert [p, p][1..] == [p];
    }
    ExecOne(false, mid, p);
    var q := f.procs[p].(j := f.procs[p].j + 1, sought := false, off := f.size);
    assert r.procs == f.procs[p := q];
    SumUpdate(f.procs, p, q);
    LargestIs(f.procs);
    LargestIs(r.procs);
  }

  lemma {:induction false} Realize(f: File, grow: nat) returns (schedule: seq<nat>)
    requires Fresh(f) && Largest(f.procs) <= grow <= Sum(f.procs)
    ensures var r := Exec(false, f, schedule); Finished(r) && r.size == f.size + grow
    decreases Sum(f.procs)
  {
    hide Exec;
    SumZero(f.procs);
    LargestIs(f.procs);
    if grow == 0 {
      schedule := [];
      ExecNone(false, f);
      assert forall i :: 0 <= i < |f.procs| ==> Todo(f.procs[i]) <= 0;
    } else if grow > Largest(f.procs) {
      var p :| 0 <= p < |f.procs| && Todo(f.procs[p]) > 0;
      var r := Alone(f, p);
      var rest := Realize(r, grow - 1);
      schedule := [p, p] + rest;
      ExecAppend(false, f, [p, p], rest);
    } else {
      var r := Collide(f);
      LargestIs(r.procs);
      var both := Pass(|f.procs|) + Pass(|f.procs|);
      var rest := Realize(r, grow - 1);
      schedule := both + rest;
      ExecAppend(false, f, both, rest);
    }
  }

  lemma ExecNone(append: bool, f: File)
    ensures Exec(append, f, []) == f
  {
  }

  ghost predicate Ends(append: bool, f: File, schedule: seq<nat>, size: nat) {
    Finished(Exec(append, f, schedule)) && Exec(append, f, schedule).size == size
  }

  lemma {:induction false} StartIs(size: nat, counts: seq<int>)
    ensures Sum(Start(size, counts).procs) == Total(counts) && Largest(Start(size, counts).procs) == Most(counts)
  {
    if counts != [] {
      var n := |counts| - 1;
      StartIs(size, counts[..n]);
      assert Start(size, counts).procs[..n] == Start(size, counts[..n]).procs;
    }
  }

  /** Some schedule lets every process finish. */
  lemma {:induction false} AppendFinishes(f: File) returns (schedule: seq<nat>)
    ensures Finished(Exec(true, f, schedule))
    decreases Sum(f.procs)
  {
    hide Exec;
    SumZero(f.procs);
    schedule := [];
    ExecNone(true, f);
    if Sum(f.procs) > 0 {
      var p :| 0 <= p < |f.procs| && Todo(f.procs[p]) > 0;
      SumUpdate(f.procs, p, f.procs[p].(j := f.procs[p].j + 1));
      ExecOne(true, f, p);
      var rest := AppendFinishes(Call(true, f, p));
      schedule := [p] + rest;
      ExecAppend(true, f, [p], rest);
    }
  }

  /** With `O_APPEND` no byte is lost: the sum of the counts is the only growth there is. */
  lemma AppendTheorem(size: nat, counts: seq<int>, final: nat)
    ensures (exists schedule :: Ends(true, Start(size, counts), schedule, final)) <==> final == size + Total(counts)
  {
    hide Exec;
    var f := Start(size, counts);
    StartIs(size, counts);
    if schedule :| Ends(true, f, schedule, final) {
      AppendKeepsTotal(f, schedule);
      SumZero(Exec(true, f, schedule).procs);
    }
    if final == size + Total(counts) {
      var schedule := AppendFinishes(f);
      AppendKeepsTotal(f, schedule);
      SumZero(Exec(true, f, schedule).procs);
      assert Ends(true, f, schedule, final);
    }
  }

  /** With seek and write the file can end at a size exactly when it lies between the largest count
      and the sum of the counts. */
  lemma SeekTheorem(size: nat, counts: seq<int>, final: nat)
    ensures (exists schedule :: Ends(false, Start(size, counts), schedule, final)) <==>
            size + Most(counts) <= final <= size + Total(counts)
  {
    hide Exec;
    var f := Start(size, counts);
    StartIs(size, counts);
    if schedule :| Ends(false, f, schedule, final) {
      SeekRun(size, f.procs, f, schedule);
      LargestIs(f.procs);
      SumZero(Exec(false, f, schedule).procs);
      if Largest(f.procs) > 0 {
        var i :| 0 <= i < |f.procs| && Todo(f.procs[i]) == Largest(f.procs);
        assert Todo(Exec(false, f, schedule).procs[i]) == 0;
      }
    }
    if size + Most(counts) <= final <= size + Total(counts) {
      var schedule := Realize(f, final - size);
      assert Ends(false, f, schedule, final);
    }
  }
}
