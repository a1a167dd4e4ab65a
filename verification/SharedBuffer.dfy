/** The writer and the reader of exercise 54-01: one shared buffer handed to and fro with two POSIX
    semaphores.  Each constructor of `WriterAt` and `ReaderAt` is a point between two accesses to
    shared state, so the steps below interleave as the two processes do.  The reader tests
    `shm->size` after it has given the buffer away. */
module SharedBuffer {
  import opened Basics

  const BUF_SIZE := 1024

  datatype WriterAt = WaitRead | Read | SetSize | Tally | Post | Test | FinalWait | Ended

  datatype ReaderAt = WaitWrite | Count | Write | PostBack | TestSize | Left

  /** `got` is the result of `read()` before it is stored in `size`; `rest` is the input not yet read
      and `out` what the reader has written. */
  datatype State = State(semRead: nat, semWrite: nat, size: nat, data: seq<Byte>,
                         writer: WriterAt, got: nat, wdone: nat, rest: seq<Byte>,
                         reader: ReaderAt, rdone: nat, out: seq<Byte>)

  ghost predicate Init(input: seq<Byte>, s: State) {
    |s.data| == BUF_SIZE && s == State(1, 0, 0, s.data, WaitRead, 0, 0, input, WaitWrite, 0, [])
  }

  // ----- steps -----

  /** `read()` returns some bytes, as many as it likes up to the size of the buffer, and none exactly
      at the end of the input. */
  ghost predicate ReadReturns(rest: seq<Byte>, n: nat) {
    n <= |rest| && n <= BUF_SIZE && (n == 0 <==> rest == [])
  }

  ghost predicate WriterStep(s: State, s': State) {
    match s.writer
    case WaitRead => s.semRead > 0 && s' == s.(semRead := s.semRead - 1, writer := Read)
    case Read =>
      && ReadReturns(s.rest, s'.got) && |s.data| == BUF_SIZE
      && s' == s.(data := s.rest[..s'.got] + s.data[s'.got..], got := s'.got, rest := s.rest[s'.got..], writer := SetSize)
    case SetSize => s' == s.(size := s.got, writer := Tally)
    case Tally => s' == s.(wdone := s.wdone + s.size, writer := Post)
    case Post => s' == s.(semWrite := s.semWrite + 1, writer := Test)
    case Test => s' == s.(writer := if s.size == 0 then FinalWait else WaitRead)
    case FinalWait => s.semRead > 0 && s' == s.(semRead := s.semRead - 1, writer := Ended)
    case Ended => false
  }

  ghost predicate ReaderStep(s: State, s': State) {
    match s.reader
    case WaitWrite => s.semWrite > 0 && s' == s.(semWrite := s.semWrite - 1, reader := Count)
    case Count => s' == s.(rdone := s.rdone + s.size, reader := Write)
    case Write => s.size <= |s.data| && s' == s.(out := s.out + s.data[..s.size], reader := PostBack)
    case PostBack => s' == s.(semRead := s.semRead + 1, reader := TestSize)
    case TestSize => s' == s.(reader := if s.size == 0 then Left else WaitWrite)
    case Left => false
  }

  ghost predicate Step(s: State, s': State) {
    WriterStep(s, s') || ReaderStep(s, s')
  }

  /** `n` steps lead from `s` to `s'`. */
  ghost predicate Steps(s: State, n: nat, s': State)
    decreases n
  {
    if n == 0 then s == s' else exists t :: Steps(s, n - 1, t) && Step(t, s')
  }

  // ----- the invariant -----

  function WriterHolds(s: State): nat {
    if s.writer in {Read, SetSize, Tally, Post} then 1 else 0
  }

  function ReaderHolds(s: State): nat {
    if s.reader in {Count, Write, PostBack} then 1 else 0
  }

  /** Semaphores and holders share one token; the writer keeps it when it ends. */
  ghost predicate OneToken(s: State) {
    s.semRead + s.semWrite + WriterHolds(s) + ReaderHolds(s) + (if s.writer == Ended then 1 else 0) == 1
  }

  /** The bytes in the buffer that the reader has not written out yet. */
  function InFlight(s: State): seq<Byte>
    requires s.size <= |s.data| && s.got <= |s.data|
  {
    if s.writer == SetSize then s.data[..s.got]
    else if s.writer in {Tally, Post} || s.semWrite == 1 || s.reader in {Count, Write} then s.data[..s.size]
    else []
  }

  ghost predicate Inv(input: seq<Byte>, s: State) {
    && |s.data| == BUF_SIZE && s.size <= BUF_SIZE && s.got <= BUF_SIZE
    && OneToken(s)
    && s.out + InFlight(s) + s.rest == input
    && (s.writer == SetSize && s.got == 0 ==> s.rest == [])
    && (s.writer in {Tally, Post, Test} && s.size == 0 ==> s.rest == [])
    && (s.writer in {FinalWait, Ended} ==> s.size == 0 && s.rest == [])
    && (s.writer in {WaitRead, Read, SetSize} && (s.semWrite == 1 || s.reader != WaitWrite) ==> s.size != 0)
    && (s.writer in {Test, FinalWait} && s.size == 0 && s.semRead == 1 ==> s.reader in {TestSize, Left})
    && (s.writer == Ended ==> s.reader in {TestSize, Left})
    && (s.reader == Left ==> s.size == 0 && s.writer in {Tally, Post, Test, FinalWait, Ended})
    && s.wdone + |s.rest| + (if s.writer == SetSize then s.got else if s.writer == Tally then s.size else 0) == |input|
    && s.rdone == |s.out| + if s.reader == Write then s.size else 0
  }

  lemma InitInv(input: seq<Byte>, s: State)
    requires Init(input, s)
    ensures Inv(input, s)
  {
    assert [] + input == input;
  }

  lemma WriterInv(input: seq<Byte>, s: State, s': State)
    requires Inv(input, s) && WriterStep(s, s')
    ensures Inv(input, s')
  {
    if s.writer == Read {
      assert s'.data[..s'.got] == s.rest[..s'.got];
      assert s.rest == s.rest[..s'.got] + s.rest[s'.got..];
      assert s.out + [] == s.out;
      assert s.out + (s'.data[..s'.got] + s'.rest) == s.out + s'.data[..s'.got] + s'.rest;
    }
  }

  lemma ReaderInv(input: seq<Byte>, s: State, s': State)
    requires Inv(input, s) && ReaderStep(s, s')
    ensures Inv(input, s')
  {
    if s.reader == Write {
      assert s'.out + [] == s'.out;
    }
  }

  lemma {:induction false} RunInv(input: seq<Byte>, s0: State, n: nat, s: State)
    requires Init(input, s0) && Steps(s0, n, s)
    ensures Inv(input, s)
    decreases n
  {
    hide Inv, WriterStep, ReaderStep;
    if n == 0 {
      InitInv(input, s0);
    } else {
      var t :| Steps(s0, n - 1, t) && Step(t, s);
      RunInv(input, s0, n - 1, t);
      if WriterStep(t, s) {
        WriterInv(input, t, s);
      } else {
        ReaderInv(input, t, s);
      }
    }
  }

  /** In every run: one token; the output is a prefix of the input; and when the reader has left its
      loop the output is the whole input, although it tested the size after giving the buffer away. */
  lemma RunTheorem(input: seq<Byte>, s0: State, n: nat, s: State)
    requires Init(input, s0) && Steps(s0, n, s)
    ensures OneToken(s)
    ensures s.out <= input
    ensures s.reader == Left ==> s.out == input && s.rdone == |input|
    ensures s.writer == Ended ==> s.wdone == |input|
  {
    hide Steps;
    RunInv(input, s0, n, s);
    assert s.out + InFlight(s) + s.rest == s.out + (InFlight(s) + s.rest);
    if s.reader == Left {
      assert InFlight(s) == [] && s.rest == [];
    }
  }

  // ----- every run ends -----

  predicate Pending(s: State) {
    if s.writer == SetSize then s.got != 0 else s.size != 0
  }

  /** At most this many buffers are still to be posted by the writer. */
  function Posts(s: State): nat {
    match s.writer
    case WaitRead => |s.rest| + 1
    case Read => |s.rest| + 1
    case SetSize => 1 + if Pending(s) then |s.rest| + 1 else 0
    case Tally => 1 + if Pending(s) then |s.rest| + 1 else 0
    case Post => 1 + if Pending(s) then |s.rest| + 1 else 0
    case Test => if Pending(s) then |s.rest| + 1 else 0
    case FinalWait => 0
    case Ended => 0
  }

  function WriterRank(w: WriterAt): nat {
    match w
    case Test => 9 case WaitRead => 8 case Read => 6 case SetSize => 5 case Tally => 4 case Post => 3
    case FinalWait => 1 case Ended => 0
  }

  function ReaderRank(r: ReaderAt): nat {
    match r
    case Count => 4 case Write => 3 case PostBack => 2 case TestSize => 1 case WaitWrite => 0 case Left => 0
  }

  function Measure(s: State): nat {
    20 * Posts(s) + 5 * s.semWrite + WriterRank(s.writer) + ReaderRank(s.reader)
  }

  lemma StepDecreases(s: State, s': State)
    requires Step(s, s')
    ensures Measure(s') < Measure(s)
  {
  }

  /** No run is longer than 20 steps per input byte and 28 more. */
  lemma {:induction false} RunsEnd(input: seq<Byte>, s0: State, n: nat, s: State)
    requires Init(input, s0) && Steps(s0, n, s)
    ensures n + Measure(s) <= 20 * |input| + 28
    decreases n
  {
    hide Step;
    if n > 0 {
      var t :| Steps(s0, n - 1, t) && Step(t, s);
      RunsEnd(input, s0, n - 1, t);
      StepDecreases(t, s);
    }
  }

  // ----- how runs end -----

  ghost predicate Stuck(s: State) {
    !exists s' :: Step(s, s')
  }

  predicate WriterBlocked(s: State) {
    s.writer == Ended || (s.writer in {WaitRead, FinalWait} && s.semRead == 0)
  }

  predicate ReaderBlocked(s: State) {
    s.reader == Left || (s.reader == WaitWrite && s.semWrite == 0)
  }

  /** The writer's step when `read()` returns as much as it can. */
  function WriterNext(s: State): State
    requires !WriterBlocked(s) && |s.data| == BUF_SIZE
  {
    match s.writer
    case WaitRead => s.(semRead := s.semRead - 1, writer := Read)
    case Read =>
      var n := if |s.rest| <= BUF_SIZE then |s.rest| else BUF_SIZE;
      s.(data := s.rest[..n] + s.data[n..], got := n, rest := s.rest[n..], writer := SetSize)
    case SetSize => s.(size := s.got, writer := Tally)
    case Tally => s.(wdone := s.wdone + s.size, writer := Post)
    case Post => s.(semWrite := s.semWrite + 1, writer := Test)
    case Test => s.(writer := if s.size == 0 then FinalWait else WaitRead)
    case FinalWait => s.(semRead := s.semRead - 1, writer := Ended)
  }

  function ReaderNext(s: State): State
    requires !ReaderBlocked(s) && s.size <= |s.data|
  {
    match s.reader
    case WaitWrite => s.(semWrite := s.semWrite - 1, reader := Count)
    case Count => s.(rdone := s.rdone + s.size, reader := Write)
    case Write => s.(out := s.out + s.data[..s.size], reader := PostBack)
    case PostBack => s.(semRead := s.semRead + 1, reader := TestSize)
    case TestSize => s.(reader := if s.size == 0 then Left else WaitWrite)
  }

  lemma WriterCan(s: State)
    requires !WriterBlocked(s) && |s.data| == BUF_SIZE
    ensures Step(s, WriterNext(s))
  {
  }

  lemma ReaderCan(s: State)
    requires !ReaderBlocked(s) && s.size <= |s.data|
    ensures Step(s, ReaderNext(s))
  {
  }

  /** The writer waits for a reader that has left without taking the last, empty buffer. */
  predicate Hangs(s: State) {
    s.writer == FinalWait && s.reader == Left && s.semRead == 0 && s.semWrite == 1
  }

  /** In every reachable state from which no process can go on, the reader has left with the whole
      input written; the writer has ended too, or it waits for the reader forever. */
  lemma StuckTheorem(input: seq<Byte>, s0: State, n: nat, s: State)
    requires Init(input, s0) && Steps(s0, n, s) && Stuck(s)
    ensures s.reader == Left && s.out == input && (s.writer == Ended || Hangs(s))
  {
    RunInv(input, s0, n, s);
    RunTheorem(input, s0, n, s);
    if !WriterBlocked(s) {
      WriterCan(s);
    }
    if !ReaderBlocked(s) {
      ReaderCan(s);
    }
  }

  // ----- both ends occur -----

  /** Nothing in flight, both at the top of their loops. */
  ghost predicate Idle(s: State) {
    |s.data| == BUF_SIZE && s.size <= BUF_SIZE && s.semRead == 1 && s.semWrite == 0 && s.writer == WaitRead && s.reader == WaitWrite
  }

  lemma {:induction false} StepsThen(s: State, n: nat, t: State, u: State)
    requires Steps(s, n, t) && Step(t, u)
    ensures Steps(s, n + 1, u)
  {
  }

  lemma {:induction false} StepsAppend(s: State, n: nat, t: State, m: nat, u: State)
    requires Steps(s, n, t) && Steps(t, m, u)
    ensures Steps(s, n + m, u)
    decreases m
  {
    hide Step;
    if m > 0 {
      var v :| Steps(t, m - 1, v) && Step(v, u);
      StepsAppend(s, n, t, m - 1, v);
      StepsThen(s, n + m - 1, v, u);
    }
  }

  lemma WriterMoves(s: State, n: nat, t: State) returns (u: State)
    requires Steps(s, n, t) && !WriterBlocked(t) && |t.data| == BUF_SIZE
    ensures u == WriterNext(t) && Steps(s, n + 1, u)
  {
    u := WriterNext(t);
    WriterCan(t);
    StepsThen(s, n, t, u);
  }

  lemma ReaderMoves(s: State, n: nat, t: State) returns (u: State)
    requires Steps(s, n, t) && !ReaderBlocked(t) && t.size <= |t.data|
    ensures u == ReaderNext(t) && Steps(s, n + 1, u)
  {
    u := ReaderNext(t);
    ReaderCan(t);
    StepsThen(s, n, t, u);
  }

  function Chunk(s: State): nat {
    if |s.rest| <= BUF_SIZE then |s.rest| else BUF_SIZE
  }

  /** The writer from its `sem_wait()` to its next one. */
  lemma WriterRound(s: State) returns (t: State)
    requires |s.data| == BUF_SIZE && s.writer == WaitRead && s.semRead > 0
    ensures Steps(s, 6, t)
    ensures var n := Chunk(s);
            t == s.(semRead := s.semRead - 1, semWrite := s.semWrite + 1, size := n, got := n, wdone := s.wdone + n,
                    data := s.rest[..n] + s.data[n..], rest := s.rest[n..], writer := if n == 0 then FinalWait else WaitRead)
  {
    hide Steps;
    StepsNone(s);
    t := WriterMoves(s, 0, s);
    t := WriterMoves(s, 1, t);
    t := WriterMoves(s, 2, t);
    t := WriterMoves(s, 3, t);
    t := WriterMoves(s, 4, t);
    t := WriterMoves(s, 5, t);
  }

  lemma StepsNone(s: State)
    ensures Steps(s, 0, s)
  {
  }

  /** The reader from its `sem_wait()` up to the test of the size. */
  lemma ReaderRound(s: State) returns (t: State)
    requires s.size <= |s.data| && s.reader == WaitWrite && s.semWrite > 0
    ensures Steps(s, 4, t)
    ensures t == s.(semRead := s.semRead + 1, semWrite := s.semWrite - 1, rdone := s.rdone + s.size,
                    out := s.out + s.data[..s.size], reader := TestSize)
  {
    hide Steps;
    StepsNone(s);
    t := ReaderMoves(s, 0, s);
    t := ReaderMoves(s, 1, t);
    t := ReaderMoves(s, 2, t);
    t := ReaderMoves(s, 3, t);
  }

  /** A full exchange of a buffer that is not empty. */
  lemma Exchange(s: State) returns (t: State)
    requires Idle(s) && s.rest != []
    ensures Steps(s, 11, t) && Idle(t) && t.rest == s.rest[Chunk(s)..]
  {
    hide Steps;
    var a := WriterRound(s);
    var b := ReaderRound(a);
    StepsAppend(s, 6, a, 4, b);
    t := ReaderMoves(s, 10, b);
  }

  /** From the top of both loops, the two processes can both come to their end. */
  lemma {:induction false} CanEnd(s: State) returns (n: nat, t: State)
    requires Idle(s)
    ensures Steps(s, n, t) && t.writer == Ended && t.reader == Left
    decreases |s.rest|
  {
    hide Steps;
    if s.rest == [] {
      var a := WriterRound(s);
      var b := ReaderRound(a);
      StepsAppend(s, 6, a, 4, b);
      t := ReaderMoves(s, 10, b);
      t := WriterMoves(s, 11, t);
      n := 12;
    } else {
      var a := Exchange(s);
      n, t := CanEnd(a);
      StepsAppend(s, 11, a, n, t);
      n := 11 + n;
    }
  }

  /** While input is left, they can also come to where the writer hangs: the reader posts the buffer
      back, the writer fills it with the end of input, and only then the reader tests the size. */
  lemma {:induction false} CanHang(s: State) returns (n: nat, t: State)
    requires Idle(s) && s.rest != []
    ensures Steps(s, n, t) && Hangs(t)
    decreases |s.rest|
  {
    hide Steps;
    if |s.rest| <= BUF_SIZE {
      var a := WriterRound(s);
      var b := ReaderRound(a);
      StepsAppend(s, 6, a, 4, b);
      var c := WriterRound(b);
      StepsAppend(s, 10, b, 6, c);
      t := ReaderMoves(s, 16, c);
      n := 17;
    } else {
      var a := Exchange(s);
      n, t := CanHang(a);
      StepsAppend(s, 11, a, n, t);
      n := 11 + n;
    }
  }

  lemma HangsStuck(s: State)
    requires Hangs(s)
    ensures Stuck(s)
  {
  }

  /** With no input the reader takes the only buffer before it can leave. */
  ghost predicate EmptyInv(s: State) {
    && s.rest == [] && s.size == 0 && s.got == 0
    && (s.semWrite > 0 || s.reader in {Count, Write, PostBack} ==> s.writer in {Test, FinalWait})
    && (s.reader in {TestSize, Left} ==> s.semWrite == 0 && s.writer in {Test, FinalWait, Ended})
  }

  lemma {:induction false} EmptyRun(s0: State, n: nat, s: State)
    requires Init([], s0) && Steps(s0, n, s)
    ensures EmptyInv(s)
    decreases n
  {
    hide Step;
    if n > 0 {
      var t :| Steps(s0, n - 1, t) && Step(t, s);
      EmptyRun(s0, n - 1, t);
      RunTheorem([], s0, n - 1, t);
      EmptyStep(t, s);
    }
  }

  lemma EmptyStep(s: State, s': State)
    requires EmptyInv(s) && OneToken(s) && Step(s, s')
    ensures EmptyInv(s')
  {
  }

  /** Both processes can end whatever the input; the writer can come to a state in which it waits and no
      step is possible any more if and only if the input is not empty. */
  lemma EndsTheorem(input: seq<Byte>, s0: State)
    requires Init(input, s0)
    ensures exists n, s :: Steps(s0, n, s) && Stuck(s) && s.writer == Ended && s.reader == Left
    ensures (exists n, s :: Steps(s0, n, s) && Stuck(s) && s.writer != Ended) <==> input != []
  {
    hide Steps, Stuck;
    var n, t := CanEnd(s0);
    EndedStuck(t);
    if input != [] {
      var m, u := CanHang(s0);
      HangsStuck(u);
    } else if m, u :| Steps(s0, m, u) && Stuck(u) && u.writer != Ended {
      StuckTheorem(input, s0, m, u);
      EmptyRun(s0, m, u);
    }
  }

  lemma EndedStuck(s: State)
    requires s.writer == Ended && s.reader == Left
    ensures Stuck(s)
  {
  }
}
