/** The two threads of exercise 30-01, each adding one to `glob_incvar` a number of times with a load,
    an addition to a local copy and a store. */
module LostUpdate {

  /** `i` is the loop variable; `loaded` says that `tmp` holds a copy not yet stored back. */
  datatype Thread = Thread(i: int, loaded: bool, tmp: nat)

  datatype State = State(glob: nat, first: Thread, second: Thread)

  const START := State(0, Thread(0, false, 0), Thread(0, false, 0))

  /** One access of a thread to the shared variable: a load, or the store that ends its round.  None
      follows when the test of the loop fails. */
  function Access(ninc: int, glob: nat, t: Thread): (nat, Thread) {
    if t.i < ninc then
      if !t.loaded then (glob, t.(loaded := true, tmp := glob))
      else (t.tmp + 1, t.(i := t.i + 1, loaded := false))
    else (glob, t)
  }

  function Step(ninc: int, s: State, who: bool): State {
    if who then var (g, t) := Access(ninc, s.glob, s.first); s.(glob := g, first := t)
    else var (g, t) := Access(ninc, s.glob, s.second); s.(glob := g, second := t)
  }

  /** The state after the accesses of a schedule, which names the thread making each. */
  function Exec(ninc: int, s: State, schedule: seq<bool>): State
    decreases |schedule|
  {
    if schedule == [] then s else Exec(ninc, Step(ninc, s, schedule[0]), schedule[1..])
  }

  /** Both threads have left their loops. */
  predicate Finished(ninc: int, s: State) {
    !(s.first.i < ninc) && !(s.second.i < ninc)
  }

  // ----- what every interleaving keeps -----

  predicate ThreadOk(ninc: int, s: State, t: Thread) {
    && 0 <= t.i && (t.i <= ninc || t.i == 0)
    && (t.loaded ==> t.tmp <= s.first.i + s.second.i && t.i < ninc)
    && (t.loaded && t.i >= 1 ==> t.tmp >= 1)
  }

  predicate Inv(ninc: int, s: State) {
    && ThreadOk(ninc, s, s.first) && ThreadOk(ninc, s, s.second)
    && s.glob <= s.first.i + s.second.i
    && (s.first.i >= 1 || s.second.i >= 1 ==> s.glob >= 1)
    && (s.glob >= 2 || s.first.i <= 1 || s.second.i <= 1)
  }

  lemma {:induction false} ExecInv(ninc: int, s: State, schedule: seq<bool>)
    requires Inv(ninc, s)
    ensures Inv(ninc, Exec(ninc, s, schedule))
    decreases |schedule|
  {
    if schedule != [] {
      ExecInv(ninc, Step(ninc, s, schedule[0]), schedule[1..]);
    }
  }

  // ----- which results occur -----

  lemma Bounds(ninc: int, schedule: seq<bool>)
    requires Finished(ninc, Exec(ninc, START, schedule))
    ensures var v := Exec(ninc, START, schedule).glob;
            if ninc <= 0 then v == 0 else if ninc == 1 then 1 <= v <= 2 else 2 <= v <= 2 * ninc
  {
    ExecInv(ninc, START, schedule);
  }

  lemma {:induction false} ExecAppend(n: nat, s: State, a: seq<bool>, b: seq<bool>)
    ensures Exec(n, s, a + b) == Exec(n, Exec(n, s, a), b)
    decreases |a|
  {
    if a == [] {
      assert a + b == b;
    } else {
      assert (a + b)[1..] == a[1..] + b;
      ExecAppend(n, Step(n, s, a[0]), a[1..], b);
    }
  }

  /** `k` undisturbed rounds of one thread. */
  function Rounds(who: bool, k: nat): seq<bool> {
    if k == 0 then [] else [who, who] + Rounds(who, k - 1)
  }

  function Of(s: State, who: bool): Thread {
    if who then s.first else s.second
  }

  lemma {:induction false} RoundsAdd(n: nat, s: State, who: bool, k: nat)
    requires !Of(s, who).loaded && Of(s, who).i + k <= n
    ensures var r := Exec(n, s, Rounds(who, k));
            && r.glob == s.glob + k && Of(r, who).i == Of(s, who).i + k && !Of(r, who).loaded
            && Of(r, !who) == Of(s, !who)
    decreases k
  {
    if k > 0 {
      var s1 := Step(n, s, who);
      var s2 := Step(n, s1, who);
      var sched := Rounds(who, k);
      assert sched[0] == who && sched[1..][0] == who && sched[1..][1..] == Rounds(who, k - 1);
      RoundsAdd(n, s2, who, k - 1);
    }
  }

  function SmallSchedule(n: nat, a: nat): seq<bool>
    requires a < n
  {
    [true] + Rounds(false, n - 1) + [true] + Rounds(true, a) + [false] + Rounds(true, n - 1 - a) + [false]
  }

  function LargeSchedule(n: nat, b: nat): seq<bool>
    requires 1 <= n && b <= n
  {
    [true] + Rounds(false, b) + [true] + Rounds(true, n - 1) + Rounds(false, n - b)
  }

  lemma ExecOne(n: nat, s: State, who: bool)
    ensures Exec(n, s, [who]) == Step(n, s, who)
  {
  }

  /** The first thread's stale store wipes out `n - 1` rounds of the second, whose own stale store then
      wipes out the rest of the first's: the result is `a + 2`. */
  lemma SmallResult(n: nat, a: nat)
    requires a < n
    ensures var r := Exec(n, START, SmallSchedule(n, a)); Finished(n, r) && r.glob == a + 2
  {
    hide Exec;
    var s1 := Step(n, START, true);
    ExecOne(n, START, true);
    RoundsAdd(n, s1, false, n - 1);
    var s2 := Exec(n, s1, Rounds(false, n - 1));
    ExecOne(n, s2, true);
    var s3 := Step(n, s2, true);
    RoundsAdd(n, s3, true, a);
    var s4 := Exec(n, s3, Rounds(true, a));
    ExecOne(n, s4, false);
    var s5 := Step(n, s4, false);
    RoundsAdd(n, s5, true, n - 1 - a);
    var s6 := Exec(n, s5, Rounds(true, n - 1 - a));
    ExecOne(n, s6, false);
    var p1 := [true];
    var p2 := p1 + Rounds(false, n - 1);
    var p3 := p2 + [true];
    var p4 := p3 + Rounds(true, a);
    var p5 := p4 + [false];
    var p6 := p5 + Rounds(true, n - 1 - a);
    ExecAppend(n, START, p1, Rounds(false, n - 1));
    ExecAppend(n, START, p2, [true]);
    ExecAppend(n, START, p3, Rounds(true, a));
    ExecAppend(n, START, p4, [false]);
    ExecAppend(n, START, p5, Rounds(true, n - 1 - a));
    ExecAppend(n, START, p6, [false]);
  }

  /** A stale store wipes out `b` rounds and nothing else is lost. */
  lemma LargeResult(n: nat, b: nat)
    requires 1 <= n && b <= n
    ensures var r := Exec(n, START, LargeSchedule(n, b)); Finished(n, r) && r.glob == 2 * n - b
  {
    hide Exec;
    var s1 := Step(n, START, true);
    ExecOne(n, START, true);
    RoundsAdd(n, s1, false, b);
    var s2 := Exec(n, s1, Rounds(false, b));
    ExecOne(n, s2, true);
    var s3 := Step(n, s2, true);
    RoundsAdd(n, s3, true, n - 1);
    var s4 := Exec(n, s3, Rounds(true, n - 1));
    RoundsAdd(n, s4, false, n - b);
    var p1 := [true];
    var p2 := p1 + Rounds(false, b);
    var p3 := p2 + [true];
    var p4 := p3 + Rounds(true, n - 1);
    ExecAppend(n, START, p1, Rounds(false, b));
    ExecAppend(n, START, p2, [true]);
    ExecAppend(n, START, p3, Rounds(true, n - 1));
    ExecAppend(n, START, p4, Rounds(false, n - b));
  }

  ghost predicate Yields(ninc: int, schedule: seq<bool>, v: nat) {
    Finished(ninc, Exec(ninc, START, schedule)) && Exec(ninc, START, schedule).glob == v
  }

  /** A value is the result of some interleaving exactly when it is in range: between 2 and twice `ninc`
      for two or more rounds, so an update of each thread can be all that is left; 1 or 2 for one round;
      0 when the loops make none. */
  lemma ResultTheorem(ninc: int, v: nat)
    ensures (exists schedule :: Yields(ninc, schedule, v)) <==>
            if ninc <= 0 then v == 0 else if ninc == 1 then 1 <= v <= 2 else 2 <= v <= 2 * ninc
  {
    if schedule :| Yields(ninc, schedule, v) {
      Bounds(ninc, schedule);
    }
    if ninc <= 0 {
      assert v == 0 ==> Yields(ninc, [], v);
    } else if 2 <= v <= ninc {
      SmallResult(ninc, v - 2);
      assert Yields(ninc, SmallSchedule(ninc, v - 2), v);
    } else if ninc <= v <= 2 * ninc {
      LargeResult(ninc, 2 * ninc - v);
      assert Yields(ninc, LargeSchedule(ninc, 2 * ninc - v), v);
    }
  }
}
