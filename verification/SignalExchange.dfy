/** Parent and child of exercise 22-03 sending `SIGUSR1` to and fro.  A process has one pending bit for
    the signal, which does not count; the number of signals sent and not yet accepted is carried along
    to compare the two. */
module SignalExchange {

  /** `-s` waits with `sigsuspend()`, `-w` with `sigwaitinfo()`. */
  datatype Mode = Suspend | WaitInfo

  /** About to call `kill()`, about to wait, inside `sigsuspend()` with the signal unblocked, or gone. */
  datatype At = Kill | Wait | Suspended | Exited

  /** `round` is the loop variable; `pending` is the signal's bit and `unaccepted` counts signals. */
  datatype Process = Process(at: At, round: nat, pending: bool, unaccepted: nat)

  /** `sends` records who called `kill()`, the child as `true`. */
  datatype State = State(child: Process, parent: Process, sends: seq<bool>)

  /** Where a loop goes after a round: on with `top`, or out. */
  function Loop(nsig: int, round: nat, top: At): At {
    if round < nsig then top else Exited
  }

  function Start(nsig: int): State {
    State(Process(Loop(nsig, 0, Kill), 0, false, 0), Process(Loop(nsig, 0, Wait), 0, false, 0), [])
  }

  function Signalled(p: Process): Process {
    p.(pending := true, unaccepted := p.unaccepted + 1)
  }

  function Accepted(p: Process): Process {
    p.(pending := false, unaccepted := if p.unaccepted > 0 then p.unaccepted - 1 else 0)
  }

  /** Can the process go on?  A wait goes on only when the signal is pending. */
  predicate Ready(mode: Mode, p: Process) {
    match p.at
    case Kill => true
    case Wait => mode == Suspend || p.pending
    case Suspended => p.pending
    case Exited => false
  }

  function ChildStep(nsig: int, mode: Mode, s: State): State
    requires Ready(mode, s.child)
  {
    match s.child.at
    case Kill => State(s.child.(at := Wait), Signalled(s.parent), s.sends + [true])
    case Wait =>
      if mode == Suspend then s.(child := s.child.(at := Suspended)) else s.(child := ChildAccepts(nsig, s.child))
    case Suspended => s.(child := ChildAccepts(nsig, s.child))
  }

  function ChildAccepts(nsig: int, p: Process): Process {
    Accepted(p).(round := p.round + 1, at := Loop(nsig, p.round + 1, Kill))
  }

  function ParentStep(nsig: int, mode: Mode, s: State): State
    requires Ready(mode, s.parent)
  {
    match s.parent.at
    case Kill =>
      State(Signalled(s.child), s.parent.(round := s.parent.round + 1, at := Loop(nsig, s.parent.round + 1, Wait)), s.sends + [false])
    case Wait =>
      if mode == Suspend then s.(parent := s.parent.(at := Suspended)) else s.(parent := Accepted(s.parent).(at := Kill))
    case Suspended => s.(parent := Accepted(s.parent).(at := Kill))
  }

  /** The schedule names the process that goes on, the child as `true`; it must be ready. */
  ghost predicate Run(nsig: int, mode: Mode, s: State, schedule: seq<bool>, s': State)
    decreases |schedule|
  {
    if schedule == [] then s == s'
    else if schedule[0] then Ready(mode, s.child) && Run(nsig, mode, ChildStep(nsig, mode, s), schedule[1..], s')
    else Ready(mode, s.parent) && Run(nsig, mode, ParentStep(nsig, mode, s), schedule[1..], s')
  }

  // ----- what every run keeps -----

  predicate Waiting(mode: Mode, p: Process) {
    p.at == Wait || (p.at == Suspended && mode == Suspend)
  }

  /** The bit says exactly whether there is a signal, and there is never more than one. */
  predicate BitCounts(p: Process) {
    p.unaccepted <= 1 && (p.pending <==> p.unaccepted == 1)
  }

  /** Calls of `kill()` alternate, the child's first. */
  ghost predicate Alternate(sends: seq<bool>) {
    forall i :: 0 <= i < |sends| ==> (sends[i] <==> i % 2 == 0)
  }

  /** The four stages of a round. */
  predicate Stage(nsig: int, mode: Mode, s: State) {
    var c, p := s.child, s.parent;
    || (c.at == Kill && Waiting(mode, p) && c.round == p.round < nsig && !c.pending && !p.pending && |s.sends| == 2 * c.round)
    || (Waiting(mode, c) && Waiting(mode, p) && c.round == p.round < nsig && !c.pending && p.pending && |s.sends| == 2 * c.round + 1)
    || (Waiting(mode, c) && p.at == Kill && c.round == p.round < nsig && !c.pending && !p.pending && |s.sends| == 2 * c.round + 1)
    || (Waiting(mode, c) && c.pending && !p.pending && p.round == c.round + 1 <= nsig && |s.sends| == 2 * p.round
        && if p.round < nsig then Waiting(mode, p) else p.at == Exited)
    || (c.at == Exited && p.at == Exited && c.round == p.round && (p.round == nsig || (p.round == 0 && nsig < 0))
        && !c.pending && !p.pending && |s.sends| == 2 * p.round)
  }

  ghost predicate Inv(nsig: int, mode: Mode, s: State) {
    Stage(nsig, mode, s) && BitCounts(s.child) && BitCounts(s.parent) && Alternate(s.sends)
  }

  lemma ChildInv(nsig: int, mode: Mode, s: State)
    requires Inv(nsig, mode, s) && Ready(mode, s.child)
    ensures Inv(nsig, mode, ChildStep(nsig, mode, s))
  {
  }

  lemma ParentInv(nsig: int, mode: Mode, s: State)
    requires Inv(nsig, mode, s) && Ready(mode, s.parent)
    ensures Inv(nsig, mode, ParentStep(nsig, mode, s))
  {
  }

  lemma {:induction false} RunInv(nsig: int, mode: Mode, s: State, schedule: seq<bool>, s': State)
    requires Inv(nsig, mode, s) && Run(nsig, mode, s, schedule, s')
    ensures Inv(nsig, mode, s')
    decreases |schedule|
  {
    hide Inv;
    if schedule != [] {
      if schedule[0] {
        ChildInv(nsig, mode, s);
        RunInv(nsig, mode, ChildStep(nsig, mode, s), schedule[1..], s');
      } else {
        ParentInv(nsig, mode, s);
        RunInv(nsig, mode, ParentStep(nsig, mode, s), schedule[1..], s');
      }
    }
  }

  // ----- every run ends, and how -----

  /** Bounds the steps to come: three for each round of each process. */
  function Measure(nsig: int, s: State): int {
    3 * (nsig - s.child.round) + 3 * (nsig - s.parent.round)
    - (match s.child.at case Kill => 0 case Wait => 1 case Suspended => 2 case Exited => 0)
    - (match s.parent.at case Wait => 0 case Suspended => 1 case Kill => 2 case Exited => 0)
  }

  lemma {:induction false} RunsEnd(nsig: int, mode: Mode, s: State, schedule: seq<bool>, s': State)
    requires Inv(nsig, mode, s) && Run(nsig, mode, s, schedule, s')
    ensures |schedule| + Measure(nsig, s') <= Measure(nsig, s)
    decreases |schedule|
  {
    if schedule != [] {
      if schedule[0] {
        ChildInv(nsig, mode, s);
        RunsEnd(nsig, mode, ChildStep(nsig, mode, s), schedule[1..], s');
      } else {
        ParentInv(nsig, mode, s);
        RunsEnd(nsig, mode, ParentStep(nsig, mode, s), schedule[1..], s');
      }
    }
  }

  /** For every number of signals, either way of waiting and every schedule: at most one signal is
      outstanding for a process, so the bit loses nothing; sends alternate; `kill()` always finds its
      target alive; the run is no longer than six steps per round; and where no process can go on both
      have ended, each having sent and accepted every one of its signals. */
  lemma RunTheorem(nsig: int, mode: Mode, schedule: seq<bool>, s: State)
    requires Run(nsig, mode, Start(nsig), schedule, s)
    ensures BitCounts(s.child) && BitCounts(s.parent) && s.child.unaccepted + s.parent.unaccepted <= 1
    ensures Alternate(s.sends)
    ensures (s.child.at == Kill ==> s.parent.at != Exited) && (s.parent.at == Kill ==> s.child.at != Exited)
    ensures |schedule| <= if nsig < 0 then 0 else 6 * nsig
    ensures !Ready(mode, s.child) && !Ready(mode, s.parent) ==>
              && s.child.at == Exited && s.parent.at == Exited && |s.sends| == (if nsig < 0 then 0 else 2 * nsig)
              && s.child.round == s.parent.round == (if nsig < 0 then 0 else nsig) && !s.child.pending && !s.parent.pending
  {
    hide Run;
    assert Inv(nsig, mode, Start(nsig));
    RunInv(nsig, mode, Start(nsig), schedule, s);
    RunsEnd(nsig, mode, Start(nsig), schedule, s);
  }
}
