/** The event loop and the file system together: the bytes read, however they are cut into reads, bring the
    slot array into step with the directory trees. */
module LoopSync {
  import opened Basics
  import opened Monitor
  import opened Sync
  import opened SyncRun
  import opened SyncTheorem
  import opened WatchCache
  import opened EventLoop

  // ----- groups of events, read by several calls -----

  /** A pair is not split between `a` and `b`. */
  predicate Joins(a: seq<Event>, b: seq<Event>) {
    a != [] && b != [] ==> !(IsFrom(a[|a| - 1]) && MovedOn(a[|a| - 1], Some(b[0])))
  }

  lemma {:induction false} GroupedJoin(a: seq<Event>, b: seq<Event>)
    requires Joins(a, b)
    ensures Grouped(a + b) == Grouped(a) + Grouped(b)
  {
    hide IsFrom, MovedOn;
    if a == [] {
      assert a + b == b;
    } else {
      var n := GroupLen(a);
      assert GroupLen(a + b) == n by {
        if b == [] {
          assert a + b == a;
        }
      }
      assert (a + b)[..n] == a[..n] && (a + b)[n..] == a[n..] + b;
      GroupedJoin(a[n..], b);
    }
  }

  /** The events of several calls. */
  function AllEvents(parts: seq<seq<Event>>): seq<Event> {
    if parts == [] then [] else AllEvents(parts[..|parts| - 1]) + parts[|parts| - 1]
  }

  /** The steps of several calls, each handling its own events. */
  function Steps(parts: seq<seq<Event>>): seq<seq<Event>> {
    if parts == [] then [] else Steps(parts[..|parts| - 1]) + Grouped(parts[|parts| - 1])
  }

  predicate Unsplit(parts: seq<seq<Event>>) {
    parts == [] || (Unsplit(parts[..|parts| - 1]) && Joins(AllEvents(parts[..|parts| - 1]), parts[|parts| - 1]))
  }

  lemma {:induction false} StepsGrouped(parts: seq<seq<Event>>)
    requires Unsplit(parts)
    ensures Steps(parts) == Grouped(AllEvents(parts))
  {
    hide Grouped, Joins;
    if parts != [] {
      StepsGrouped(parts[..|parts| - 1]);
      GroupedJoin(AllEvents(parts[..|parts| - 1]), parts[|parts| - 1]);
    } else {
      GroupedNone();
    }
  }

  /** The events end with a "moved from". */
  predicate EndsHalf(evs: seq<Event>) {
    evs != [] && IsFrom(evs[|evs| - 1])
  }

  lemma {:induction false} WholeParts(parts: seq<seq<Event>>)
    requires forall i :: 0 <= i < |parts| ==> !EndsHalf(parts[i])
    ensures !EndsHalf(AllEvents(parts)) && Unsplit(parts)
  {
    hide IsFrom, MovedOn;
    if parts != [] {
      WholeParts(parts[..|parts| - 1]);
    }
  }

  // ----- the same steps, seen from the file system -----

  ghost predicate StepBy(s: Sys, ans: Answer, ign: seq<Event>, t: Sys)
    requires s.queue != [] && KernelEvent(s.queue[0])
  {
    && StepWith(s, ans, ign, t)
    && (ign == [] || Handle(s.mon, s.queue[0], Next(s.queue), false, ans).outcome.Done?)
  }

  /** `n` steps lead from `s` to `s'`, where nothing is left to handle.  From `k` on the kernel answers as
      `env` says, and it queues `more` meanwhile. */
  ghost predicate Serves(s: Sys, env: nat -> Answer, k: nat, n: nat, more: seq<Event>, s': Sys)
    decreases n
  {
    if n == 0 then s' == s && more == [] && (s.exited || s.queue == [])
    else
      && !s.exited && s.queue != [] && KernelEvent(s.queue[0])
      && exists ign, t :: ign <= more && StepBy(s, env(k), ign, t) && Serves(t, env, k + 1, n - 1, more[|ign|..], s')
  }

  lemma {:induction false} ServesDrains(s: Sys, env: nat -> Answer, k: nat, n: nat, more: seq<Event>, s': Sys)
    requires Serves(s, env, k, n, more, s')
    ensures Drains(s, n, s')
    decreases n
  {
    hide StepWith;
    if n > 0 {
      var ign, t :| ign <= more && StepBy(s, env(k), ign, t) && Serves(t, env, k + 1, n - 1, more[|ign|..], s');
      ServesDrains(t, env, k + 1, n - 1, more[|ign|..], s');
      assert Step(s, t);
    }
  }

  function EnvOf(answers: seq<Answer>, k: nat, other: Answer): nat -> Answer {
    (i: nat) => if k <= i < k + |answers| then answers[i - k] else other
  }

  lemma {:induction false} ServesSame(s: Sys, env: nat -> Answer, env': nat -> Answer, k: nat, n: nat, more: seq<Event>, s': Sys)
    requires Serves(s, env, k, n, more, s') && forall i :: k <= i < k + n ==> env(i) == env'(i)
    ensures Serves(s, env', k, n, more, s')
    decreases n
  {
    hide StepBy;
    if n > 0 {
      var ign, t :| ign <= more && StepBy(s, env(k), ign, t) && Serves(t, env, k + 1, n - 1, more[|ign|..], s');
      ServesSame(t, env, env', k + 1, n - 1, more[|ign|..], s');
      assert StepBy(s, env'(k), ign, t);
    }
  }

  lemma StepStepBy(s: Sys, t: Sys) returns (ans: Answer, ign: seq<Event>)
    requires Step(s, t)
    ensures StepBy(s, ans, ign, t) && |ans.rebuild| == |s.mon.roots|
  {
    hide Handle, Decide, Replies, BuildsAnew, TruthfulRm;
    ans, ign :| StepWith(s, ans, ign, t);
    if !Handle(s.mon, s.queue[0], Next(s.queue), false, ans).outcome.Done? {
      ign := [];
    }
  }

  /** Every way to handle all events comes with answers of the kernel and events queued meanwhile. */
  lemma {:induction false} DrainsServes(s: Sys, k: nat, n: nat, s': Sys, other: Answer) returns (answers: seq<Answer>, more: seq<Event>)
    requires Drains(s, n, s')
    ensures |answers| == n && Serves(s, EnvOf(answers, k, other), k, n, more, s')
    ensures forall i :: 0 <= i < n ==> |answers[i].rebuild| == |s.mon.roots|
    decreases n
  {
    hide StepBy, StepWith;
    if n == 0 {
      answers, more := [], [];
    } else {
      var t :| Step(s, t) && Drains(t, n - 1, s');
      var ans, ign := StepStepBy(s, t);
      var rest, later := DrainsServes(t, k + 1, n - 1, s', other);
      answers, more := [ans] + rest, ign + later;
      ServesSame(t, EnvOf(rest, k + 1, other), EnvOf(answers, k, other), k + 1, n - 1, later, s');
      RootsKept(s, ans, ign, t);
      assert more[|ign|..] == later && ign <= more && EnvOf(answers, k, other)(k) == ans;
    }
  }

  lemma RootsKept(s: Sys, ans: Answer, ign: seq<Event>, t: Sys)
    requires s.queue != [] && KernelEvent(s.queue[0]) && |ans.rebuild| == |s.mon.roots| && StepBy(s, ans, ign, t)
    ensures |t.mon.roots| == |s.mon.roots|
  {
    hide Handle, Decide, Replies, BuildsAnew, TruthfulRm;
  }

  lemma StepIgnored(s: Sys, ans: Answer, ign: seq<Event>, t: Sys)
    requires s.queue != [] && KernelEvent(s.queue[0]) && StepBy(s, ans, ign, t)
    ensures AllIgnored(ign)
  {
    hide Handle, Decide, IsWalk, SelfAfter, BuildsAnew, TruthfulRm;
  }

  lemma {:induction false} ServesIgnored(s: Sys, env: nat -> Answer, k: nat, n: nat, more: seq<Event>, s': Sys)
    requires Serves(s, env, k, n, more, s')
    ensures AllIgnored(more)
    decreases n
  {
    hide StepBy;
    if n > 0 {
      var ign, t :| ign <= more && StepBy(s, env(k), ign, t) && Serves(t, env, k + 1, n - 1, more[|ign|..], s');
      StepIgnored(s, env(k), ign, t);
      ServesIgnored(t, env, k + 1, n - 1, more[|ign|..], s');
      assert more == ign + more[|ign|..];
    }
  }

  // ----- both views agree -----

  ghost predicate EnvOk(m: Mon, env: nat -> Answer) {
    forall k: nat :: |env(k).rebuild| == |m.roots|
  }

  ghost predicate GroupsOk(trace: seq<seq<Event>>) {
    forall i :: 0 <= i < |trace| ==> GroupOk(trace[i])
  }

  /** The steps `trace` on the state `m` lead to `m'`, and the last of them is either the last there is in
      `all` or one after which the rest is discarded. */
  ghost predicate Plays(m: Mon, trace: seq<seq<Event>>, all: seq<seq<Event>>, env: nat -> Answer, m': Mon) {
    && EnvOk(m, env) && GroupsOk(trace) && trace <= all && m' == Replay(m, trace, env)
    && (CutShort(m, trace, env) || (Smooth(m, trace, env) && trace == all))
  }

  lemma {:induction false} SmoothPrefix(m: Mon, trace: seq<seq<Event>>, env: nat -> Answer, n: nat)
    requires EnvOk(m, env) && GroupsOk(trace) && Smooth(m, trace, env) && n <= |trace|
    ensures GroupsOk(trace[..n]) && Smooth(m, trace[..n], env)
    decreases |trace|
  {
    hide Discards;
    if n < |trace| {
      SmoothPrefix(m, trace[..|trace| - 1], env, n);
      assert trace[..|trace| - 1][..n] == trace[..n];
    } else {
      assert trace[..n] == trace;
    }
  }

  lemma NotShorter(m: Mon, a: seq<seq<Event>>, b: seq<seq<Event>>, all: seq<seq<Event>>, env: nat -> Answer, m': Mon, m'': Mon)
    requires Plays(m, a, all, env, m') && Plays(m, b, all, env, m'')
    ensures |a| >= |b|
  {
    hide Discards, Replay;
    if |a| < |b| {
      var init := b[..|b| - 1];
      assert init[..|a|] == all[..|a|] == a;
      assert GroupsOk(init) && Smooth(m, init, env);
      SmoothPrefix(m, init, env, |a|);
    }
  }

  /** The steps taken are determined by the events and the answers. */
  lemma PlaysOnce(m: Mon, a: seq<seq<Event>>, b: seq<seq<Event>>, all: seq<seq<Event>>, env: nat -> Answer, m': Mon, m'': Mon)
    requires Plays(m, a, all, env, m') && Plays(m, b, all, env, m'')
    ensures a == b && m' == m''
  {
    NotShorter(m, a, b, all, env, m', m'');
    NotShorter(m, b, a, all, env, m'', m');
    assert a == all[..|a|] && b == all[..|b|];
  }

  lemma SameGroup(q: seq<Event>, more: seq<Event>)
    requires q != [] && AllIgnored(more)
    ensures GroupLen(q + more) == GroupLen(q) && (q + more)[..GroupLen(q)] == q[..GroupLen(q)]
  {
    if |q| == 1 && more != [] {
      assert (q + more)[1] == more[0] && more[0].mask == IN_IGNORED;
    }
  }

  lemma StepShape(s: Sys, ans: Answer, ign: seq<Event>, t: Sys)
    requires s.queue != [] && KernelEvent(s.queue[0]) && |ans.rebuild| == |s.mon.roots| && StepBy(s, ans, ign, t)
    ensures var r := Handle(s.mon, s.queue[0], Next(s.queue), false, ans);
            && t.mon == r.mon && r.outcome != Deferred
            && (r.outcome.Done? ==> !t.exited && r.outcome.events <= |s.queue| && t.queue == s.queue[r.outcome.events..] + ign)
            && (!r.outcome.Done? ==> ign == [] && (t.exited || t.queue == []))
  {
    hide Handle, Replies, BuildsAnew, TruthfulRm;
  }

  /** What one step of the handler does to the queue, and to what is queued later. */
  ghost predicate Handles(s: Sys, g: seq<Event>, ans: Answer, t: Sys, rest: seq<Event>, left: seq<Event>)
    requires GroupOk(g) && |ans.rebuild| == |s.mon.roots|
  {
    var r := StepOn(s.mon, g, ans);
    && t.mon == r.mon && r.outcome != Deferred
    && if r.outcome.Done? then !t.exited && t.queue + rest == left else t.exited || t.queue == []
  }

  /** One step of the handler handles one group. */
  lemma StepHandles(s: Sys, ans: Answer, ign: seq<Event>, t: Sys, rest: seq<Event>)
    requires s.queue != [] && KernelEvent(s.queue[0]) && |ans.rebuild| == |s.mon.roots|
    requires StepBy(s, ans, ign, t) && AllIgnored(ign + rest)
    ensures var all := s.queue + (ign + rest); var n := GroupLen(all);
            GroupOk(all[..n]) && Handles(s, all[..n], ans, t, rest, all[n..])
  {
    hide Handle, GroupLen, StepOn, StepBy, AllIgnored, KernelEvent;
    var q := s.queue;
    var n := GroupLen(q);
    SameGroup(q, ign + rest);
    NextIs(q);
    StepShape(s, ans, ign, t);
    HandleGroup(s.mon, q, false, ans);
    assert (q + (ign + rest))[n..] == q[n..] + ign + rest;
  }

  lemma NextIs(q: seq<Event>)
    ensures Next(q) == if |q| > 1 then Some(q[1]) else None
  {
  }

  /** The state is that after the steps `pre`, none of which had anything discarded. */
  ghost predicate Stands(m: Mon, pre: seq<seq<Event>>, env: nat -> Answer, s: Sys) {
    EnvOk(m, env) && GroupsOk(pre) && Smooth(m, pre, env) && s.mon == Replay(m, pre, env) && !s.exited
  }

  lemma PlayOn(m: Mon, pre: seq<seq<Event>>, env: nat -> Answer, s: Sys, g: seq<Event>, t: Sys, rest: seq<Event>, left: seq<Event>)
    requires Stands(m, pre, env, s) && GroupOk(g) && |s.mon.roots| == |m.roots| && Handles(s, g, env(|pre|), t, rest, left)
    ensures StepOn(s.mon, g, env(|pre|)).outcome.Done? ==> Stands(m, pre + [g], env, t)
    ensures !StepOn(s.mon, g, env(|pre|)).outcome.Done? ==>
              GroupsOk(pre + [g]) && CutShort(m, pre + [g], env) && t.mon == Replay(m, pre + [g], env)
  {
    hide StepOn, Replay, Discards, Smooth, GroupOk;
    ReplayMore(m, pre, g, env);
    DiscardsLast(m, pre, g, env);
    SmoothMore(m, pre, g, env);
  }

  lemma StandsRoots(m: Mon, pre: seq<seq<Event>>, env: nat -> Answer, s: Sys)
    requires Stands(m, pre, env, s)
    ensures |s.mon.roots| == |m.roots| && forall k: nat :: |env(k).rebuild| == |s.mon.roots|
  {
  }

  lemma {:induction false} ServesPlays(m: Mon, pre: seq<seq<Event>>, s: Sys, env: nat -> Answer, n: nat, more: seq<Event>, s': Sys)
    returns (trace: seq<seq<Event>>)
    requires Stands(m, pre, env, s) && Serves(s, env, |pre|, n, more, s')
    ensures Plays(m, trace, pre + Grouped(s.queue + more), env, s'.mon)
    decreases n
  {
    hide StepBy, Grouped, Smooth, Replay, KernelEvent, CutShort;
    if n == 0 {
      trace := pre;
      GroupedNone();
      assert s.queue + more == [] && pre + [] == pre;
    } else {
      var k := |pre|;
      var ign, t :| ign <= more && StepBy(s, env(k), ign, t) && Serves(t, env, k + 1, n - 1, more[|ign|..], s');
      var rest := more[|ign|..];
      assert more == ign + rest;
      ServesIgnored(s, env, k, n, more, s');
      hide Stands, Serves;
      StandsRoots(m, pre, env, s);
      StepHandles(s, env(k), ign, t, rest);
      var all := s.queue + more;
      var g, left := all[..GroupLen(all)], all[GroupLen(all)..];
      PlayOn(m, pre, env, s, g, t, rest, left);
      GroupedHead(all);
      assert pre + Grouped(all) == pre + [g] + Grouped(left);
      hide Plays, GroupLen;
      if StepOn(s.mon, g, env(k)).outcome.Done? {
        trace := ServesPlays(m, pre + [g], t, env, n - 1, rest, s');
      } else {
        trace := pre + [g];
        ServesEnd(t, env, k + 1, n - 1, rest, s');
        PlaysCut(m, trace, Grouped(left), env, t.mon);
      }
    }
  }

  lemma PlaysCut(m: Mon, trace: seq<seq<Event>>, left: seq<seq<Event>>, env: nat -> Answer, m': Mon)
    requires EnvOk(m, env) && GroupsOk(trace) && CutShort(m, trace, env) && m' == Replay(m, trace, env)
    ensures Plays(m, trace, trace + left, env, m')
  {
    hide CutShort, Replay, Smooth;
  }

  lemma ServesEnd(s: Sys, env: nat -> Answer, k: nat, n: nat, more: seq<Event>, s': Sys)
    requires Serves(s, env, k, n, more, s') && (s.exited || s.queue == [])
    ensures s' == s
  {
  }

  // ----- several calls -----

  function Later(env: nat -> Answer, k: nat): nat -> Answer {
    (i: nat) => env(k + i)
  }

  lemma {:induction false} ReplayConcat(m: Mon, a: seq<seq<Event>>, b: seq<seq<Event>>, env: nat -> Answer)
    requires EnvOk(m, env) && GroupsOk(a) && GroupsOk(b)
    ensures GroupsOk(a + b) && EnvOk(Replay(m, a, env), Later(env, |a|))
    ensures Replay(m, a + b, env) == Replay(Replay(m, a, env), b, Later(env, |a|))
    decreases |b|
  {
    hide StepOn, GroupOk;
    if b == [] {
      assert a + b == a;
    } else {
      var n := |b| - 1;
      ReplayConcat(m, a, b[..n], env);
      hide Replay;
      assert b == b[..n] + [b[n]] && a + b == a + b[..n] + [b[n]];
      ReplayMore(m, a + b[..n], b[n], env);
      ReplayMore(Replay(m, a, env), b[..n], b[n], Later(env, |a|));
    }
  }

  lemma DiscardsConcat(m: Mon, a: seq<seq<Event>>, b: seq<seq<Event>>, env: nat -> Answer)
    requires EnvOk(m, env) && GroupsOk(a) && GroupsOk(b) && b != []
    ensures GroupsOk(a + b) && EnvOk(Replay(m, a, env), Later(env, |a|))
    ensures Discards(m, a + b, env) <==> Discards(Replay(m, a, env), b, Later(env, |a|))
  {
    hide StepOn, GroupOk, Replay, Discards;
    var n := |b| - 1;
    ReplayConcat(m, a, b[..n], env);
    assert b == b[..n] + [b[n]] && a + b == a + b[..n] + [b[n]];
    DiscardsLast(m, a + b[..n], b[n], env);
    DiscardsLast(Replay(m, a, env), b[..n], b[n], Later(env, |a|));
  }

  lemma {:induction false} SmoothConcat(m: Mon, a: seq<seq<Event>>, b: seq<seq<Event>>, env: nat -> Answer)
    requires EnvOk(m, env) && GroupsOk(a) && GroupsOk(b) && Smooth(m, a, env)
    ensures GroupsOk(a + b) && EnvOk(Replay(m, a, env), Later(env, |a|))
    ensures Smooth(Replay(m, a, env), b, Later(env, |a|)) ==> Smooth(m, a + b, env)
    decreases |b|
  {
    hide StepOn, GroupOk, Replay, Discards;
    ReplayConcat(m, a, b, env);
    if b == [] {
      assert a + b == a;
    } else {
      var n := |b| - 1;
      SmoothConcat(m, a, b[..n], env);
      DiscardsConcat(m, a, b, env);
      assert (a + b)[..|a| + n] == a + b[..n];
    }
  }

  lemma CutConcat(m: Mon, a: seq<seq<Event>>, b: seq<seq<Event>>, env: nat -> Answer)
    requires EnvOk(m, env) && GroupsOk(a) && GroupsOk(b) && Smooth(m, a, env)
    ensures GroupsOk(a + b) && EnvOk(Replay(m, a, env), Later(env, |a|))
    ensures CutShort(Replay(m, a, env), b, Later(env, |a|)) ==> CutShort(m, a + b, env)
  {
    hide StepOn, GroupOk, Replay, Discards, Smooth;
    ReplayConcat(m, a, b, env);
    if b != [] {
      var n := |b| - 1;
      SmoothConcat(m, a, b[..n], env);
      DiscardsConcat(m, a, b, env);
      assert (a + b)[..|a + b| - 1] == a + b[..n];
    }
  }

  lemma StepsMore(parts: seq<seq<Event>>, evs: seq<Event>)
    ensures Steps(parts + [evs]) == Steps(parts) + Grouped(evs)
  {
    hide Grouped;
    assert (parts + [evs])[..|parts|] == parts;
  }

  /** What calls of the loop have done: their steps, and whether the last had anything discarded. */
  ghost predicate Called(m: Mon, parts: seq<seq<Event>>, trace: seq<seq<Event>>, cut: bool, env: nat -> Answer, m': Mon) {
    && EnvOk(m, env) && GroupsOk(trace) && m' == Replay(m, trace, env) && trace <= Steps(parts)
    && if cut then CutShort(m, trace, env) else Smooth(m, trace, env) && trace == Steps(parts)
  }

  lemma CalledMore(m: Mon, parts: seq<seq<Event>>, a: seq<seq<Event>>, env: nat -> Answer, m1: Mon,
                   evs: seq<Event>, b: seq<seq<Event>>, cut: bool, m2: Mon)
    requires Called(m, parts, a, false, env, m1) && EnvOk(m1, Later(env, |a|)) && GroupsOk(b)
    requires b <= Grouped(evs) && m2 == Replay(m1, b, Later(env, |a|))
    requires if cut then CutShort(m1, b, Later(env, |a|)) else Smooth(m1, b, Later(env, |a|)) && b == Grouped(evs)
    ensures Called(m, parts + [evs], a + b, cut, env, m2)
  {
    hide Replay, Smooth, CutShort, Grouped, GroupOk;
    ReplayConcat(m, a, b, env);
    StepsMore(parts, evs);
    if cut {
      CutConcat(m, a, b, env);
    } else {
      SmoothConcat(m, a, b, env);
    }
  }

  lemma AnswersFit(m: Mon, env: nat -> Answer, n: nat)
    requires |m.roots| == n && forall k: nat :: AnswerOk(env(k), n)
    ensures EnvOk(m, env)
  {
  }

  lemma AnswersLater(env: nat -> Answer, k: nat, n: nat)
    requires forall k: nat :: AnswerOk(env(k), n)
    ensures forall i: nat :: AnswerOk(Later(env, k)(i), n)
  {
  }

  lemma CalledNone(m: Mon, env: nat -> Answer)
    requires EnvOk(m, env)
    ensures Called(m, [], [], false, env, m)
  {
  }

  /** The call may have waited for more events in vain: its last read was interrupted, or it made all the reads
      there were. */
  predicate GaveUp(supply: nat, got: seq<ReadResult>) {
    got != [] && (got[|got| - 1].Interrupted? || |got| == supply)
  }

  lemma EndsGaveUp(supply: nat, got: seq<ReadResult>, env: nat -> Answer, m0: Mon, m: Mon, p: Progress)
    requires EnvOk(m0, env) && CallOk(supply, got, env, m0, m, false, p) && EndsHalf(EventWire.Events(p.all))
    ensures GaveUp(supply, got)
  {
    hide IsFrom, Taken, Grouped, Replay, Smooth, EndsFrom, LastOf, Known;
    EndsNow(got);
  }

  /** What the call did to the state. */
  lemma CallDone(supply: nat, got: seq<ReadResult>, env: nat -> Answer, m0: Mon, m: Mon, cut: bool, p: Progress)
    requires EnvOk(m0, env) && CallOk(supply, got, env, m0, m, cut, p)
    ensures GroupsOk(p.trace) && m == Replay(m0, p.trace, env) && p.trace <= Grouped(EventWire.Events(p.all)) && p.all == Taken(got)
    ensures if cut then CutShort(m0, p.trace, env) else Smooth(m0, p.trace, env) && p.trace == Grouped(EventWire.Events(p.all))
  {
    hide IsFrom, Taken, Grouped, Replay, Smooth, CutShort, EndsFrom, LastOf, Known, Waits, Vain;
  }

  /** Each call has read its part, which ends with a "moved from" only if the call waited in vain for what
      follows. */
  ghost predicate PartsRead(calls: seq<seq<nat -> ReadResult>>, gots: seq<seq<ReadResult>>, parts: seq<seq<Event>>, cut: bool) {
    && |parts| == |gots| <= |calls|
    && (forall i :: 0 <= i < |parts| ==> Returned(calls[i], gots[i]) && parts[i] == EventWire.Events(Taken(gots[i])))
    && (forall i :: 0 <= i < |parts| && (!cut || i + 1 < |parts|) && EndsHalf(parts[i]) ==> GaveUp(|calls[i]|, gots[i]))
  }

  lemma PartsMore(calls: seq<seq<nat -> ReadResult>>, gots: seq<seq<ReadResult>>, parts: seq<seq<Event>>,
                  got: seq<ReadResult>, cut: bool)
    requires PartsRead(calls, gots, parts, false) && |parts| < |calls| && Returned(calls[|parts|], got)
    requires !cut && EndsHalf(EventWire.Events(Taken(got))) ==> GaveUp(|calls[|parts|]|, got)
    ensures PartsRead(calls, gots + [got], parts + [EventWire.Events(Taken(got))], cut)
  {
    hide Returned, Taken, EndsHalf, GaveUp;
  }

  /** Calls of `processInotifyEvents`, one after the other, until the events end or a rebuild discards them. */
  method HandleCalls(w: Watcher, calls: seq<seq<nat -> ReadResult>>, env: nat -> Answer)
    returns (cut: bool, ghost parts: seq<seq<Event>>, ghost trace: seq<seq<Event>>, ghost gots: seq<seq<ReadResult>>)
    requires w.Valid() && forall i :: 0 <= i < |calls| ==> ReadsOk(calls[i])
    requires forall k: nat :: AnswerOk(env(k), w.rootDirPaths.Length)
    modifies w`wlCache, w`ignoreRootDirs, w.wlCache, w.rootDirPaths
    ensures w.Valid() && Called(old(w.Abs()), parts, trace, cut, env, w.Abs())
    ensures PartsRead(calls, gots, parts, cut) && (!cut ==> |parts| == |calls|)
  {
    hide ReadsOk, Called, CallOk, Returned, Taken;
    ghost var m := w.Abs();
    AnswersFit(m, env, w.rootDirPaths.Length);
    parts, trace, gots, cut := [], [], [], false;
    CalledNone(m, env);
    var i, done := 0, 0;
    while i < |calls| && !cut
      invariant 0 <= i <= |calls| && w.Valid() && |parts| == i && done == |trace|
      invariant w.wlCache == old(w.wlCache) || fresh(w.wlCache)
      invariant Called(m, parts, trace, cut, env, w.Abs()) && PartsRead(calls, gots, parts, cut)
    {
      ghost var m1 := w.Abs();
      AnswersLater(env, done, w.rootDirPaths.Length);
      AnswersFit(m1, Later(env, done), w.rootDirPaths.Length);
      var used, steps, c, p, got := ProcessInotifyEvents(w, calls[i], Later(env, done));
      CallDone(|calls[i]|, got, Later(env, done), m1, w.Abs(), c, p);
      ghost var evs := EventWire.Events(p.all);
      if !c && EndsHalf(evs) {
        EndsGaveUp(|calls[i]|, got, Later(env, done), m1, w.Abs(), p);
      }
      CalledMore(m, parts, trace, env, m1, evs, p.trace, c, w.Abs());
      PartsMore(calls, gots, parts, got, c);
      parts, trace, gots, cut := parts + [evs], trace + p.trace, gots + [got], c;
      i, done := i + 1, done + steps;
    }
  }

  // ----- one operation on directories, and all calls that handle its events -----

  lemma CalledPlays(m: Mon, parts: seq<seq<Event>>, trace: seq<seq<Event>>, cut: bool, env: nat -> Answer, m': Mon, rest: seq<Event>)
    requires Called(m, parts, trace, cut, env, m') && Unsplit(parts + [rest]) && (!cut ==> rest == [])
    ensures Plays(m, trace, Grouped(AllEvents(parts + [rest])), env, m')
  {
    hide Replay, Smooth, CutShort, Grouped, GroupOk, Unsplit, AllEvents;
    StepsMore(parts, rest);
    StepsGrouped(parts + [rest]);
    GroupedNone();
    if !cut {
      assert Steps(parts) + [] == Steps(parts);
    }
  }

  /** If the calls bring the events that the operation and its handling cause, in any pieces that split no
      pair, the cache they leave is in step with the directory trees, or the program has ended for want of
      a root. */
  lemma FollowedByCalls(s: Sys, op: Op, env: nat -> Answer, n: nat, more: seq<Event>, s': Sys,
                        parts: seq<seq<Event>>, rest: seq<Event>, trace: seq<seq<Event>>, cut: bool, m': Mon)
    requires Synced(s) && s.queue == [] && Enabled(s.fs, op) && Followed(s.fs, op)
    requires Serves(Perform(s, op), env, 0, n, more, s')
    requires Called(s.mon, parts, trace, cut, env, m') && (!cut ==> rest == [])
    requires Unsplit(parts + [rest]) && AllEvents(parts + [rest]) == Perform(s, op).queue + more
    ensures m' == s'.mon && (s'.exited <==> NewForest(s.fs, op).roots == map[])
    ensures !s'.exited ==> s'.fs == NewForest(s.fs, op) && InStep(s'.fs, s'.watch, s'.selfWds, m')
  {
    var t := Perform(s, op);
    assert EnvOk(s.mon, env);
    StartStands(s.mon, env, t);
    hide Synced, Enabled, Followed, Perform, NewForest, Serves, Called, Unsplit, AllEvents, Grouped, Plays, Stands, InStep;
    ServesDrains(t, env, 0, n, more, s');
    RoundTheorem(s, op, n, s');
    var own := ServesPlays(s.mon, [], t, env, n, more, s');
    assert [] + Grouped(t.queue + more) == Grouped(t.queue + more);
    CalledPlays(s.mon, parts, trace, cut, env, m', rest);
    PlaysOnce(s.mon, trace, own, Grouped(t.queue + more), env, m', s'.mon);
    if !s'.exited {
      SyncedStep(s');
    }
  }

  lemma StartStands(m: Mon, env: nat -> Answer, s: Sys)
    requires EnvOk(m, env) && s.mon == m && !s.exited
    ensures Stands(m, [], env, s)
  {
  }

  lemma SyncedStep(s: Sys)
    requires Synced(s)
    ensures InStep(s.fs, s.watch, s.selfWds, s.mon)
  {
  }

  /** If no call waited in vain, no pair is split. */
  lemma PatientParts(calls: seq<seq<nat -> ReadResult>>, gots: seq<seq<ReadResult>>, parts: seq<seq<Event>>)
    requires PartsRead(calls, gots, parts, false) && forall i :: 0 <= i < |parts| ==> !GaveUp(|calls[i]|, gots[i])
    ensures Unsplit(parts + [[]]) && AllEvents(parts + [[]]) == AllEvents(parts)
  {
    hide EndsHalf, GaveUp, Returned, Taken;
    WholeParts(parts);
    assert (parts + [[]])[..|parts|] == parts;
    assert AllEvents(parts) + [] == AllEvents(parts);
  }

  /** The same for the slot array and the bytes.  The pieces split no pair if no call had to give up
      waiting for more events. */
  method FollowOperation(w: Watcher, calls: seq<seq<nat -> ReadResult>>, env: nat -> Answer,
                         ghost s: Sys, ghost op: Op, ghost n: nat, ghost more: seq<Event>, ghost s': Sys)
    returns (cut: bool, ghost parts: seq<seq<Event>>, ghost gots: seq<seq<ReadResult>>)
    requires w.Valid() && forall i :: 0 <= i < |calls| ==> ReadsOk(calls[i])
    requires forall k: nat :: AnswerOk(env(k), w.rootDirPaths.Length)
    requires Synced(s) && s.queue == [] && s.mon == w.Abs() && Enabled(s.fs, op) && Followed(s.fs, op)
    requires Serves(Perform(s, op), env, 0, n, more, s')
    modifies w`wlCache, w`ignoreRootDirs, w.wlCache, w.rootDirPaths
    ensures w.Valid() && PartsRead(calls, gots, parts, cut) && (!cut ==> |parts| == |calls|)
    ensures forall rest :: Unsplit(parts + [rest]) && AllEvents(parts + [rest]) == Perform(s, op).queue + more && (!cut ==> rest == []) ==>
              && (s'.exited <==> NewForest(s.fs, op).roots == map[])
              && (!s'.exited ==> s'.fs == NewForest(s.fs, op) && InStep(s'.fs, s'.watch, s'.selfWds, w.Abs()))
    ensures !cut && AllEvents(parts) == Perform(s, op).queue + more && (forall i :: 0 <= i < |calls| ==> !GaveUp(|calls[i]|, gots[i])) ==>
              && (s'.exited <==> NewForest(s.fs, op).roots == map[])
              && (!s'.exited ==> s'.fs == NewForest(s.fs, op) && InStep(s'.fs, s'.watch, s'.selfWds, w.Abs()))
  {
    hide Synced, Enabled, Followed, Perform, NewForest, Serves, Called, Unsplit, AllEvents, InStep, ReadsOk, GaveUp, EndsHalf, Returned, Taken;
    ghost var trace;
    cut, parts, trace, gots := HandleCalls(w, calls, env);
    if !cut && forall i :: 0 <= i < |calls| ==> !GaveUp(|calls[i]|, gots[i]) {
      PatientParts(calls, gots, parts);
    }
    forall rest | Unsplit(parts + [rest]) && AllEvents(parts + [rest]) == Perform(s, op).queue + more && (!cut ==> rest == [])
      ensures s'.exited <==> NewForest(s.fs, op).roots == map[]
      ensures !s'.exited ==> s'.fs == NewForest(s.fs, op) && InStep(s'.fs, s'.watch, s'.selfWds, w.Abs())
    {
      FollowedByCalls(s, op, env, n, more, s', parts, rest, trace, cut, w.Abs());
    }
  }
}
