/** Reading events into a buffer and handling them one after the other, where an "moved from" event at
    the end of the buffer is held back for one more read. */
module EventLoop {
  import opened Basics
  import opened Paths
  import opened Monitor
  import opened EventWire
  import opened WatchCache

  // ----- how a stream of events is handled: the specification -----

  /** The event reaches the "moved from" branch. */
  predicate IsFrom(ev: Event) {
    && Has(ev.mask, IN_MOVED_FROM) && Has(ev.mask, IN_ISDIR)
    && !Has(ev.mask, IN_CREATE) && !Has(ev.mask, IN_MOVED_TO) && !Has(ev.mask, IN_DELETE_SELF)
  }

  function GroupLen(evs: seq<Event>): (n: nat)
    requires evs != []
    ensures 1 <= n <= |evs| && n <= 2
  {
    if IsFrom(evs[0]) && |evs| > 1 && MovedOn(evs[0], Some(evs[1])) then 2 else 1
  }

  /** The events in order, each once; a "moved from" and its "moved to" next to it form one step. */
  function Grouped(evs: seq<Event>): seq<seq<Event>> {
    if evs == [] then [] else [evs[..GroupLen(evs)]] + Grouped(evs[GroupLen(evs)..])
  }

  predicate GroupOk(g: seq<Event>) {
    g != [] && KernelEvent(g[0])
  }

  function StepOn(m: Mon, g: seq<Event>, ans: Answer): Result
    requires GroupOk(g) && |ans.rebuild| == |m.roots|
  {
    Handle(m, g[0], if |g| > 1 then Some(g[1]) else None, false, ans)
  }

  /** The state after the given steps. */
  function Replay(m: Mon, trace: seq<seq<Event>>, env: nat -> Answer): (r: Mon)
    requires forall i :: 0 <= i < |trace| ==> GroupOk(trace[i])
    requires forall k: nat :: |env(k).rebuild| == |m.roots|
    ensures |r.roots| == |m.roots|
  {
    if trace == [] then m
    else
      var n := |trace| - 1;
      StepOn(Replay(m, trace[..n], env), trace[n], env(n)).mon
  }

  lemma {:induction false} GroupedOnce(evs: seq<Event>)
    ensures Flatten(Grouped(evs)) == evs
  {
    if evs != [] {
      var n := GroupLen(evs);
      GroupedOnce(evs[n..]);
      assert Grouped(evs)[1..] == Grouped(evs[n..]);
      assert evs == evs[..n] + evs[n..];
    }
  }

  function Flatten(gs: seq<seq<Event>>): seq<Event> {
    if gs == [] then [] else gs[0] + Flatten(gs[1..])
  }

  /** The groups before group `k` hold `i` events, and group `k` is a pair. */
  ghost predicate PairAt(gs: seq<seq<Event>>, k: nat, i: nat) {
    k < |gs| && |Flatten(gs[..k])| == i && |gs[k]| == 2
  }

  /** Event `i` begins a pair. */
  ghost predicate Paired(gs: seq<seq<Event>>, i: nat) {
    exists k: nat :: PairAt(gs, k, i)
  }

  lemma PairAtHead(gs: seq<seq<Event>>, k: nat, i: nat)
    requires gs != [] && gs[0] != []
    ensures PairAt(gs, k, i) <==> if k == 0 then i == 0 && |gs[0]| == 2 else i >= |gs[0]| && PairAt(gs[1..], k - 1, i - |gs[0]|)
  {
    if k > 0 && k < |gs| {
      assert gs[..k][0] == gs[0] && gs[..k][1..] == gs[1..][..k - 1];
    }
  }

  /** Two neighbours are handled as a pair exactly when the first is a "moved from" of a directory and the
      second a "moved to" with the same cookie; all other events are handled one by one. */
  lemma {:induction false} GroupedPairs(evs: seq<Event>, i: nat)
    requires i + 1 < |evs|
    ensures Paired(Grouped(evs), i) <==>
            IsFrom(evs[i]) && Has(evs[i + 1].mask, IN_MOVED_TO) && evs[i + 1].cookie == evs[i].cookie
    ensures forall g :: g in Grouped(evs) ==> 1 <= |g| <= 2
  {
    hide Has, PairAt;
    var n, gs := GroupLen(evs), Grouped(evs);
    var rest := Grouped(evs[n..]);
    assert gs[0] == evs[..n] && gs[1..] == rest;
    GroupSizes(evs);
    forall k: nat
      ensures PairAt(gs, k, i) <==> if k == 0 then i == 0 && n == 2 else i >= n && PairAt(rest, k - 1, i - n)
    {
      PairAtHead(gs, k, i);
    }
    if i >= n {
      var j: nat := i - n;
      GroupedPairs(evs[n..], j);
      assert evs[n..][j] == evs[i] && evs[n..][j + 1] == evs[i + 1];
      if Paired(rest, j) {
        var k: nat :| PairAt(rest, k, j);
        assert PairAt(gs, k + 1, i);
      }
    } else if i == 0 && n == 2 {
      assert PairAt(gs, 0, i);
    }
  }

  lemma {:induction false} GroupSizes(evs: seq<Event>)
    ensures forall g :: g in Grouped(evs) ==> 1 <= |g| <= 2
  {
    hide IsFrom, MovedOn;
    if evs != [] {
      GroupSizes(evs[GroupLen(evs)..]);
    }
  }

  /** Handling an event that is not held back depends on the next one only through the pairing. */
  lemma HandleGroup(m: Mon, evs: seq<Event>, firstTry: bool, ans: Answer)
    requires evs != [] && KernelEvent(evs[0]) && |ans.rebuild| == |m.roots|
    ensures var next := if |evs| > 1 then Some(evs[1]) else None;
            var r := Handle(m, evs[0], next, firstTry, ans);
            && (r.outcome == Deferred <==> IsFrom(evs[0]) && evs[0].wd in m.cache && firstTry && |evs| == 1)
            && (r.outcome == Deferred ==> r.mon == m)
            && (r.outcome != Deferred ==> r == StepOn(m, evs[..GroupLen(evs)], ans))
            && (r.outcome.Done? ==> r.outcome == Done(GroupLen(evs)))
            && (r.outcome.Done? && IsFrom(evs[0]) && |evs| == 1 ==> !firstTry)
  {
    FromWatched(evs[0]);
    hide Has, ZapFails, NoRoots, Strike, PathCached, BuildCache, KernelEvent;
  }

  lemma FromWatched(ev: Event)
    requires KernelEvent(ev)
    ensures IsFrom(ev) ==> ev.wd >= 0 && !Has(ev.mask, IN_IGNORED)
  {
  }

  // ----- one event in the buffer -----

  function NextOf(left: seq<Packet>): Option<Event> {
    if |left| > 1 then Some(left[1].ev) else None
  }

  /** From `off` on, the buffer holds the events `left`. */
  ghost predicate Holds(b: seq<Byte>, off: nat, left: seq<Packet>) {
    PacketsOk(left) && off + |EncodeAll(left)| <= |b| && b[off..off + |EncodeAll(left)|] == EncodeAll(left)
  }

  lemma HoldsHead(b: seq<Byte>, off: nat, left: seq<Packet>)
    requires Holds(b, off, left) && left != []
    ensures PacketsOk(left) && KernelEvent(left[0].ev) && off + |EncodeAll(left)| <= |b|
    ensures off + HEADER <= off + |Encode(left[0])| <= |b| && |Encode(left[0])| <= HEADER + NAME_MAX + 1
    ensures EventLen(b[off..]) == |Encode(left[0])| && Decode(b[off..]) == left[0].ev
    ensures Holds(b, off + |Encode(left[0])|, left[1..])
    ensures |EncodeAll(left)| == |Encode(left[0])| + |EncodeAll(left[1..])|
  {
    hide Decode, Encode, EncodeAll, EventLen, PacketOk, KernelEvent, Holds, PacketsOk;
    HoldsParts(b, off, left);
    DecodeEncode(left[0], b[off + |Encode(left[0])|..]);
  }

  lemma HoldsParts(b: seq<Byte>, off: nat, left: seq<Packet>)
    requires Holds(b, off, left) && left != []
    ensures PacketsOk(left) && PacketOk(left[0]) && KernelEvent(left[0].ev) && off + |EncodeAll(left)| <= |b|
    ensures |EncodeAll(left)| == |Encode(left[0])| + |EncodeAll(left[1..])|
    ensures b[off..] == Encode(left[0]) + b[off + |Encode(left[0])|..]
    ensures Holds(b, off + |Encode(left[0])|, left[1..])
  {
    hide Encode, PacketOk, KernelEvent, PacketsOk;
    PacketsHead(left);
    var x, y := Encode(left[0]), EncodeAll(left[1..]);
    assert EncodeAll(left) == x + y;
    hide EncodeAll;
    Cut(b, off, x, y);
  }

  lemma PacketsHead(left: seq<Packet>)
    requires PacketsOk(left) && left != []
    ensures PacketOk(left[0]) && KernelEvent(left[0].ev) && PacketsOk(left[1..])
  {
  }

  lemma Cut<T>(b: seq<T>, off: nat, x: seq<T>, y: seq<T>)
    requires off + |x + y| <= |b| && b[off..off + |x + y|] == x + y
    ensures b[off..] == x + b[off + |x|..]
    ensures b[off + |x|..off + |x| + |y|] == y
  {
    assert b[off..off + |x|] == b[off..off + |x + y|][..|x|] == x;
    assert b[off + |x|..off + |x| + |y|] == b[off..off + |x + y|][|x|..] == y;
  }

  /** `processNextInotifyEvent` on the event at `evp`: decodes it, looks at the one behind it when the
      remaining size reaches that far, and returns the number of bytes used up, or -1 to ask for
      another read. */
  method ProcessNextInotifyEvent(w: Watcher, buf: array<Byte>, evp: nat, bufSize: int, firstTry: bool, ans: Answer,
                                 ghost left: seq<Packet>)
    returns (evLen: int, exit: bool)
    requires w.Valid() && AnswerOk(ans, w.rootDirPaths.Length)
    requires buf as object != w.wlCache as object && buf as object != w.rootDirPaths as object
    requires left != [] && buf.Length == INOTIFY_READ_BUF_LEN && Holds(buf[..], evp, left)
    requires bufSize == |EncodeAll(left)| || (bufSize == |EncodeAll(left)| - 1 && |left| == 1 && !firstTry)
    modifies w`wlCache, w`ignoreRootDirs, w.wlCache, w.rootDirPaths
    ensures w.Valid() && (w.wlCache == old(w.wlCache) || fresh(w.wlCache))
    ensures var r := Handle(old(w.Abs()), left[0].ev, NextOf(left), firstTry, ans);
            && w.Abs() == r.mon
            && (exit <==> r.outcome == Exited)
            && (evLen == -1 <==> r.outcome == Deferred)
            && (r.outcome == Rebuilt ==> evLen == INOTIFY_READ_BUF_LEN)
            && (r.outcome == Done(1) ==> evLen == |Encode(left[0])|)
            && (r.outcome == Done(2) ==> |left| > 1 && evLen == |Encode(left[0])| + |Encode(left[1])|)
  {
    hide Holds, Handle, Encode, EncodeAll, Decode, PacketOk, View, SlotsOk, Nulled, EventLen;
    ghost var b := buf[..];
    HoldsHead(b, evp, left);
    assert buf[evp..] == b[evp..];
    var ev := Decode(buf[evp..]);
    evLen := EventLen(buf[evp..]);
    var next := None;
    var nextLen := 0;
    if evLen < bufSize {
      HoldsSecond(left);
      HoldsHead(b, evp + |Encode(left[0])|, left[1..]);
      assert buf[evp + evLen..] == b[evp + evLen..];
      next := Some(Decode(buf[evp + evLen..]));
      nextLen := EventLen(buf[evp + evLen..]);
    } else {
      HoldsOnly(left, bufSize);
    }
    HandleDoneTwo(w.Abs(), ev, next, firstTry, ans);
    var outcome := w.HandleEvent(ev, next, firstTry, ans);
    exit := outcome == Exited;
    match outcome
    case Done(n) => evLen := if n == 2 then evLen + nextLen else evLen;
    case Deferred => evLen := -1;
    case Rebuilt => evLen := INOTIFY_READ_BUF_LEN;
    case Exited =>
  }

  /** More bytes than the first packet takes: there is a second one. */
  lemma HoldsSecond(left: seq<Packet>)
    requires left != [] && PacketsOk(left) && |Encode(left[0])| < |EncodeAll(left)|
    ensures |left| > 1
  {
  }

  lemma HoldsOnly(left: seq<Packet>, bufSize: int)
    requires left != [] && PacketsOk(left) && |Encode(left[0])| >= bufSize
    requires bufSize == |EncodeAll(left)| || |left| == 1
    ensures |left| == 1
  {
  }

  lemma HandleDoneTwo(m: Mon, ev: Event, next: Option<Event>, firstTry: bool, ans: Answer)
    requires KernelEvent(ev) && |ans.rebuild| == |m.roots|
    ensures var o := Handle(m, ev, next, firstTry, ans).outcome;
            o.Done? ==> o == Done(1) || (o == Done(2) && next.Some?)
  {
    hide Has, ZapFails, NoRoots, Strike, PathCached, BuildCache, KernelEvent;
  }

  // ----- the loop over the buffer -----

  /** What has been handled so far, whatever comes after the events read. */
  ghost predicate Traced(all: seq<Event>, left: seq<Event>, trace: seq<seq<Event>>) {
    && (left == [] ==> trace == Grouped(all))
    && (left != [] ==> forall more :: Grouped(all + more) == trace + Grouped(left + more))
  }

  lemma GroupLenMore(left: seq<Event>, more: seq<Event>)
    requires |left| > 1
    ensures GroupLen(left + more) == GroupLen(left)
  {
  }

  lemma GroupedHead(evs: seq<Event>)
    requires evs != []
    ensures Grouped(evs) == [evs[..GroupLen(evs)]] + Grouped(evs[GroupLen(evs)..])
  {
  }

  /** The head group is the same whatever follows the second event. */
  lemma GroupedMore(left: seq<Event>, more: seq<Event>)
    requires |left| > 1
    ensures var n := GroupLen(left); Grouped(left + more) == [left[..n]] + Grouped(left[n..] + more)
  {
    hide Grouped;
    var n := GroupLen(left);
    GroupLenMore(left, more);
    GroupedHead(left + more);
    assert (left + more)[..n] == left[..n];
    assert (left + more)[n..] == left[n..] + more;
  }

  lemma Assoc<T>(a: seq<T>, b: seq<T>, c: seq<T>)
    ensures a + (b + c) == a + b + c && a + b <= a + b + c
  {
  }

  lemma TracedStepMore(all: seq<Event>, left: seq<Event>, trace: seq<seq<Event>>, more: seq<Event>)
    requires Traced(all, left, trace) && |left| > 1
    ensures var n := GroupLen(left); Grouped(all + more) == trace + [left[..n]] + Grouped(left[n..] + more)
  {
    hide Grouped, GroupLen;
    var n := GroupLen(left);
    assert Grouped(all + more) == trace + Grouped(left + more);
    GroupedMore(left, more);
    Assoc(trace, [left[..n]], Grouped(left[n..] + more));
  }

  lemma TracedStepNow(all: seq<Event>, left: seq<Event>, trace: seq<seq<Event>>)
    requires Traced(all, left, trace) && left != []
    ensures var n := GroupLen(left); Grouped(all) == trace + [left[..n]] + Grouped(left[n..])
  {
    hide Grouped, GroupLen;
    var n := GroupLen(left);
    assert Grouped(all + []) == trace + Grouped(left + []);
    assert all + [] == all && left + [] == left;
    GroupedHead(left);
    Assoc(trace, [left[..n]], Grouped(left[n..]));
  }

  lemma TracedStep(all: seq<Event>, left: seq<Event>, trace: seq<seq<Event>>)
    requires Traced(all, left, trace) && left != []
    ensures var n := GroupLen(left); Traced(all, left[n..], trace + [left[..n]])
    ensures trace + [left[..GroupLen(left)]] <= Grouped(all)
  {
    hide Grouped, GroupLen;
    var n := GroupLen(left);
    TracedStepNow(all, left, trace);
    if left[n..] == [] {
      GroupedNone();
      assert trace + [left[..n]] + [] == trace + [left[..n]];
    } else {
      forall more
        ensures Grouped(all + more) == trace + [left[..n]] + Grouped(left[n..] + more)
      {
        TracedStepMore(all, left, trace, more);
      }
    }
  }

  lemma GroupedNone()
    ensures Grouped([]) == []
  {
  }

  lemma TracedMore(all: seq<Event>, left: seq<Event>, trace: seq<seq<Event>>, new': seq<Event>)
    requires Traced(all, left, trace) && left != []
    ensures Traced(all + new', left + new', trace)
  {
    forall more
      ensures Grouped(all + new' + more) == trace + Grouped(left + new' + more)
    {
      assert all + new' + more == all + (new' + more);
      assert left + new' + more == left + (new' + more);
    }
  }

  /** The result of one `read()`: whole events, or an interruption by the timeout. */
  datatype ReadResult = Got(packets: seq<Packet>) | Interrupted

  function Brought(r: ReadResult): seq<Packet> {
    if r.Got? then r.packets else []
  }

  function Taken(rs: seq<ReadResult>): seq<Packet> {
    if rs == [] then []
    else
      var n := |rs| - 1;
      Taken(rs[..n]) + Brought(rs[n])
  }

  const LARGEST := HEADER + NAME_MAX + 1

  predicate ReadOk(r: ReadResult, room: nat) {
    r.Got? ==> r.packets != [] && PacketsOk(r.packets) && |EncodeAll(r.packets)| <= room
  }

  /** What each `read()` returns when given so much room.  The first brings events; later ones are made
      behind one event kept in the buffer. */
  ghost predicate ReadsOk(rs: seq<nat -> ReadResult>) {
    && rs != [] && rs[0](INOTIFY_READ_BUF_LEN).Got? && ReadOk(rs[0](INOTIFY_READ_BUF_LEN), INOTIFY_READ_BUF_LEN)
    && forall i, room: nat :: 1 <= i < |rs| && INOTIFY_READ_BUF_LEN - LARGEST <= room <= INOTIFY_READ_BUF_LEN ==>
         ReadOk(rs[i](room), room)
  }

  ghost predicate Returns(read: nat -> ReadResult, r: ReadResult) {
    exists room: nat :: room <= INOTIFY_READ_BUF_LEN && read(room) == r
  }

  /** The reads made so far returned `got`. */
  ghost predicate Returned(rs: seq<nat -> ReadResult>, got: seq<ReadResult>) {
    |got| <= |rs| && forall i :: 0 <= i < |got| ==> Returns(rs[i], got[i])
  }

  lemma ReturnedMore(rs: seq<nat -> ReadResult>, got: seq<ReadResult>, room: nat)
    requires Returned(rs, got) && |got| < |rs| && room <= INOTIFY_READ_BUF_LEN
    ensures Returned(rs, got + [rs[|got|](room)])
  {
    assert Returns(rs[|got|], rs[|got|](room));
    hide Returns;
  }

  /** The kernel's part of `read()`. */
  method Fill(buf: array<Byte>, at: nat, bytes: seq<Byte>)
    requires at + |bytes| <= buf.Length
    modifies buf
    ensures buf[..at] == old(buf[..at]) && buf[at..at + |bytes|] == bytes
  {
    forall i | 0 <= i < |bytes| {
      buf[at + i] := bytes[i];
    }
  }

  /** "Shuffle remaining bytes to start of buffer". */
  method Shift(buf: array<Byte>, evp: nat, numRead: nat)
    requires evp + numRead <= buf.Length
    modifies buf
    ensures buf[..numRead] == old(buf[evp..evp + numRead])
  {
    var j := 0;
    while j < numRead
      invariant 0 <= j <= numRead
      invariant forall i :: 0 <= i < j ==> buf[i] == old(buf[evp + i])
      invariant forall i :: j <= i < buf.Length ==> buf[i] == old(buf[i])
    {
      buf[j] := buf[evp + j];
      j := j + 1;
    }
  }

  // ----- the loop's bookkeeping, on values -----

  ghost predicate Increasing(ks: seq<nat>) {
    forall i, j :: 0 <= i < j < |ks| ==> ks[i] < ks[j]
  }

  /** `all` was read, `left` is still in the buffer, `trace` was done, and the events at the places
      `deferred` have been held back. */
  datatype Progress = Progress(all: seq<Packet>, left: seq<Packet>, trace: seq<seq<Event>>, deferred: seq<nat>)

  ghost predicate ProgressOk(p: Progress, firstTry: bool) {
    && PacketsOk(p.all) && |p.left| <= |p.all| && p.left == p.all[|p.all| - |p.left|..]
    && Traced(Events(p.all), Events(p.left), p.trace)
    && (forall i :: 0 <= i < |p.trace| ==> GroupOk(p.trace[i]))
    && DeferredOk(p, firstTry)
  }

  /** Only "moved from" events are held back, each once; the one at the head of the buffer is among
      them only when it has been tried before. */
  ghost predicate DeferredOk(p: Progress, firstTry: bool) {
    && Increasing(p.deferred) && |p.left| <= |p.all|
    && forall i :: 0 <= i < |p.deferred| ==>
         && p.deferred[i] < |p.all| && IsFrom(p.all[p.deferred[i]].ev)
         && (p.deferred[i] < |p.all| - |p.left| || (p.deferred[i] == |p.all| - |p.left| && !firstTry))
  }

  lemma ProgressStart(ps: seq<Packet>)
    requires PacketsOk(ps) && ps != []
    ensures ProgressOk(Progress(ps, ps, [], []), true)
  {
    forall more
      ensures Grouped(Events(ps) + more) == [] + Grouped(Events(ps) + more)
    {
    }
  }

  function Consumed(p: Progress): Progress
    requires p.left != []
  {
    var n := GroupLen(Events(p.left));
    p.(left := p.left[n..], trace := p.trace + [Events(p.left)[..n]])
  }

  lemma ProgressConsume(p: Progress, firstTry: bool)
    requires ProgressOk(p, firstTry) && p.left != []
    ensures ProgressOk(Consumed(p), true) && Consumed(p).trace <= Grouped(Events(p.all))
  {
    hide Grouped, IsFrom;
    var n, q := GroupLen(Events(p.left)), Consumed(p);
    TracedStep(Events(p.all), Events(p.left), p.trace);
    assert Events(p.left)[n..] == Events(q.left);
    assert p.left[0] == p.all[|p.all| - |p.left|];
    assert PacketOk(p.left[0]);
  }

  function HeldBack(p: Progress, new': seq<Packet>): Progress
    requires |p.left| <= |p.all|
  {
    Progress(p.all + new', p.left + new', p.trace, p.deferred + [|p.all| - |p.left|])
  }

  lemma ProgressHold(p: Progress, new': seq<Packet>)
    requires ProgressOk(p, true) && PacketsOk(new') && p.left != [] && IsFrom(p.left[0].ev)
    ensures ProgressOk(HeldBack(p, new'), false)
  {
    hide Grouped, IsFrom;
    var q := HeldBack(p, new');
    TracedMore(Events(p.all), Events(p.left), p.trace, Events(new'));
    assert Events(q.all) == Events(p.all) + Events(new') && Events(q.left) == Events(p.left) + Events(new');
    assert p.left[0] == p.all[|p.all| - |p.left|];
  }

  lemma ReplayMore(m: Mon, trace: seq<seq<Event>>, g: seq<Event>, env: nat -> Answer)
    requires (forall i :: 0 <= i < |trace| ==> GroupOk(trace[i])) && GroupOk(g)
    requires forall k: nat :: |env(k).rebuild| == |m.roots|
    ensures Replay(m, trace + [g], env) == StepOn(Replay(m, trace, env), g, env(|trace|)).mon
  {
    hide StepOn;
    assert (trace + [g])[..|trace|] == trace;
  }

  // ----- the loop's buffer -----

  lemma HoldsWhole(b: seq<Byte>, ps: seq<Packet>)
    requires PacketsOk(ps) && |EncodeAll(ps)| <= |b| && b[..|EncodeAll(ps)|] == EncodeAll(ps)
    ensures Holds(b, 0, ps)
  {
  }

  lemma {:induction false} EncodeAllAppend(a: seq<Packet>, b: seq<Packet>)
    requires PacketsOk(a) && PacketsOk(b)
    ensures EncodeAll(a + b) == EncodeAll(a) + EncodeAll(b)
  {
    hide Encode, PacketOk;
    if a == [] {
      assert a + b == b;
    } else {
      assert (a + b)[1..] == a[1..] + b;
      EncodeAllAppend(a[1..], b);
      assert (a + b)[0] == a[0];
    }
  }

  lemma Rejoin<T>(b: seq<T>, x: seq<T>, y: seq<T>)
    requires |x| + |y| <= |b| && b[..|x|] == x && b[|x|..|x| + |y|] == y
    ensures b[0..|x| + |y|] == x + y
  {
  }

  /** The kept event moved to the front, with what the second read put behind it. */
  lemma HoldsRefilled(b0: seq<Byte>, evp: nat, b: seq<Byte>, left: seq<Packet>, new': seq<Packet>)
    requires Holds(b0, evp, left) && PacketsOk(new') && PacketsOk(left + new')
    requires |EncodeAll(left)| + |EncodeAll(new')| <= |b|
    requires b[..|EncodeAll(left)|] == b0[evp..evp + |EncodeAll(left)|]
    requires b[|EncodeAll(left)|..|EncodeAll(left)| + |EncodeAll(new')|] == EncodeAll(new')
    ensures Holds(b, 0, left + new') && |EncodeAll(left + new')| == |EncodeAll(left)| + |EncodeAll(new')|
  {
    hide PacketsOk, EncodeAll;
    EncodeAllAppend(left, new');
    Rejoin(b, EncodeAll(left), EncodeAll(new'));
  }

  lemma HoldsGroup(b: seq<Byte>, off: nat, left: seq<Packet>)
    requires Holds(b, off, left) && left != []
    ensures PacketsOk(left) && |Encode(left[0])| >= HEADER && |EncodeAll(left)| >= HEADER
    ensures off + |EncodeAll(left)| <= |b|
    ensures |left| == 1 ==> |Encode(left[0])| == |EncodeAll(left)| <= LARGEST
    ensures var n := GroupLen(Events(left));
            var len := |Encode(left[0])| + if n == 2 then |Encode(left[1])| else 0;
            && 0 < len <= 2 * LARGEST && len <= |EncodeAll(left)|
            && Holds(b, off + len, left[n..]) && |EncodeAll(left)| == len + |EncodeAll(left[n..])|
  {
    hide Holds, EncodeAll, PacketOk, Encode, GroupLen, Decode, EventLen, KernelEvent;
    HoldsHead(b, off, left);
    EncodeNone();
    if GroupLen(Events(left)) == 2 {
      HoldsHead(b, off + |Encode(left[0])|, left[1..]);
      assert left[1..][1..] == left[2..];
    }
    if |left| == 1 {
      assert left[1..] == [];
    }
  }

  // ----- the loop -----

  /** Where the buffer stands: all packets left lie between `evp` and `numRead`, except that an
      interrupted second read has taken one from `numRead`. */
  ghost predicate BufferOk(b: seq<Byte>, evp: nat, numRead: int, left: seq<Packet>, firstTry: bool) {
    && Holds(b, evp, left)
    && if left == [] then evp >= numRead
       else || numRead == evp + |EncodeAll(left)|
            || (numRead == evp + |EncodeAll(left)| - 1 && |left| == 1 && !firstTry)
  }

  lemma BufferConsume(b: seq<Byte>, evp: nat, numRead: int, left: seq<Packet>, firstTry: bool)
    requires BufferOk(b, evp, numRead, left, firstTry) && left != []
    ensures PacketsOk(left)
    ensures var n := GroupLen(Events(left));
            var len := |Encode(left[0])| + if n == 2 then |Encode(left[1])| else 0;
            0 < len < INOTIFY_READ_BUF_LEN && BufferOk(b, evp + len, numRead, left[n..], true)
  {
    hide Holds, Encode, GroupLen, PacketsOk;
    HoldsGroup(b, evp, left);
    var n := GroupLen(Events(left));
    if left[n..] == [] {
      EncodeNone();
    }
  }

  lemma EncodeNone()
    ensures EncodeAll([]) == []
  {
  }

  /** What handling the head of `left` does, in terms of the step it belongs to. */
  lemma HandleHead(m: Mon, left: seq<Packet>, firstTry: bool, ans: Answer)
    requires left != [] && PacketsOk(left) && |ans.rebuild| == |m.roots|
    ensures KernelEvent(left[0].ev)
    ensures var r := Handle(m, left[0].ev, NextOf(left), firstTry, ans);
            var n := GroupLen(Events(left));
            && GroupOk(Events(left)[..n])
            && (r.outcome == Deferred <==> IsFrom(left[0].ev) && left[0].ev.wd in m.cache && firstTry && |left| == 1)
            && (r.outcome == Deferred ==> r.mon == m)
            && (r.outcome != Deferred ==> r == StepOn(m, Events(left)[..n], ans))
            && (r.outcome.Done? ==> r.outcome == Done(n))
            && (r.outcome.Done? && IsFrom(left[0].ev) && |left| == 1 ==> !firstTry)
  {
    assert PacketOk(left[0]);
    HandleGroup(m, Events(left), firstTry, ans);
  }

  ghost predicate Discards(m: Mon, trace: seq<seq<Event>>, env: nat -> Answer)
    requires (forall i :: 0 <= i < |trace| ==> GroupOk(trace[i])) && trace != []
    requires forall k: nat :: |env(k).rebuild| == |m.roots|
  {
    var n := |trace| - 1;
    var o := StepOn(Replay(m, trace[..n], env), trace[n], env(n)).outcome;
    o == Rebuilt || o == Exited
  }

  lemma TakenMore(got: seq<ReadResult>, r: ReadResult)
    ensures Taken(got + [r]) == Taken(got) + Brought(r)
  {
    assert (got + [r])[..|got|] == got;
  }

  /** The event at the end of the buffer is moved to its start and the result of one more read is put
      behind it; when that read is interrupted its result, -1, is added to the size all the same. */
  method ReadBehind(buf: array<Byte>, evp: nat, numRead: int, r: ReadResult, ghost left: seq<Packet>)
    returns (numRead': int)
    requires BufferOk(buf[..], evp, numRead, left, true) && |left| == 1 && buf.Length == INOTIFY_READ_BUF_LEN
    requires evp <= numRead && ReadOk(r, INOTIFY_READ_BUF_LEN - (numRead - evp))
    modifies buf
    ensures BufferOk(buf[..], 0, numRead', left + Brought(r), false) && PacketsOk(Brought(r))
    ensures numRead' <= buf.Length
  {
    hide Holds, Encode, EncodeAll, PacketOk, PacketsOk;
    ghost var b0 := buf[..];
    HoldsGroup(b0, evp, left);
    assert b0[evp..numRead] == buf[evp..numRead];
    var kept := numRead - evp;
    Shift(buf, evp, kept);
    EncodeNone();
    if r.Got? {
      var bytes := EncodeAll(r.packets);
      Fill(buf, kept, bytes);
      assert buf[..][..kept] == buf[..kept];
      assert buf[..][kept..kept + |bytes|] == bytes;
      PacketsAppend(left, r.packets);
      HoldsRefilled(b0, evp, buf[..], left, r.packets);
      numRead' := kept + |bytes|;
    } else {
      assert buf[..][..kept] == buf[..kept];
      PacketsAppend(left, []);
      HoldsRefilled(b0, evp, buf[..], left, []);
      numRead' := kept + -1;
    }
  }

  lemma KeptSmall(b: seq<Byte>, evp: nat, numRead: int, left: seq<Packet>)
    requires BufferOk(b, evp, numRead, left, true) && |left| == 1
    ensures 0 <= numRead - evp <= LARGEST
  {
    hide Holds;
    HoldsGroup(b, evp, left);
  }

  /** The read with a timeout that follows when an event was held back. */
  method SecondRead(buf: array<Byte>, evp: nat, numRead: int, rs: seq<nat -> ReadResult>, used: nat,
                    ghost left: seq<Packet>, ghost got: seq<ReadResult>)
    returns (numRead': int, used': nat, ghost more: seq<Packet>, ghost got': seq<ReadResult>)
    requires BufferOk(buf[..], evp, numRead, left, true) && |left| == 1
    requires ReadsOk(rs) && 1 <= used == |got| && Returned(rs, got) && buf.Length == INOTIFY_READ_BUF_LEN
    modifies buf
    ensures BufferOk(buf[..], 0, numRead', left + more, false) && PacketsOk(more)
    ensures used' == |got'| == (if used < |rs| then used + 1 else used) && Returned(rs, got')
    ensures got <= got' && Taken(got') == Taken(got) + more
    ensures if used == |rs| then more == [] else more == [] ==> got'[used].Interrupted?
    ensures numRead' <= buf.Length
  {
    assert |got| <= |rs|;
    KeptSmall(buf[..], evp, numRead, left);
    hide BufferOk, PacketsOk, Taken, Returned;
    var room := INOTIFY_READ_BUF_LEN - (numRead - evp);
    used', got', more := used, got, [];
    if used < |rs| {
      var r := rs[used](room);
      numRead' := ReadBehind(buf, evp, numRead, r, left);
      TakenMore(got, r);
      ReturnedMore(rs, got, room);
      used', got', more := used + 1, got + [r], Brought(r);
    } else {
      numRead' := ReadBehind(buf, evp, numRead, Interrupted, left);
      assert Taken(got) + [] == Taken(got);
    }
  }

  lemma PacketsAppend(a: seq<Packet>, b: seq<Packet>)
    requires PacketsOk(a) && PacketsOk(b)
    ensures PacketsOk(a + b)
    ensures PacketsOk([])
  {
  }

  lemma LoopStart(ps: seq<Packet>, b: seq<Byte>, numRead: nat, env: nat -> Answer, m0: Mon)
    requires ps != [] && PacketsOk(ps) && numRead == |EncodeAll(ps)| <= |b| && b[0..numRead] == EncodeAll(ps)
    requires forall k: nat :: |env(k).rebuild| == |m0.roots|
    ensures LoopOk([Got(ps)], env, m0, m0, b, 0, numRead, true, false, Progress(ps, ps, [], []))
  {
    hide PacketsOk, EncodeAll, Grouped, ProgressOk, BufferOk, Replay, Events, Taken, Discards, CutShort;
    TakenOne(ps);
    ProgressStart(ps);
    BufferStart(b, ps);
    ReplayNone(m0, env);
  }

  lemma TakenOne(ps: seq<Packet>)
    ensures Taken([Got(ps)]) == ps
  {
    assert [Got(ps)] == [] + [Got(ps)];
    TakenMore([], Got(ps));
  }

  lemma BufferStart(b: seq<Byte>, ps: seq<Packet>)
    requires ps != [] && PacketsOk(ps) && |EncodeAll(ps)| <= |b| && b[0..|EncodeAll(ps)|] == EncodeAll(ps)
    ensures BufferOk(b, 0, |EncodeAll(ps)|, ps, true)
  {
    hide EncodeAll, PacketsOk;
    assert b[..|EncodeAll(ps)|] == b[0..|EncodeAll(ps)|];
    HoldsWhole(b, ps);
  }

  lemma LoopHead(got: seq<ReadResult>, env: nat -> Answer, m0: Mon, m: Mon, b: seq<Byte>, evp: nat, numRead: int,
                 firstTry: bool, cut: bool, p: Progress)
    requires forall k: nat :: |env(k).rebuild| == |m0.roots|
    requires LoopOk(got, env, m0, m, b, evp, numRead, firstTry, cut, p) && evp < numRead
    ensures !cut && p.left != [] && Holds(b, evp, p.left) && PacketsOk(p.left) && |m.roots| == |m0.roots|
    ensures BufferOk(b, evp, numRead, p.left, firstTry)
    ensures p.all == Taken(got) && |p.left| <= |p.all| && p.left == p.all[|p.all| - |p.left|..]
    ensures numRead - evp == |EncodeAll(p.left)| || (numRead - evp == |EncodeAll(p.left)| - 1 && |p.left| == 1 && !firstTry)
  {
    hide Holds, PacketsOk, EncodeAll, Grouped, Traced, Replay, Discards, DeferredOk, Smooth, CutShort;
    BufferHead(b, evp, numRead, p.left, firstTry);
  }

  lemma LoopEnd(got: seq<ReadResult>, env: nat -> Answer, m0: Mon, m: Mon, b: seq<Byte>, evp: nat, numRead: int,
                firstTry: bool, cut: bool, p: Progress)
    requires forall k: nat :: |env(k).rebuild| == |m0.roots|
    requires LoopOk(got, env, m0, m, b, evp, numRead, firstTry, cut, p) && evp >= numRead
    ensures got != [] && p.all == Taken(got) && ProgressOk(p, firstTry)
    ensures p.trace <= Grouped(Events(p.all)) && (!cut ==> p.trace == Grouped(Events(p.all)))
    ensures (forall i :: 0 <= i < |p.trace| ==> GroupOk(p.trace[i])) && m == Replay(m0, p.trace, env)
    ensures if cut then CutShort(m0, p.trace, env) else Smooth(m0, p.trace, env)
    ensures Increasing(p.deferred)
    ensures forall i :: 0 <= i < |p.deferred| ==> p.deferred[i] < |p.all| && IsFrom(p.all[p.deferred[i]].ev)
  {
    hide Grouped, BufferOk, PacketsOk, Replay, Discards, IsFrom, Taken, Smooth, CutShort;
    if !cut {
      BufferEnd(b, evp, numRead, p.left, firstTry);
      assert Events(p.left) == [];
    }
  }

  lemma LoopProgress(got: seq<ReadResult>, env: nat -> Answer, m0: Mon, m: Mon, b: seq<Byte>, evp: nat, numRead: int,
                     firstTry: bool, p: Progress)
    requires forall k: nat :: |env(k).rebuild| == |m0.roots|
    requires LoopOk(got, env, m0, m, b, evp, numRead, firstTry, false, p) && p.left != []
    ensures ProgressOk(p, firstTry) && m == Replay(m0, p.trace, env)
    ensures forall i :: 0 <= i < |Consumed(p).trace| ==> GroupOk(Consumed(p).trace[i])
  {
    hide Holds, EncodeAll, Grouped, Traced, Replay, Discards, DeferredOk, Smooth, CutShort, BufferOk, KernelEvent;
    ProgressConsume(p, firstTry);
  }

  lemma BufferHead(b: seq<Byte>, evp: nat, numRead: int, left: seq<Packet>, firstTry: bool)
    requires BufferOk(b, evp, numRead, left, firstTry) && evp < numRead
    ensures left != [] && Holds(b, evp, left) && PacketsOk(left)
    ensures numRead - evp == |EncodeAll(left)| || (numRead - evp == |EncodeAll(left)| - 1 && |left| == 1 && !firstTry)
  {
  }

  lemma BufferEnd(b: seq<Byte>, evp: nat, numRead: int, left: seq<Packet>, firstTry: bool)
    requires BufferOk(b, evp, numRead, left, firstTry) && evp >= numRead
    ensures left == []
  {
    hide Holds;
    if left != [] {
      HoldsGroup(b, evp, left);
    }
  }

  lemma ReplayNone(m: Mon, env: nat -> Answer)
    requires forall k: nat :: |env(k).rebuild| == |m.roots|
    ensures Replay(m, [], env) == m
  {
  }

  /** No step has the rest of the buffer discarded. */
  ghost predicate Smooth(m: Mon, trace: seq<seq<Event>>, env: nat -> Answer)
    requires forall i :: 0 <= i < |trace| ==> GroupOk(trace[i])
    requires forall k: nat :: |env(k).rebuild| == |m.roots|
  {
    trace == [] || (Smooth(m, trace[..|trace| - 1], env) && !Discards(m, trace, env))
  }

  lemma SmoothMore(m: Mon, trace: seq<seq<Event>>, g: seq<Event>, env: nat -> Answer)
    requires (forall i :: 0 <= i < |trace| ==> GroupOk(trace[i])) && GroupOk(g)
    requires forall k: nat :: |env(k).rebuild| == |m.roots|
    ensures (trace + [g])[..|trace + [g]| - 1] == trace
    ensures Smooth(m, trace + [g], env) <==> Smooth(m, trace, env) && !Discards(m, trace + [g], env)
  {
    hide Discards, GroupOk;
    assert (trace + [g])[..|trace|] == trace;
  }

  lemma DiscardsLast(m: Mon, trace: seq<seq<Event>>, g: seq<Event>, env: nat -> Answer)
    requires (forall i :: 0 <= i < |trace| ==> GroupOk(trace[i])) && GroupOk(g)
    requires forall k: nat :: |env(k).rebuild| == |m.roots|
    ensures Discards(m, trace + [g], env) <==>
            var o := StepOn(Replay(m, trace, env), g, env(|trace|)).outcome; o == Rebuilt || o == Exited
  {
    hide StepOn, Replay;
    assert (trace + [g])[..|trace|] == trace;
  }

  lemma GroupedGrows(trace: seq<seq<Event>>, p: Progress, more: seq<Packet>)
    requires ProgressOk(p, true) && p.left != [] && trace == p.trace
    ensures trace <= Grouped(Events(p.all + more))
  {
    hide Grouped, DeferredOk, PacketsOk;
    assert Grouped(Events(p.all) + Events(more)) == trace + Grouped(Events(p.left) + Events(more));
    assert Events(p.all + more) == Events(p.all) + Events(more);
  }

  /** The loop's state, and what holds of it at every turn. */
  ghost predicate LoopOk(got: seq<ReadResult>, env: nat -> Answer, m0: Mon, m: Mon, b: seq<Byte>, evp: nat, numRead: int,
                         firstTry: bool, cut: bool, p: Progress)
    requires forall k: nat :: |env(k).rebuild| == |m0.roots|
  {
    && got != [] && p.all == Taken(got)
    && ProgressOk(p, firstTry) && m == Replay(m0, p.trace, env) && p.trace <= Grouped(Events(p.all))
    && (!cut ==> BufferOk(b, evp, numRead, p.left, firstTry) && Smooth(m0, p.trace, env))
    && (cut ==> evp >= numRead && CutShort(m0, p.trace, env))
  }

  /** Only the last step has the rest discarded. */
  ghost predicate CutShort(m: Mon, trace: seq<seq<Event>>, env: nat -> Answer)
    requires forall i :: 0 <= i < |trace| ==> GroupOk(trace[i])
    requires forall k: nat :: |env(k).rebuild| == |m.roots|
  {
    trace != [] && Smooth(m, trace[..|trace| - 1], env) && Discards(m, trace, env)
  }

  /** The loop after the step that begins with the head of the buffer. */
  lemma LoopConsume(got: seq<ReadResult>, env: nat -> Answer, m0: Mon, m: Mon, b: seq<Byte>, evp: nat, numRead: int,
                    firstTry: bool, p: Progress, r: Result, evLen: nat)
    requires forall k: nat :: |env(k).rebuild| == |m0.roots|
    requires LoopOk(got, env, m0, m, b, evp, numRead, firstTry, false, p) && evp < numRead <= INOTIFY_READ_BUF_LEN
    requires |m.roots| == |m0.roots| && p.left != [] && PacketsOk(p.left) && KernelEvent(p.left[0].ev)
    requires r == Handle(m, p.left[0].ev, NextOf(p.left), firstTry, env(|p.trace|)) && r.outcome != Deferred
    requires r.outcome == Rebuilt ==> evLen == INOTIFY_READ_BUF_LEN
    requires r.outcome == Done(1) ==> evLen == |Encode(p.left[0])|
    requires r.outcome == Done(2) ==> |p.left| > 1 && evLen == |Encode(p.left[0])| + |Encode(p.left[1])|
    ensures r.outcome.Done? ==>
              LoopOk(got, env, m0, r.mon, b, evp + evLen, numRead, true, false, Consumed(p)) && evLen < INOTIFY_READ_BUF_LEN
    ensures !r.outcome.Done? ==>
              LoopOk(got, env, m0, r.mon, b, evp + INOTIFY_READ_BUF_LEN, numRead, true, true, Consumed(p))
  {
    hide Holds, Handle, Encode, EncodeAll, PacketOk, PacketsOk, Traced, GroupOk, StepOn, IsFrom, Grouped, GroupLen, Replay,
      BufferOk, Discards, DeferredOk, KernelEvent, Smooth;
    HandleHead(m, p.left, firstTry, env(|p.trace|));
    var g := Events(p.left)[..GroupLen(Events(p.left))];
    BufferConsume(b, evp, numRead, p.left, firstTry);
    ProgressConsume(p, firstTry);
    ReplayMore(m0, p.trace, g, env);
    DiscardsLast(m0, p.trace, g, env);
    SmoothMore(m0, p.trace, g, env);
  }

  /** The loop after the head of the buffer was held back and one more read was made. */
  lemma LoopHold(got: seq<ReadResult>, env: nat -> Answer, m0: Mon, m: Mon, b0: seq<Byte>, evp: nat, numRead0: int,
                 p: Progress, b: seq<Byte>, numRead: int, got': seq<ReadResult>, more: seq<Packet>)
    requires forall k: nat :: |env(k).rebuild| == |m0.roots|
    requires LoopOk(got, env, m0, m, b0, evp, numRead0, true, false, p)
    requires p.left != [] && IsFrom(p.left[0].ev) && PacketsOk(more) && BufferOk(b, 0, numRead, p.left + more, false)
    requires got <= got' && Taken(got') == Taken(got) + more
    ensures LoopOk(got', env, m0, m, b, 0, numRead, false, false, HeldBack(p, more))
  {
    hide PacketsOk, Traced, IsFrom, Grouped, Replay, BufferOk, DeferredOk, Taken, Smooth, CutShort;
    ProgressHold(p, more);
    GroupedGrows(p.trace, p, more);
  }

  // ----- when another read is made -----

  /** The place of the last event of the first `k` reads. */
  function LastOf(got: seq<ReadResult>, k: nat): int
    requires k <= |got|
  {
    |Taken(got[..k])| - 1
  }

  /** The first `k` reads end with a "moved from". */
  predicate EndsFrom(got: seq<ReadResult>, k: nat)
    requires k <= |got|
  {
    LastOf(got, k) >= 0 && IsFrom(Taken(got[..k])[LastOf(got, k)].ev)
  }

  /** Waiting for more events brought none: the last read was interrupted, or no more are to come. */
  predicate Vain(supply: nat, got: seq<ReadResult>, deferred: seq<nat>) {
    |deferred| >= supply || (got != [] && got[|got| - 1].Interrupted?)
  }

  /** Every event held back was the last one read, and every further read is made because of one. */
  ghost predicate Waits(supply: nat, got: seq<ReadResult>, deferred: seq<nat>) {
    && 1 <= |got| == (if |deferred| < supply then |deferred| + 1 else supply)
    && (forall x :: x in deferred ==> exists k: nat :: k <= |got| && EndsFrom(got, k) && LastOf(got, k) == x)
    && (forall k: nat :: 1 <= k < |got| ==> EndsFrom(got, k) && LastOf(got, k) in deferred)
  }

  /** A "moved from" that was tried again, or handled as the last event with its watch `known`, has been
      held back; when nothing follows it, the wait was in vain. */
  ghost predicate Patient(supply: nat, got: seq<ReadResult>, p: Progress, firstTry: bool, known: bool) {
    && |p.left| <= |p.all|
    && (!firstTry ==> |p.all| - |p.left| in p.deferred && (|p.left| == 1 ==> Vain(supply, got, p.deferred)))
    && (known && p.left == [] && p.all != [] && IsFrom(p.all[|p.all| - 1].ev) ==>
          |p.all| - 1 in p.deferred && Vain(supply, got, p.deferred))
  }

  /** The watch that the last event names was cached when the last step was made. */
  ghost predicate Known(m: Mon, p: Progress, env: nat -> Answer)
    requires forall i :: 0 <= i < |p.trace| ==> GroupOk(p.trace[i])
    requires forall k: nat :: |env(k).rebuild| == |m.roots|
  {
    p.trace != [] && p.all != [] && p.all[|p.all| - 1].ev.wd in Replay(m, p.trace[..|p.trace| - 1], env).cache
  }

  lemma WaitsStart(supply: nat, ps: seq<Packet>)
    requires supply >= 1 && ps != []
    ensures Waits(supply, [Got(ps)], []) && Patient(supply, [Got(ps)], Progress(ps, ps, [], []), true, true)
  {
  }

  /** A lone "moved from" with a known watch is not handled on the first try. */
  lemma PatientConsume(supply: nat, got: seq<ReadResult>, m0: Mon, m: Mon, p: Progress, env: nat -> Answer, firstTry: bool, done: bool)
    requires forall k: nat :: |env(k).rebuild| == |m0.roots|
    requires ProgressOk(p, firstTry) && m == Replay(m0, p.trace, env) && p.left != []
    requires forall i :: 0 <= i < |Consumed(p).trace| ==> GroupOk(Consumed(p).trace[i])
    requires Patient(supply, got, p, firstTry, true)
    requires IsFrom(p.left[0].ev) && |p.left| == 1 && (done || p.left[0].ev.wd in m.cache) ==> !firstTry
    ensures Patient(supply, got, Consumed(p), true, done || Known(m0, Consumed(p), env))
  {
    hide Vain, Has, Traced, DeferredOk, Replay, PacketsOk, GroupOk, KernelEvent;
    var n := GroupLen(Events(p.left));
    assert p.all[|p.all| - 1] == p.left[|p.left| - 1];
    assert Consumed(p).trace[..|p.trace|] == p.trace;
    if n == 2 {
      assert Has(Events(p.left)[1].mask, IN_MOVED_TO);
    }
  }

  lemma EndsSame(got: seq<ReadResult>, got': seq<ReadResult>, k: nat)
    requires got <= got' && k <= |got|
    ensures LastOf(got', k) == LastOf(got, k) && (EndsFrom(got', k) <==> EndsFrom(got, k))
  {
    hide IsFrom, Taken;
    assert got'[..k] == got[..k];
  }

  lemma EndsNow(got: seq<ReadResult>)
    requires got != []
    ensures LastOf(got, |got|) == |Taken(got)| - 1
    ensures EndsFrom(got, |got|) <==> Taken(got) != [] && IsFrom(Taken(got)[|Taken(got)| - 1].ev)
  {
    hide IsFrom, Taken;
    assert got[..|got|] == got;
  }

  lemma WaitsHold(supply: nat, got: seq<ReadResult>, deferred: seq<nat>, got': seq<ReadResult>)
    requires Waits(supply, got, deferred) && EndsFrom(got, |got|) && got <= got'
    requires |got'| == if |got| < supply then |got| + 1 else |got|
    ensures Waits(supply, got', deferred + [LastOf(got, |got|)])
  {
    hide EndsFrom, LastOf;
    LastThere(got);
    var d := deferred + [LastOf(got, |got|)];
    EndsSame(got, got', |got|);
    forall x | x in d
      ensures exists k: nat :: k <= |got'| && EndsFrom(got', k) && LastOf(got', k) == x
    {
      if x in deferred {
        var k: nat :| k <= |got| && EndsFrom(got, k) && LastOf(got, k) == x;
        EndsSame(got, got', k);
      }
    }
    forall k: nat | 1 <= k < |got'|
      ensures EndsFrom(got', k) && LastOf(got', k) in d
    {
      EndsSame(got, got', k);
    }
  }

  lemma LastThere(got: seq<ReadResult>)
    requires EndsFrom(got, |got|)
    ensures LastOf(got, |got|) >= 0
  {
  }

  /** The last event read is held back. */
  lemma PatientHold(supply: nat, got: seq<ReadResult>, p: Progress, got': seq<ReadResult>, more: seq<Packet>)
    requires Waits(supply, got, p.deferred) && p.all == Taken(got) && |p.left| == 1 <= |p.all| && p.left == p.all[|p.all| - 1..]
    requires IsFrom(p.left[0].ev) && got <= got' && |got'| == if |got| < supply then |got| + 1 else |got|
    requires if |got| == supply then more == [] else more == [] ==> got'[|got|].Interrupted?
    ensures Waits(supply, got', HeldBack(p, more).deferred) && Patient(supply, got', HeldBack(p, more), false, true)
  {
    hide IsFrom, Taken, EndsFrom, LastOf;
    EndsNow(got);
    assert p.all[|p.all| - 1] == p.left[0];
    WaitsHold(supply, got, p.deferred, got');
    var d := HeldBack(p, more).deferred;
    assert d[|d| - 1] == |p.all| - 1;
  }

  /** What is known of the reads when the call is over. */
  lemma PatientEnd(supply: nat, got: seq<ReadResult>, p: Progress, firstTry: bool, known: bool)
    requires Waits(supply, got, p.deferred) && Patient(supply, got, p, firstTry, known) && p.all == Taken(got)
    requires ProgressOk(p, firstTry)
    ensures p.trace == Grouped(Events(p.all)) && known && EndsFrom(got, |got|) ==>
              LastOf(got, |got|) in p.deferred && Vain(supply, got, p.deferred)
  {
    hide IsFrom, Taken, Vain, EndsFrom, LastOf, Grouped, PacketsOk, DeferredOk, GroupOk;
    EndsNow(got);
    if p.left != [] && p.trace == Grouped(Events(p.all)) {
      AllTraced(Events(p.all), Events(p.left), p.trace);
    }
  }

  lemma AllTraced(all: seq<Event>, left: seq<Event>, trace: seq<seq<Event>>)
    requires Traced(all, left, trace) && left != []
    ensures trace != Grouped(all)
  {
    TracedStepNow(all, left, trace);
  }

  // ----- the loop's whole state -----

  ghost predicate TurnOk(supply: nat, got: seq<ReadResult>, env: nat -> Answer, m0: Mon, m: Mon, b: seq<Byte>, evp: nat,
                         numRead: int, firstTry: bool, cut: bool, p: Progress)
    requires forall k: nat :: |env(k).rebuild| == |m0.roots|
  {
    && LoopOk(got, env, m0, m, b, evp, numRead, firstTry, cut, p) && Waits(supply, got, p.deferred)
    && (forall i :: 0 <= i < |p.trace| ==> GroupOk(p.trace[i]))
    && Patient(supply, got, p, firstTry, !cut || Known(m0, p, env))
  }

  lemma TurnStart(supply: nat, ps: seq<Packet>, b: seq<Byte>, numRead: nat, env: nat -> Answer, m0: Mon)
    requires supply >= 1 && ps != [] && PacketsOk(ps) && numRead == |EncodeAll(ps)| <= |b| && b[0..numRead] == EncodeAll(ps)
    requires forall k: nat :: |env(k).rebuild| == |m0.roots|
    ensures TurnOk(supply, [Got(ps)], env, m0, m0, b, 0, numRead, true, false, Progress(ps, ps, [], []))
  {
    hide PacketsOk, EncodeAll, LoopOk, Waits, Patient;
    LoopStart(ps, b, numRead, env, m0);
    WaitsStart(supply, ps);
  }

  lemma TurnHead(supply: nat, got: seq<ReadResult>, env: nat -> Answer, m0: Mon, m: Mon, b: seq<Byte>, evp: nat, numRead: int,
                 firstTry: bool, cut: bool, p: Progress)
    requires forall k: nat :: |env(k).rebuild| == |m0.roots|
    requires TurnOk(supply, got, env, m0, m, b, evp, numRead, firstTry, cut, p) && evp < numRead
    ensures !cut && p.left != [] && Holds(b, evp, p.left) && PacketsOk(p.left) && |m.roots| == |m0.roots|
    ensures BufferOk(b, evp, numRead, p.left, firstTry) && |p.left| <= |p.all|
    ensures numRead - evp == |EncodeAll(p.left)| || (numRead - evp == |EncodeAll(p.left)| - 1 && |p.left| == 1 && !firstTry)
  {
    hide LoopOk, Known, Waits, Patient, Holds, EncodeAll, BufferOk, PacketsOk;
    LoopHead(got, env, m0, m, b, evp, numRead, firstTry, cut, p);
  }

  /** After the step that begins with the head of the buffer. */
  lemma TurnConsume(supply: nat, got: seq<ReadResult>, env: nat -> Answer, m0: Mon, m: Mon, b: seq<Byte>, evp: nat, numRead: int,
                    firstTry: bool, p: Progress, r: Result, evLen: nat)
    requires forall k: nat :: |env(k).rebuild| == |m0.roots|
    requires TurnOk(supply, got, env, m0, m, b, evp, numRead, firstTry, false, p) && evp < numRead <= INOTIFY_READ_BUF_LEN
    requires |m.roots| == |m0.roots| && p.left != [] && PacketsOk(p.left) && KernelEvent(p.left[0].ev)
    requires r == Handle(m, p.left[0].ev, NextOf(p.left), firstTry, env(|p.trace|)) && r.outcome != Deferred
    requires r.outcome == Rebuilt ==> evLen == INOTIFY_READ_BUF_LEN
    requires r.outcome == Done(1) ==> evLen == |Encode(p.left[0])|
    requires r.outcome == Done(2) ==> |p.left| > 1 && evLen == |Encode(p.left[0])| + |Encode(p.left[1])|
    ensures r.outcome.Done? ==>
              TurnOk(supply, got, env, m0, r.mon, b, evp + evLen, numRead, true, false, Consumed(p)) && evLen < INOTIFY_READ_BUF_LEN
    ensures !r.outcome.Done? ==>
              TurnOk(supply, got, env, m0, r.mon, b, evp + INOTIFY_READ_BUF_LEN, numRead, true, true, Consumed(p))
  {
    hide LoopOk, ProgressOk, Known, Waits, Patient, Handle, Encode, PacketsOk, GroupOk, IsFrom, Replay, KernelEvent, StepOn;
    HandleHead(m, p.left, firstTry, env(|p.trace|));
    LoopConsume(got, env, m0, m, b, evp, numRead, firstTry, p, r, evLen);
    LoopProgress(got, env, m0, m, b, evp, numRead, firstTry, p);
    PatientConsume(supply, got, m0, m, p, env, firstTry, r.outcome.Done?);
  }

  /** After the head of the buffer was held back and one more read was made. */
  lemma TurnHold(supply: nat, got: seq<ReadResult>, env: nat -> Answer, m0: Mon, m: Mon, b0: seq<Byte>, evp: nat, numRead0: int,
                 p: Progress, b: seq<Byte>, numRead: int, got': seq<ReadResult>, more: seq<Packet>)
    requires forall k: nat :: |env(k).rebuild| == |m0.roots|
    requires TurnOk(supply, got, env, m0, m, b0, evp, numRead0, true, false, p) && evp < numRead0
    requires |p.left| == 1 && IsFrom(p.left[0].ev) && PacketsOk(more) && BufferOk(b, 0, numRead, p.left + more, false)
    requires got <= got' && Taken(got') == Taken(got) + more && |got'| == if |got| < supply then |got| + 1 else |got|
    requires if |got| == supply then more == [] else more == [] ==> got'[|got|].Interrupted?
    ensures |p.left| <= |p.all| && TurnOk(supply, got', env, m0, m, b, 0, numRead, false, false, HeldBack(p, more))
  {
    hide LoopOk, Known, Waits, Patient, BufferOk, IsFrom, PacketsOk, Taken, GroupOk;
    LoopHead(got, env, m0, m, b0, evp, numRead0, true, false, p);
    LoopHold(got, env, m0, m, b0, evp, numRead0, p, b, numRead, got', more);
    PatientHold(supply, got, p, got', more);
  }

  /** What a call has done when it is over. */
  ghost predicate CallOk(supply: nat, got: seq<ReadResult>, env: nat -> Answer, m0: Mon, m: Mon, cut: bool, p: Progress)
    requires forall k: nat :: |env(k).rebuild| == |m0.roots|
  {
    && got != [] && p.all == Taken(got)
    && p.trace <= Grouped(Events(p.all)) && (!cut ==> p.trace == Grouped(Events(p.all)))
    && (forall i :: 0 <= i < |p.trace| ==> GroupOk(p.trace[i])) && m == Replay(m0, p.trace, env)
    && (if cut then CutShort(m0, p.trace, env) else Smooth(m0, p.trace, env))
    && Increasing(p.deferred) && Waits(supply, got, p.deferred)
    && (forall i :: 0 <= i < |p.deferred| ==> p.deferred[i] < |p.all| && IsFrom(p.all[p.deferred[i]].ev))
    && (p.trace == Grouped(Events(p.all)) && (!cut || Known(m0, p, env)) && EndsFrom(got, |got|) ==>
          LastOf(got, |got|) in p.deferred && Vain(supply, got, p.deferred))
  }

  lemma TurnEnd(supply: nat, got: seq<ReadResult>, env: nat -> Answer, m0: Mon, m: Mon, b: seq<Byte>, evp: nat, numRead: int,
                firstTry: bool, cut: bool, p: Progress)
    requires forall k: nat :: |env(k).rebuild| == |m0.roots|
    requires TurnOk(supply, got, env, m0, m, b, evp, numRead, firstTry, cut, p) && evp >= numRead
    ensures CallOk(supply, got, env, m0, m, cut, p)
  {
    hide LoopOk, ProgressOk, Known, Waits, Patient, Grouped, Replay, Smooth, CutShort, IsFrom, Taken, Vain, EndsFrom, LastOf, GroupOk;
    LoopEnd(got, env, m0, m, b, evp, numRead, firstTry, cut, p);
    PatientEnd(supply, got, p, firstTry, !cut || Known(m0, p, env));
  }

  method FirstRead(rs: seq<nat -> ReadResult>) returns (buf: array<Byte>, numRead: int, ghost packets: seq<Packet>)
    requires ReadsOk(rs)
    ensures fresh(buf) && buf.Length == INOTIFY_READ_BUF_LEN
    ensures packets != [] && PacketsOk(packets) && Returned(rs, [Got(packets)])
    ensures 0 <= numRead == |EncodeAll(packets)| <= buf.Length && buf[0..numRead] == EncodeAll(packets)
  {
    hide EncodeAll, PacketsOk;
    buf := new Byte[INOTIFY_READ_BUF_LEN](_ => 0);
    var r := rs[0](INOTIFY_READ_BUF_LEN);
    packets := r.packets;
    var first := EncodeAll(r.packets);
    numRead := |first|;
    Fill(buf, 0, first);
    assert [] + [r] == [r];
    ReturnedMore(rs, [], INOTIFY_READ_BUF_LEN);
  }

  lemma ReturnedSize(rs: seq<nat -> ReadResult>, got: seq<ReadResult>)
    requires Returned(rs, got)
    ensures |got| <= |rs|
  {
  }

  /** One call of `processInotifyEvents`, for all results of its reads and all kernel answers.  The
      events of the reads it makes are handled exactly once and in order, pairs as one step, unless a
      rebuild (or the end of the program) discards what is left.  A "moved from" event is held back
      exactly when it is the last one read, and once; a further read is made exactly when one is held
      back; and one is handled as the last event only when that read brought nothing. */
  method ProcessInotifyEvents(w: Watcher, rs: seq<nat -> ReadResult>, env: nat -> Answer)
    returns (used: nat, steps: nat, cut: bool, ghost p: Progress, ghost got: seq<ReadResult>)
    requires w.Valid() && ReadsOk(rs)
    requires forall k: nat :: |env(k).rebuild| == |w.Abs().roots|
    requires forall k: nat :: AnswerOk(env(k), w.rootDirPaths.Length)
    modifies w`wlCache, w`ignoreRootDirs, w.wlCache, w.rootDirPaths
    ensures w.wlCache == old(w.wlCache) || fresh(w.wlCache)
    ensures w.Valid() && 1 <= used == |got| && Returned(rs, got) && steps == |p.trace|
    ensures CallOk(|rs|, got, env, old(w.Abs()), w.Abs(), cut, p)
  {
    hide TurnOk, CallOk, Holds, Handle, Encode, EncodeAll, PacketOk, PacketsOk, View, SlotsOk, Nulled, GroupLen, BufferOk, IsFrom,
      AnswerOk, ReadsOk, Returned, StepOn, GroupOk, Taken;
    var buf, numRead, packets := FirstRead(rs);
    var evp: nat, firstTry := 0, true;
    steps := 0;
    used, cut, got := 1, false, [Got(packets)];
    ReturnedSize(rs, got);
    p := Progress(packets, packets, [], []);
    ghost var m0 := w.Abs();
    TurnStart(|rs|, packets, buf[..], numRead, env, m0);
    while evp < numRead
      invariant w.Valid() && (w.wlCache == old(w.wlCache) || fresh(w.wlCache))
      invariant steps == |p.trace| && numRead <= INOTIFY_READ_BUF_LEN && 1 <= used == |got| <= |rs| && Returned(rs, got)
      invariant TurnOk(|rs|, got, env, m0, w.Abs(), buf[..], evp, numRead, firstTry, cut, p)
      decreases |rs| - used, |p.left|, firstTry
    {
      ghost var b, m, left := buf[..], w.Abs(), p.left;
      TurnHead(|rs|, got, env, m0, m, b, evp, numRead, firstTry, cut, p);
      HandleHead(m, left, firstTry, env(steps));
      ghost var r := Handle(m, left[0].ev, NextOf(left), firstTry, env(steps));
      var evLen, exit := ProcessNextInotifyEvent(w, buf, evp, numRead - evp, firstTry, env(steps), left);
      if exit || evLen >= 0 {
        TurnConsume(|rs|, got, env, m0, m, b, evp, numRead, firstTry, p, r, if exit then 0 else evLen);
        p := Consumed(p);
        steps := steps + 1;
        cut := exit || evLen == INOTIFY_READ_BUF_LEN;
        if exit {
          TurnEnd(|rs|, got, env, m0, w.Abs(), b, evp + INOTIFY_READ_BUF_LEN, numRead, true, cut, p);
          return;
        }
        evp, firstTry := evp + evLen, true;
      } else {
        ghost var more;
        ghost var got0, numRead0 := got, numRead;
        numRead, used, more, got := SecondRead(buf, evp, numRead, rs, used, left, got);
        ReturnedSize(rs, got);
        TurnHold(|rs|, got0, env, m0, m, b, evp, numRead0, p, buf[..], numRead, got, more);
        firstTry, evp := false, 0;
        p := HeldBack(p, more);
      }
    }
    TurnEnd(|rs|, got, env, m0, w.Abs(), buf[..], evp, numRead, firstTry, cut, p);
  }

  // ----- a pair that arrives with two reads -----

  lemma TakenTwo(a: seq<Packet>, b: seq<Packet>)
    ensures Taken([Got(a)]) == a && Taken([Got(a), Got(b)]) == a + b
  {
    TakenOne(a);
    assert [Got(a), Got(b)] == [Got(a)] + [Got(b)];
    TakenMore([Got(a)], Got(b));
  }

  lemma GroupedFew(a: Event, b: Event)
    requires IsFrom(a) && Has(b.mask, IN_MOVED_TO) && b.cookie == a.cookie
    ensures Grouped([a]) == [[a]] && Grouped([a, b]) == [[a, b]] && !IsFrom(b)
  {
    hide Has, Grouped;
    GroupedNone();
    GroupedHead([a]);
    GroupedHead([a, b]);
    assert [a][..1] == [a] && [a][1..] == [] && [a, b][2..] == [] && [a, b][..2] == [a, b];
  }

  /** No third read is made. */
  lemma NoThird(supply: nat, got: seq<ReadResult>, deferred: seq<nat>, a: Packet, b: Packet)
    requires Waits(supply, got, deferred) && |got| >= 2 && got[0] == Got([a]) && got[1] == Got([b]) && !IsFrom(b.ev)
    ensures got == [Got([a]), Got([b])] && Taken(got) == [a, b]
  {
    hide IsFrom, Taken;
    assert got[..2] == [Got([a]), Got([b])];
    TakenTwo([a], [b]);
    assert [a] + [b] == [a, b];
    assert !EndsFrom(got, 2);
  }

  lemma CallReads(supply: nat, got: seq<ReadResult>, env: nat -> Answer, m0: Mon, m: Mon, cut: bool, p: Progress)
    requires forall k: nat :: |env(k).rebuild| == |m0.roots|
    requires CallOk(supply, got, env, m0, m, cut, p)
    ensures got != [] && Waits(supply, got, p.deferred) && p.all == Taken(got)
    ensures p.trace <= Grouped(Events(p.all)) && (p.trace != [] || p.trace == Grouped(Events(p.all)))
    ensures forall i :: 0 <= i < |p.trace| ==> GroupOk(p.trace[i])
  {
    hide IsFrom, Replay, Smooth, Discards, GroupOk, Grouped, Taken, Waits, EndsFrom, LastOf, Known, Vain;
  }

  lemma CallVain(supply: nat, got: seq<ReadResult>, env: nat -> Answer, m0: Mon, m: Mon, cut: bool, p: Progress)
    requires forall k: nat :: |env(k).rebuild| == |m0.roots|
    requires CallOk(supply, got, env, m0, m, cut, p) && p.trace == Grouped(Events(p.all)) && Known(m0, p, env) && EndsFrom(got, |got|)
    ensures Vain(supply, got, p.deferred)
  {
    hide IsFrom, Replay, Smooth, CutShort, GroupOk, Grouped, Taken, Waits, EndsFrom, LastOf, Known, Vain;
  }

  /** A call that makes only this read could make no other. */
  lemma OneRead(supply: nat, got: seq<ReadResult>, env: nat -> Answer, m0: Mon, m: Mon, cut: bool, p: Progress, a: Packet)
    requires forall k: nat :: |env(k).rebuild| == |m0.roots|
    requires CallOk(supply, got, env, m0, m, cut, p) && got == [Got([a])]
    requires IsFrom(a.ev) && a.ev.wd in m0.cache && Grouped([a.ev]) == [[a.ev]]
    ensures supply == 1
  {
    hide CallOk, IsFrom, Replay, GroupOk, Grouped, Taken, EndsFrom, LastOf;
    CallReads(supply, got, env, m0, m, cut, p);
    TakenOne([a]);
    EndsNow(got);
    assert Events([a]) == [a.ev];
    assert p.trace == [[a.ev]] && p.trace[..0] == [];
    ReplayNone(m0, env);
    CallVain(supply, got, env, m0, m, cut, p);
  }

  /** When one read ends with a "moved from" and the next brings its "moved to", the call renames the
      subtree in the cache, as it does when both come with one read. */
  method RenameOverReads(w: Watcher, rs: seq<nat -> ReadResult>, env: nat -> Answer, ghost a: Packet, ghost b: Packet)
    requires w.Valid() && ReadsOk(rs) && |rs| >= 2
    requires forall k: nat :: |env(k).rebuild| == |w.Abs().roots|
    requires forall k: nat :: AnswerOk(env(k), w.rootDirPaths.Length)
    requires forall room: nat :: room <= INOTIFY_READ_BUF_LEN ==> rs[0](room) == Got([a]) && rs[1](room) == Got([b])
    requires IsFrom(a.ev) && Has(b.ev.mask, IN_MOVED_TO) && b.ev.cookie == a.ev.cookie
    requires a.ev.wd in w.Abs().cache && b.ev.wd in w.Abs().cache
    modifies w`wlCache, w`ignoreRootDirs, w.wlCache, w.rootDirPaths
    ensures w.Valid()
    ensures var m := old(w.Abs());
            w.Abs() == m.(cache := RenameCached(m.cache, Child(m.cache[a.ev.wd], a.ev.name), Child(m.cache[b.ev.wd], b.ev.name)))
  {
    hide CallOk, IsFrom, Has, AnswerOk, ReadsOk;
    ghost var m0 := w.Abs();
    var used, steps, cut, p, got := ProcessInotifyEvents(w, rs, env);
    assert got[0] == Got([a]) && (used > 1 ==> got[1] == Got([b]));
    GroupedFew(a.ev, b.ev);
    CallReads(|rs|, got, env, m0, w.Abs(), cut, p);
    if used == 1 {
      OneRead(|rs|, got, env, m0, w.Abs(), cut, p, a);
    }
    NoThird(|rs|, got, p.deferred, a, b);
    PairRenames(|rs|, got, env, m0, w.Abs(), cut, p, a, b);
  }

  lemma PairRenames(supply: nat, got: seq<ReadResult>, env: nat -> Answer, m0: Mon, m: Mon, cut: bool, p: Progress, a: Packet, b: Packet)
    requires forall k: nat :: |env(k).rebuild| == |m0.roots|
    requires CallOk(supply, got, env, m0, m, cut, p) && p.all == [a, b]
    requires IsFrom(a.ev) && Has(b.ev.mask, IN_MOVED_TO) && b.ev.cookie == a.ev.cookie
    requires a.ev.wd in m0.cache && b.ev.wd in m0.cache
    ensures m == m0.(cache := RenameCached(m0.cache, Child(m0.cache[a.ev.wd], a.ev.name), Child(m0.cache[b.ev.wd], b.ev.name)))
  {
    hide Has, Known, EndsFrom, LastOf, Vain, Waits, KernelEvent;
    GroupedFew(a.ev, b.ev);
    assert Events([a, b]) == [a.ev, b.ev];
    assert p.trace == [[a.ev, b.ev]] && p.trace[..0] == [];
    ReplayNone(m0, env);
  }
}
