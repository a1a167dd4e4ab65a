/** Exercise 63-03: one thread per message queue copies messages into a common pipe, each in a single
    `write()` of a header and the data; the main thread takes them out with two reads per message.
    `write()` calls of at most `PIPE_BUF` bytes are not interleaved with one another. */
module PipeFraming {
  import opened Basics
  import opened Bytes

  const MAX_MSG_SIZE := 1024
  const PIPE_BUF := 4096
  const HEADER_SIZE := 16

  datatype Msg = Msg(qid: nat, data: seq<Byte>)

  /** A message as written; `gap` is the four bytes between `qid` and `size` in `struct queue_msg`. */
  datatype Packet = Packet(msg: Msg, gap: seq<Byte>)

  /** The terminating null byte that is put behind the data must fit too. */
  predicate PacketOk(p: Packet) {
    p.msg.qid < TWO32 / 2 && |p.msg.data| < MAX_MSG_SIZE && |p.gap| == 4
  }

  function Frame(p: Packet): (b: seq<Byte>)
    requires PacketOk(p)
    ensures HEADER_SIZE <= |b| <= PIPE_BUF && |b| == HEADER_SIZE + |p.msg.data|
  {
    ToLe(p.msg.qid, 4) + p.gap + ToLe(|p.msg.data|, 8) + p.msg.data
  }

  function QidOf(header: seq<Byte>): nat
    requires |header| == HEADER_SIZE
  {
    FromLe(header[..4])
  }

  function SizeOf(header: seq<Byte>): nat
    requires |header| == HEADER_SIZE
  {
    FromLe(header[8..16])
  }

  /** Where the fields of `struct queue_msg` stand, for every header. */
  lemma HeaderFields(header: seq<Byte>)
    requires |header| == HEADER_SIZE
    ensures QidOf(header) == Word(header, 0) && SizeOf(header) == Word(header, 8) + 0x1_0000_0000 * Word(header, 12)
  {
    hide FromLe, Word;
    assert header[..4] == header[0..4];
    FromLeWord(header, 0);
    FromLeWords(header, 8);
  }

  lemma FrameHeader(p: Packet, rest: seq<Byte>)
    requires PacketOk(p)
    ensures var b := Frame(p) + rest;
            && QidOf(b[..HEADER_SIZE]) == p.msg.qid && SizeOf(b[..HEADER_SIZE]) == |p.msg.data|
            && b[HEADER_SIZE..] == p.msg.data + rest
  {
    hide ToLe, FromLe;
    var b := Frame(p) + rest;
    assert b[..HEADER_SIZE][..4] == ToLe(p.msg.qid, 4);
    assert b[..HEADER_SIZE][8..16] == ToLe(|p.msg.data|, 8);
    Pow256Values();
    LeRoundTrip(p.msg.qid, 4);
    LeRoundTrip(|p.msg.data|, 8);
  }

  // ----- the threads -----

  datatype Reader = AtHeader | AtData(qid: nat, size: nat)

  /** `left[i]` is what queue `i` will still deliver to its thread; `out` is what `read_pipe` has
      displayed and `errors` counts its short reads. */
  datatype State = State(left: seq<seq<seq<Byte>>>, pipe: seq<Byte>, reader: Reader, out: seq<Msg>, errors: nat)

  /** The threads' queue descriptors, one each. */
  predicate QidsOk(qids: seq<nat>) {
    && (forall i :: 0 <= i < |qids| ==> qids[i] < TWO32 / 2)
    && (forall i, j :: 0 <= i < j < |qids| ==> qids[i] != qids[j])
  }

  predicate QueuesOk(queues: seq<seq<seq<Byte>>>) {
    forall i, k :: 0 <= i < |queues| && 0 <= k < |queues[i]| ==> |queues[i][k]| < MAX_MSG_SIZE
  }

  /** Thread `i` receives the next message of its queue and writes it. */
  ghost predicate Writes(qids: seq<nat>, s: State, i: nat, gap: seq<Byte>, s': State) {
    && i < |qids| == |s.left| && s.left[i] != []
    && var p := Packet(Msg(qids[i], s.left[i][0]), gap);
       PacketOk(p) && s' == s.(left := s.left[i := s.left[i][1..]], pipe := s.pipe + Frame(p))
  }

  /** `read()` of `n` bytes: what is there, up to `n`; it waits while the pipe is empty. */
  function Taken(pipe: seq<Byte>, n: nat): nat {
    if |pipe| < n then |pipe| else n
  }

  ghost predicate ReadsHeader(s: State, s': State) {
    && s.reader.AtHeader? && s.pipe != []
    && var k := Taken(s.pipe, HEADER_SIZE);
       s' == if k != HEADER_SIZE then s.(pipe := s.pipe[k..], errors := s.errors + 1)
             else s.(pipe := s.pipe[k..], reader := AtData(QidOf(s.pipe[..k]), SizeOf(s.pipe[..k])))
  }

  ghost predicate ReadsData(s: State, s': State) {
    && s.reader.AtData? && (s.reader.size == 0 || s.pipe != [])
    && var k := Taken(s.pipe, s.reader.size);
       s' == if k != s.reader.size then s.(pipe := s.pipe[k..], reader := AtHeader, errors := s.errors + 1)
             else s.(pipe := s.pipe[k..], reader := AtHeader, out := s.out + [Msg(s.reader.qid, s.pipe[..k])])
  }

  ghost predicate Step(qids: seq<nat>, s: State, s': State) {
    (exists i: nat, gap :: Writes(qids, s, i, gap, s')) || ReadsHeader(s, s') || ReadsData(s, s')
  }

  ghost predicate Steps(qids: seq<nat>, s: State, n: nat, s': State)
    decreases n
  {
    if n == 0 then s == s' else exists t :: Steps(qids, s, n - 1, t) && Step(qids, t, s')
  }

  function Start(queues: seq<seq<seq<Byte>>>): State {
    State(queues, [], AtHeader, [], 0)
  }

  // ----- interleavings -----

  /** The data of the messages of one queue, in order. */
  function From(qid: nat, log: seq<Msg>): seq<seq<Byte>> {
    if log == [] then []
    else
      var m := log[|log| - 1];
      From(qid, log[..|log| - 1]) + if m.qid == qid then [m.data] else []
  }

  /** `log` interleaves the first messages of the queues, those no longer in `left`. */
  ghost predicate Interleaves(qids: seq<nat>, queues: seq<seq<seq<Byte>>>, left: seq<seq<seq<Byte>>>, log: seq<Msg>) {
    && |qids| == |queues| == |left|
    && (forall k :: 0 <= k < |log| ==> log[k].qid in qids)
    && (forall i :: 0 <= i < |queues| ==> From(qids[i], log) + left[i] == queues[i])
  }

  lemma InterleavesMore(qids: seq<nat>, queues: seq<seq<seq<Byte>>>, left: seq<seq<seq<Byte>>>, log: seq<Msg>, i: nat)
    requires QidsOk(qids) && Interleaves(qids, queues, left, log) && i < |left| && left[i] != []
    ensures Interleaves(qids, queues, left[i := left[i][1..]], log + [Msg(qids[i], left[i][0])])
  {
    var left', log' := left[i := left[i][1..]], log + [Msg(qids[i], left[i][0])];
    assert log'[..|log'| - 1] == log;
    forall j | 0 <= j < |queues|
      ensures From(qids[j], log') + left'[j] == queues[j]
    {
      if j == i {
        assert From(qids[i], log) + [left[i][0]] + left[i][1..] == From(qids[i], log) + left[i];
      } else {
        assert qids[j] != qids[i];
        assert From(qids[j], log') == From(qids[j], log) + [];
      }
    }
  }

  // ----- the invariant -----

  predicate FlightOk(flight: seq<Packet>) {
    forall k :: 0 <= k < |flight| ==> PacketOk(flight[k])
  }

  function Frames(flight: seq<Packet>): seq<Byte>
    requires FlightOk(flight)
  {
    if flight == [] then [] else Frame(flight[0]) + Frames(flight[1..])
  }

  function Msgs(flight: seq<Packet>): seq<Msg> {
    seq(|flight|, k requires 0 <= k < |flight| => flight[k].msg)
  }

  /** The pipe holds the messages `flight`, less the header of the first when that has been read. */
  ghost predicate Carries(s: State, flight: seq<Packet>) {
    && FlightOk(flight)
    && match s.reader
       case AtHeader => s.pipe == Frames(flight)
       case AtData(qid, size) =>
         && flight != [] && qid == flight[0].msg.qid && size == |flight[0].msg.data|
         && s.pipe == flight[0].msg.data + Frames(flight[1..])
  }

  ghost predicate InvWith(qids: seq<nat>, queues: seq<seq<seq<Byte>>>, s: State, flight: seq<Packet>) {
    && Carries(s, flight) && s.errors == 0 && QueuesOk(s.left)
    && Interleaves(qids, queues, s.left, s.out + Msgs(flight))
  }

  lemma {:induction false} FramesAppend(flight: seq<Packet>, p: Packet)
    requires FlightOk(flight) && PacketOk(p)
    ensures FlightOk(flight + [p]) && Frames(flight + [p]) == Frames(flight) + Frame(p)
  {
    hide Frame, PacketOk;
    if flight == [] {
      assert [] + [p] == [p];
      assert Frames([p]) == Frame(p) + Frames([]);
    } else {
      assert (flight + [p])[1..] == flight[1..] + [p];
      FramesAppend(flight[1..], p);
    }
  }

  lemma WritesInv(qids: seq<nat>, queues: seq<seq<seq<Byte>>>, s: State, flight: seq<Packet>, i: nat, gap: seq<Byte>, s': State)
    requires QidsOk(qids) && InvWith(qids, queues, s, flight) && Writes(qids, s, i, gap, s')
    ensures InvWith(qids, queues, s', flight + [Packet(Msg(qids[i], s.left[i][0]), gap)])
  {
    hide Frame, Interleaves, From;
    var p := Packet(Msg(qids[i], s.left[i][0]), gap);
    FramesAppend(flight, p);
    InterleavesMore(qids, queues, s.left, s.out + Msgs(flight), i);
    assert Msgs(flight + [p]) == Msgs(flight) + [p.msg];
    assert s.out + (Msgs(flight) + [p.msg]) == s.out + Msgs(flight) + [p.msg];
    if s.reader.AtData? {
      FramesAppend(flight[1..], p);
      assert (flight + [p])[1..] == flight[1..] + [p];
    }
  }

  /** A header is there as a whole, and says what follows. */
  lemma HeaderInv(qids: seq<nat>, queues: seq<seq<seq<Byte>>>, s: State, flight: seq<Packet>, s': State)
    requires InvWith(qids, queues, s, flight) && ReadsHeader(s, s')
    ensures InvWith(qids, queues, s', flight)
  {
    hide Frame, Interleaves, From;
    assert flight != [];
    FrameHeader(flight[0], Frames(flight[1..]));
  }

  /** The data is there as a whole. */
  lemma DataInv(qids: seq<nat>, queues: seq<seq<seq<Byte>>>, s: State, flight: seq<Packet>, s': State)
    requires InvWith(qids, queues, s, flight) && ReadsData(s, s')
    ensures flight != [] && InvWith(qids, queues, s', flight[1..])
  {
    hide Frame, Interleaves, From;
    var m := flight[0].msg;
    assert s.pipe[..|m.data|] == m.data;
    assert s.pipe[|m.data|..] == Frames(flight[1..]);
    assert m == Msg(s.reader.qid, m.data);
    assert Msgs(flight) == [m] + Msgs(flight[1..]);
    assert s.out + ([m] + Msgs(flight[1..])) == s.out + [m] + Msgs(flight[1..]);
  }

  lemma StartInv(qids: seq<nat>, queues: seq<seq<seq<Byte>>>)
    requires |qids| == |queues| && QueuesOk(queues)
    ensures InvWith(qids, queues, Start(queues), [])
  {
    assert forall q: seq<seq<Byte>> :: [] + q == q;
  }

  /** The messages in all queues. */
  function Count(queues: seq<seq<seq<Byte>>>): nat {
    if queues == [] then 0 else Count(queues[..|queues| - 1]) + |queues[|queues| - 1]|
  }

  lemma {:induction false} CountLess(queues: seq<seq<seq<Byte>>>, i: nat)
    requires i < |queues| && queues[i] != []
    ensures Count(queues) == Count(queues[i := queues[i][1..]]) + 1
  {
    var n := |queues| - 1;
    if i == n {
      assert queues[i := queues[i][1..]][..n] == queues[..n];
    } else {
      assert queues[i := queues[i][1..]][..n] == queues[..n][i := queues[i][1..]];
      CountLess(queues[..n], i);
    }
  }

  /** The steps to come: one write and two reads for each message. */
  function Ahead(s: State, flight: seq<Packet>): int {
    3 * Count(s.left) + 2 * |flight| - if s.reader.AtData? then 1 else 0
  }

  lemma StepCounts(qids: seq<nat>, queues: seq<seq<seq<Byte>>>, s: State, flight: seq<Packet>, s': State) returns (flight': seq<Packet>)
    requires QidsOk(qids) && InvWith(qids, queues, s, flight) && Step(qids, s, s')
    ensures InvWith(qids, queues, s', flight') && Ahead(s', flight') == Ahead(s, flight) - 1
  {
    hide InvWith, Frame, PacketOk, Count;
    if i: nat, gap :| Writes(qids, s, i, gap, s') {
      WritesInv(qids, queues, s, flight, i, gap, s');
      CountLess(s.left, i);
      flight' := flight + [Packet(Msg(qids[i], s.left[i][0]), gap)];
    } else if ReadsHeader(s, s') {
      HeaderInv(qids, queues, s, flight, s');
      NoError(qids, queues, s', flight);
      flight' := flight;
    } else {
      DataInv(qids, queues, s, flight, s');
      flight' := flight[1..];
    }
  }

  lemma NoError(qids: seq<nat>, queues: seq<seq<seq<Byte>>>, s: State, flight: seq<Packet>)
    requires InvWith(qids, queues, s, flight)
    ensures s.errors == 0
  {
  }

  lemma {:induction false} RunInv(qids: seq<nat>, queues: seq<seq<seq<Byte>>>, n: nat, s: State) returns (flight: seq<Packet>)
    requires QidsOk(qids) && |qids| == |queues| && QueuesOk(queues) && Steps(qids, Start(queues), n, s)
    ensures InvWith(qids, queues, s, flight) && n + Ahead(s, flight) == 3 * Count(queues)
    decreases n
  {
    hide InvWith, Step;
    if n == 0 {
      StartInv(qids, queues);
      flight := [];
    } else {
      var t :| Steps(qids, Start(queues), n - 1, t) && Step(qids, t, s);
      var f := RunInv(qids, queues, n - 1, t);
      flight := StepCounts(qids, queues, t, f, s);
    }
  }

  /** In every interleaving of the threads: no read falls short; the messages displayed followed by
      those in the pipe interleave what the queues have delivered; the run is no longer than three steps
      for each message; and where no thread can go on all messages of all queues have been displayed, none
      lost, doubled, torn or out of order. */
  lemma RunTheorem(qids: seq<nat>, queues: seq<seq<seq<Byte>>>, n: nat, s: State)
    requires QidsOk(qids) && |qids| == |queues| && QueuesOk(queues) && Steps(qids, Start(queues), n, s)
    ensures s.errors == 0 && n <= 3 * Count(queues)
    ensures exists flight :: Carries(s, flight) && Interleaves(qids, queues, s.left, s.out + Msgs(flight))
    ensures (!exists s' :: Step(qids, s, s')) ==>
              Interleaves(qids, queues, seq(|queues|, _ => []), s.out)
  {
    hide Steps, Interleaves;
    var flight := RunInv(qids, queues, n, s);
    if !exists s' :: Step(qids, s, s') {
      StuckDone(qids, queues, s, flight);
    }
  }

  lemma StuckDone(qids: seq<nat>, queues: seq<seq<seq<Byte>>>, s: State, flight: seq<Packet>)
    requires InvWith(qids, queues, s, flight) && QidsOk(qids) && !exists s' :: Step(qids, s, s')
    ensures Interleaves(qids, queues, seq(|queues|, _ => []), s.out)
  {
    hide Frame;
    assert s.reader.AtHeader? by {
      if s.reader.AtData? {
        CanReadData(qids, s);
      }
    }
    assert s.pipe == [] by {
      if s.pipe != [] {
        CanReadHeader(qids, s);
      }
    }
    assert flight == [];
    assert s.out + Msgs(flight) == s.out;
    forall i | 0 <= i < |s.left|
      ensures s.left[i] == []
    {
      if s.left[i] != [] {
        CanWrite(qids, s, i);
      }
    }
    assert s.left == seq(|queues|, _ => []);
  }

  lemma CanWrite(qids: seq<nat>, s: State, i: nat)
    requires QidsOk(qids) && QueuesOk(s.left) && i < |qids| == |s.left| && s.left[i] != []
    ensures exists s' :: Step(qids, s, s')
  {
    var p := Packet(Msg(qids[i], s.left[i][0]), [0, 0, 0, 0]);
    var s' := s.(left := s.left[i := s.left[i][1..]], pipe := s.pipe + Frame(p));
    assert Writes(qids, s, i, [0, 0, 0, 0], s');
    assert Step(qids, s, s');
  }

  lemma CanReadHeader(qids: seq<nat>, s: State)
    requires s.reader.AtHeader? && s.pipe != []
    ensures exists s' :: Step(qids, s, s')
  {
    var k := Taken(s.pipe, HEADER_SIZE);
    var s' := if k != HEADER_SIZE then s.(pipe := s.pipe[k..], errors := s.errors + 1)
              else s.(pipe := s.pipe[k..], reader := AtData(QidOf(s.pipe[..k]), SizeOf(s.pipe[..k])));
    assert Step(qids, s, s');
  }

  lemma CanReadData(qids: seq<nat>, s: State)
    requires s.reader.AtData? && (s.reader.size == 0 || s.pipe != [])
    ensures exists s' :: Step(qids, s, s')
  {
    var k := Taken(s.pipe, s.reader.size);
    var s' := if k != s.reader.size then s.(pipe := s.pipe[k..], reader := AtHeader, errors := s.errors + 1)
              else s.(pipe := s.pipe[k..], reader := AtHeader, out := s.out + [Msg(s.reader.qid, s.pipe[..k])]);
    assert Step(qids, s, s');
  }
}
